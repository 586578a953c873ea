/** What each step does to each dentry, field by field. */
module DcacheFields {
  import opened Forests
  import opened DcacheTree
  import opened TreeMoves
  import opened DcacheState
  import opened DcacheRuns
  import X = DcacheIndex
  import L = DcacheLru

  /** All that a dentry has of its own. */
  datatype Dentry = Dentry(
    parent: Id, subdirs: seq<Id>, count: int, ext: nat, name: string, hash: nat, hashed: bool,
    lru: bool, shrink: bool, negative: bool, referenced: bool)

  function View(c: Cache, x: Id): Dentry
    requires Whole(c) && x in c.t.parent
  {
    Dentry(c.t.parent[x], c.t.subdirs[x], c.t.count[x], c.t.ext[x], c.x.name[x], c.x.hash[x], x in c.x.hashed,
           x in c.l.lru, x in c.l.shrink, x in c.l.negative, x in c.referenced)
  }

  /** The dentries other than those of s are there before and after, and are the same. */
  ghost predicate OnlyThese(c: Cache, c': Cache, s: set<Id>)
    requires Whole(c)
  {
    && Whole(c') && c'.t.parent.Keys - s == c.t.parent.Keys - s && c'.flags == c.flags && c'.x.shift == c.x.shift
    && forall x {:trigger View(c', x)} :: x in c.t.parent && x !in s ==> x in c'.t.parent && View(c', x) == View(c, x)
  }

  // ---- new dentries ----

  lemma ChildAt(c: Cache, d: Id, p: Id, name: string, hash: nat, x: Id)
    requires Whole(c) && p in c.t.parent && d !in c.t.parent && x in c.t.parent
    ensures var c' := NewChild(c, d, p, name, hash);
      && Whole(c') && x in c'.t.parent
      && View(c', x) == if x != p then View(c, x)
                        else View(c, x).(subdirs := [d] + c.t.subdirs[p], count := c.t.count[p] + 1)
  {
  }

  lemma NewAt(c: Cache, d: Id, p: Id, name: string, hash: nat)
    requires Whole(c) && p in c.t.parent && d !in c.t.parent && d !in c.l.lru && c.l.shrink <= c.l.lru
    ensures var c' := NewChild(c, d, p, name, hash);
      && Whole(c') && c'.t.parent.Keys == c.t.parent.Keys + {d} && c'.flags == c.flags && c'.x.shift == c.x.shift
      && View(c', d) == Dentry(p, [], 1, 1, name, hash, false, false, false, true, false)
  {
  }

  /** d_alloc: one reference for the caller, one of the child's on its parent, at the head of whose list it goes. */
  lemma ChildFields(c: Cache, d: Id, p: Id, name: string, hash: nat)
    requires Whole(c) && p in c.t.parent && d !in c.t.parent && d !in c.l.lru && c.l.shrink <= c.l.lru
    ensures var c' := NewChild(c, d, p, name, hash);
      && OnlyThese(c, c', {d, p}) && c'.t.parent.Keys == c.t.parent.Keys + {d}
      && View(c', d) == Dentry(p, [], 1, 1, name, hash, false, false, false, true, false)
      && View(c', p) == View(c, p).(subdirs := [d] + c.t.subdirs[p], count := c.t.count[p] + 1)
  {
    hide NewChild, View;
    NewAt(c, d, p, name, hash);
    forall x | x in c.t.parent { ChildAt(c, d, p, name, hash, x); }
  }

  /** d_alloc_anon */
  lemma RootFields(c: Cache, d: Id, hash: nat)
    requires Whole(c) && d !in c.t.parent && d !in c.l.lru && c.l.shrink <= c.l.lru
    ensures var c' := NewRoot(c, d, hash);
      && OnlyThese(c, c', {d}) && c'.t.parent.Keys == c.t.parent.Keys + {d}
      && View(c', d) == Dentry(d, [], 1, 1, "/", hash, false, false, false, true, false)
  {
  }

  // ---- names ----

  /** __d_instantiate_anon: hashed, at the head of the list of roots, and positive. */
  lemma HashRootFields(c: Cache, d: Id)
    requires Whole(c) && d in c.t.parent
    ensures var c' := Rooted(c, d);
      && OnlyThese(c, c', {d}) && c'.t.parent == c.t.parent && c'.x.table == c.x.table
      && View(c', d) == View(c, d).(hashed := true, negative := false) && c'.x.roots == [d] + c.x.roots
  {
  }

  /** __d_add: at the head of its bucket; positive if it gets an inode. */
  lemma AddFields(c: Cache, d: Id, inode: bool)
    requires Whole(c) && d in c.t.parent
    ensures var c', b := Added(c, d, inode), X.Bucket(c.x.shift, c.x.hash[d]);
      && OnlyThese(c, c', {d}) && c'.t.parent == c.t.parent && c'.x.roots == c.x.roots
      && View(c', d) == View(c, d).(hashed := true, negative := d in c.l.negative && !inode)
      && X.Chain(c'.x, b) == [d] + X.Chain(c.x, b)
      && (forall e :: e != b ==> X.Chain(c'.x, e) == X.Chain(c.x, e))
  {
    hide X.Bucket;
  }

  /** d_drop */
  lemma DropFields(c: Cache, d: Id)
    requires In(c, d)
    ensures var c' := Unhash(c, d);
      OnlyThese(c, c', {d}) && c'.t.parent == c.t.parent && View(c', d) == View(c, d).(hashed := false)
  {
    hide X.Bucket, Remove;
  }

  /** d_delete: the only user's dentry becomes negative and stays hashed; any other is unhashed. */
  lemma DeleteFields(c: Cache, d: Id)
    requires In(c, d)
    ensures var c' := Delete(c, d);
      && OnlyThese(c, c', {d}) && c'.t.parent == c.t.parent
      && View(c', d) == if c.t.count[d] == 1 then View(c, d).(negative := true) else View(c, d).(hashed := false)
  {
    hide X.DropHash;
    if c.t.count[d] != 1 { DropFields(c, d); }
  }

  // ---- references ----

  lemma GetFields(c: Cache, d: Id)
    requires Whole(c) && d in c.t.parent
    ensures var c' := c.(t := Get(c.t, d));
      && OnlyThese(c, c', {d}) && c'.t.parent == c.t.parent
      && View(c', d) == View(c, d).(count := c.t.count[d] + 1, ext := c.t.ext[d] + 1)
  {
  }

  lemma PutOneFields(c: Cache, d: Id)
    requires Whole(c) && d in c.t.parent && c.t.ext[d] > 0
    ensures var c' := c.(t := Drop(c.t, d));
      && OnlyThese(c, c', {d}) && c'.t.parent == c.t.parent
      && View(c', d) == View(c, d).(count := c.t.count[d] - 1, ext := c.t.ext[d] - 1)
  {
  }

  /** No dentry comes or goes, and none but d changes. */
  lemma OneChanges(c: Cache, c': Cache, d: Id)
    requires Whole(c) && Whole(c') && c'.t.parent.Keys == c.t.parent.Keys
    requires c'.flags == c.flags && c'.x.shift == c.x.shift
    requires forall x {:trigger View(c', x)} :: x in c.t.parent && x != d ==> View(c', x) == View(c, x)
    ensures OnlyThese(c, c', {d})
  {
    hide View;
  }

  lemma RetainAt(c: Cache, d: Id, x: Id)
    requires Whole(c) && d in c.t.parent && c.t.ext[d] > 0 && x in c.t.parent
    ensures var c' := Retain(c, d);
      && Whole(c') && c'.t.parent == c.t.parent && c'.flags == c.flags && c'.x == c.x
      && View(c', x) == if x != d then View(c, x)
                        else View(c, d).(count := c.t.count[d] - 1, ext := c.t.ext[d] - 1, lru := true,
                                         referenced := d in c.referenced || d in c.l.lru)
  {
  }

  /** retain_dentry: what it asks, and what it does if the answer is yes. */
  lemma RetainFields(c: Cache, d: Id)
    requires Whole(c) && d in c.t.parent && c.t.ext[d] > 0
    ensures Retains(c, d) <==>
      && d in c.x.hashed && d !in c.flags.disconnected && d !in c.flags.dontCache
      && (d in c.flags.opDelete ==> d !in c.flags.refuses)
    ensures var c' := Retain(c, d);
      && OnlyThese(c, c', {d}) && c'.t.parent == c.t.parent
      && View(c', d) == View(c, d).(count := c.t.count[d] - 1, ext := c.t.ext[d] - 1, lru := true,
                                    referenced := d in c.referenced || d in c.l.lru)
  {
    hide Retain, View, OnlyThese;
    RetainAt(c, d, d);
    forall x | x in c.t.parent && x != d ensures View(Retain(c, d), x) == View(c, x) { RetainAt(c, d, x); }
    OneChanges(c, Retain(c, d), d);
  }

  lemma PutToListAt(c: Cache, d: Id, x: Id)
    requires Whole(c) && d in c.t.parent && c.t.ext[d] > 0 && x in c.t.parent
    ensures var c', v := PutToList(c, d), View(c, d).(count := c.t.count[d] - 1, ext := c.t.ext[d] - 1);
      && Whole(c') && c'.t.parent == c.t.parent && c'.flags == c.flags && c'.x == c.x
      && View(c', x) == if x != d then View(c, x)
                        else if d in c.l.shrink then v else v.(lru := c.t.count[d] == 1, shrink := c.t.count[d] == 1)
  {
  }

  /** dput_to_list */
  lemma PutToListFields(c: Cache, d: Id)
    requires Whole(c) && d in c.t.parent && c.t.ext[d] > 0
    ensures var c', v := PutToList(c, d), View(c, d).(count := c.t.count[d] - 1, ext := c.t.ext[d] - 1);
      && OnlyThese(c, c', {d}) && c'.t.parent == c.t.parent
      && View(c', d) == if d in c.l.shrink then v else v.(lru := c.t.count[d] == 1, shrink := c.t.count[d] == 1)
  {
    hide PutToList, View, OnlyThese;
    PutToListAt(c, d, d);
    forall x | x in c.t.parent && x != d ensures View(PutToList(c, d), x) == View(c, x) { PutToListAt(c, d, x); }
    OneChanges(c, PutToList(c, d), d);
  }

  // ---- kills ----

  /** What is left of a dentry that is killed: nothing, but that a shrink list it is on still has it. */
  ghost predicate IsGone(c: Cache, c': Cache, d: Id) {
    && d !in c'.t.parent && d !in c'.x.hashed && d !in c'.x.name && d !in c'.t.count && d in c'.l.negative
    && (d in c'.l.shrink <==> d in c.l.shrink) && (d in c'.l.lru <==> d in c.l.lru && d in c.l.shrink)
  }

  /** What becomes of what __dentry_kill does not kill: nothing, and the parent has a child less. */
  lemma GoneAt(c: Cache, d: Id, x: Id)
    requires In(c, d) && x in c.t.parent && x != d
    ensures var x', l', t' := Gone(c, d).x, Gone(c, d).l, Gone(c, d).t;
      && x in t'.parent && x in t'.subdirs && x in t'.count && x in t'.ext && x in x'.name && x in x'.hash
      && t'.parent[x] == c.t.parent[x] && t'.count[x] == c.t.count[x] && t'.ext[x] == c.t.ext[x]
      && t'.subdirs[x] == (if x == c.t.parent[d] then Remove(c.t.subdirs[x], d) else c.t.subdirs[x])
      && x'.name[x] == c.x.name[x] && x'.hash[x] == c.x.hash[x] && (x in x'.hashed <==> x in c.x.hashed)
      && (x in l'.lru <==> x in c.l.lru) && (x in l'.shrink <==> x in c.l.shrink)
      && (x in l'.negative <==> x in c.l.negative) && Gone(c, d).referenced == c.referenced
  {
    hide X.Bucket, Remove;
  }

  lemma GoneShape(c: Cache, d: Id)
    requires In(c, d) && c.l.shrink <= c.l.lru
    ensures var c' := Gone(c, d);
      && Whole(c') && c'.t.parent.Keys == c.t.parent.Keys - {d} && c'.flags == c.flags
      && c'.referenced == c.referenced && c'.x.shift == c.x.shift && IsGone(c, c', d)
  {
    hide X.Bucket, Remove;
  }

  /** KillLast and its like differ from Gone in what they do to the parent. */
  lemma KillShape(c: Cache, d: Id)
    requires In(c, d) && Whole(Gone(c, d))
    ensures var c', g, p := KillLast(c, d), Gone(c, d), c.t.parent[d];
      && Whole(c') && c'.x == g.x && c'.l == g.l && c'.flags == g.flags && c'.referenced == g.referenced
      && c'.t.parent == g.t.parent && c'.t.subdirs == g.t.subdirs && c'.t.count == g.t.count
      && (p != d ==> p in g.t.ext && c'.t.ext == g.t.ext[p := g.t.ext[p] + 1]) && (p == d ==> c'.t.ext == g.t.ext)
  {
    hide X.DropHash, X.Forget, L.Killed, Remove;
  }

  lemma KillAt(c: Cache, d: Id, x: Id)
    requires In(c, d) && Whole(Gone(c, d)) && Whole(KillLast(c, d)) && x in c.t.parent && x != d
    ensures var c' := KillLast(c, d);
      && x in c'.t.parent
      && View(c', x) == if x != c.t.parent[d] then View(c, x)
                        else View(c, x).(subdirs := Remove(c.t.subdirs[x], d), ext := c.t.ext[x] + 1)
  {
    hide Gone, KillLast, Remove;
    GoneAt(c, d, x);
    KillShape(c, d);
  }

  /** Dentry d goes, and no other but p changes. */
  lemma OneGoes(c: Cache, c': Cache, d: Id, p: Id)
    requires Whole(c) && Whole(c') && c'.t.parent.Keys == c.t.parent.Keys - {d}
    requires c'.flags == c.flags && c'.x.shift == c.x.shift
    requires forall x {:trigger View(c', x)} :: x in c.t.parent && x != d && x != p ==>
               x in c'.t.parent && View(c', x) == View(c, x)
    ensures OnlyThese(c, c', {d, p})
  {
    hide View;
    assert c'.t.parent.Keys - {d, p} == c.t.parent.Keys - {d, p};
  }

  /** __dentry_kill by dput and d_prune_aliases: the reference on the parent passes to the caller. */
  lemma KillFields(c: Cache, d: Id)
    requires In(c, d) && c.l.shrink <= c.l.lru
    ensures var c', p := KillLast(c, d), c.t.parent[d];
      && OnlyThese(c, c', {d, p}) && c'.t.parent.Keys == c.t.parent.Keys - {d} && IsGone(c, c', d)
      && (p != d ==>
            View(c', p) == View(c, p).(subdirs := Remove(c.t.subdirs[p], d), ext := c.t.ext[p] + 1))
  {
    hide Gone, KillLast, Remove, View, OnlyThese;
    GoneShape(c, d);
    KillShape(c, d);
    var c', p := KillLast(c, d), c.t.parent[d];
    forall x | x in c.t.parent && x != d && x != p ensures x in c'.t.parent && View(c', x) == View(c, x) {
      KillAt(c, d, x);
    }
    OneGoes(c, c', d, p);
    if p != d { KillAt(c, d, p); }
  }

  /** What dropping d's reference on its parent does to the parent, as __dput_to_list does it. */
  function ParentView(v: Dentry, d: Id): Dentry {
    var less := v.(subdirs := Remove(v.subdirs, d), count := v.count - 1);
    if v.shrink then less else less.(lru := v.count == 1, shrink := v.count == 1)
  }

  lemma ParentPutLists(c: Cache, l: L.Lru, d: Id)
    requires In(c, d)
    ensures var p, l' := c.t.parent[d], ParentPut(c, l, d);
      && l'.negative == l.negative && SameBut(l, l', p, p)
      && (p == d || p in l.shrink ==> l' == l)
      && (p != d && p !in l.shrink ==> (p in l'.lru <==> c.t.count[p] == 1) && (p in l'.shrink <==> c.t.count[p] == 1))
  {
  }

  lemma KilledLists(l: L.Lru, d: Id, x: Id)
    ensures var l' := L.Killed(l, d);
      && (x != d ==> (x in l'.lru <==> x in l.lru) && (x in l'.negative <==> x in l.negative))
      && l'.shrink == l.shrink && d in l'.negative && (d in l'.lru <==> d in l.lru && d in l.shrink)
  {
  }

  /** An unused dentry is killed, with its parent's count lowered and the lists turned into l. */
  ghost predicate UnusedGone(c: Cache, c': Cache, d: Id, l: L.Lru) {
    && In(c, d) && Whole(Gone(c, d)) && c'.x == Gone(c, d).x && c'.flags == c.flags && c'.referenced == c.referenced
    && c'.t == KillUnused(c.t, d) && c'.l == L.Killed(l, d)
  }

  lemma UnusedShape(c: Cache, d: Id)
    requires In(c, d) && Whole(Gone(c, d))
    ensures var t', g, p := KillUnused(c.t, d), Gone(c, d).t, c.t.parent[d];
      && Domains(t') && t'.parent == g.parent && t'.subdirs == g.subdirs && t'.ext == g.ext
      && (p != d ==> p in g.count && t'.count == g.count[p := g.count[p] - 1]) && (p == d ==> t'.count == g.count)
  {
    hide X.DropHash, X.Forget, L.Killed, Remove;
  }

  lemma UnusedGoneAt(c: Cache, c': Cache, d: Id, l: L.Lru, x: Id)
    requires UnusedGone(c, c', d, l) && Whole(c') && l.negative == c.l.negative && x in c.t.parent && x != d
    ensures x in c'.t.parent
    ensures View(c', x) == if x != c.t.parent[d] then View(c, x).(lru := x in l.lru, shrink := x in l.shrink)
                           else View(c, x).(subdirs := Remove(c.t.subdirs[x], d), count := c.t.count[x] - 1,
                                            lru := x in l.lru, shrink := x in l.shrink)
  {
    hide Gone, KillUnused, Remove, L.Killed;
    GoneAt(c, d, x);
    UnusedShape(c, d);
    KilledLists(l, d, x);
  }

  /** The lists differ for a and b at most. */
  ghost predicate SameBut(l: L.Lru, l': L.Lru, a: Id, b: Id) {
    forall x :: x != a && x != b ==> (x in l'.lru <==> x in l.lru) && (x in l'.shrink <==> x in l.shrink)
  }

  lemma UnusedGoneWhole(c: Cache, c': Cache, d: Id, l: L.Lru)
    requires UnusedGone(c, c', d, l) && c.l.shrink <= c.l.lru
    ensures In(c, d) && Whole(c') && c'.t.parent.Keys == c.t.parent.Keys - {d} && c'.x.shift == c.x.shift
    ensures c'.flags == c.flags
  {
    hide Gone, KillUnused, L.Killed;
    GoneShape(c, d);
    UnusedShape(c, d);
  }

  lemma ViewSame(c: Cache, x: Id, lru: bool, shrink: bool)
    requires Whole(c) && x in c.t.parent && (lru <==> x in c.l.lru) && (shrink <==> x in c.l.shrink)
    ensures View(c, x).(lru := lru, shrink := shrink) == View(c, x)
  {
  }

  lemma UnusedGoneFields(c: Cache, c': Cache, d: Id, l: L.Lru)
    requires UnusedGone(c, c', d, l) && c.l.shrink <= c.l.lru
    requires l.negative == c.l.negative && SameBut(c.l, l, d, c.t.parent[d])
    ensures var p := c.t.parent[d];
      && OnlyThese(c, c', {d, p}) && c'.t.parent.Keys == c.t.parent.Keys - {d}
      && (p != d ==>
            View(c', p) == View(c, p).(subdirs := Remove(c.t.subdirs[p], d), count := c.t.count[p] - 1,
                                       lru := p in l.lru, shrink := p in l.shrink))
  {
    hide Gone, KillUnused, Remove, L.Killed, View, OnlyThese, UnusedGone;
    UnusedGoneWhole(c, c', d, l);
    var p := c.t.parent[d];
    forall x | x in c.t.parent && x != d && x != p ensures x in c'.t.parent && View(c', x) == View(c, x) {
      UnusedGoneAt(c, c', d, l, x);
      ViewSame(c, x, x in l.lru, x in l.shrink);
    }
    OneGoes(c, c', d, p);
    if p != d { UnusedGoneAt(c, c', d, l, p); }
  }

  lemma UnusedKills(c: Cache, d: Id)
    requires In(c, d) && Whole(Gone(c, d))
    ensures UnusedGone(c, ShrinkKill(c, d), d, ParentPut(c, L.ShrinkDel(c.l, d), d))
    ensures UnusedGone(c, KillVictim(c, d), d, ParentPut(c, c.l, d))
  {
    hide KillUnused, L.Killed, ParentPut, X.DropHash, X.Forget, Unlist;
  }

  /** shrink_dentry_list: off the list first. */
  lemma ShrinkKillFields(c: Cache, d: Id)
    requires In(c, d) && c.l.shrink <= c.l.lru && d in c.l.shrink
    ensures var c', p := ShrinkKill(c, d), c.t.parent[d];
      && OnlyThese(c, c', {d, p}) && c'.t.parent.Keys == c.t.parent.Keys - {d}
      && d !in c'.x.hashed && d !in c'.l.lru && d !in c'.l.shrink
      && (p != d ==> View(c', p) == ParentView(View(c, p), d))
  {
    hide Gone, KillUnused, Remove, L.Killed, ParentPut, ShrinkKill;
    var l := ParentPut(c, L.ShrinkDel(c.l, d), d);
    GoneShape(c, d);
    UnusedKills(c, d);
    KilledLists(l, d, d);
    ParentPutLists(c, L.ShrinkDel(c.l, d), d);
    UnusedGoneFields(c, ShrinkKill(c, d), d, l);
  }

  /** shrink_dcache_parent on a victim: it stays on the list it is on. */
  lemma VictimFields(c: Cache, d: Id)
    requires In(c, d) && c.l.shrink <= c.l.lru && d in c.l.shrink
    ensures var c', p := KillVictim(c, d), c.t.parent[d];
      && OnlyThese(c, c', {d, p}) && c'.t.parent.Keys == c.t.parent.Keys - {d}
      && d !in c'.x.hashed && d in c'.l.lru && d in c'.l.shrink
      && (p != d ==> View(c', p) == ParentView(View(c, p), d))
  {
    hide Gone, KillUnused, Remove, L.Killed, ParentPut, KillVictim;
    var l := ParentPut(c, c.l, d);
    GoneShape(c, d);
    UnusedKills(c, d);
    KilledLists(l, d, d);
    ParentPutLists(c, c.l, d);
    UnusedGoneFields(c, KillVictim(c, d), d, l);
  }

  // ---- moves ----

  /** __d_move onto a target: each dentry. */
  lemma MoveFields(c: Cache, d: Id, target: Id, x: Id)
    requires In(c, d) && In(c, target) && d != target && c.t.parent[target] != d && c.t.parent[d] != target
    requires c.t.parent[target] != target && x in c.t.parent
    ensures var c', p, q := MoveOver(c, d, target), c.t.parent[d], c.t.parent[target];
      && Whole(c') && c'.t.parent.Keys == c.t.parent.Keys && c'.flags == c.flags && c'.x.shift == c.x.shift
      && View(c', x) == View(c, x).(
           parent := if x == d then q else c.t.parent[x],
           subdirs := MovedList(c.t.subdirs[x], d, x == p && p != d, x == q),
           count := c.t.count[x] + (if x == q then 1 else 0) - (if x == p && p != d then 1 else 0),
           name := c.x.name[if x == d then target else x],
           hash := c.x.hash[if x == d then target else x],
           hashed := x == d || (x != target && x in c.x.hashed))
  {
    hide X.Moved, Remove;
    MovedIndexFields(c, d, target);
    MoveTreeFields(c.t, d, target, x);
  }

  /** A list of children that c leaves, or joins at the head, or both. */
  function MovedList(s: seq<Id>, c: Id, leaves: bool, joins: bool): seq<Id> {
    var rest := if leaves then Remove(s, c) else s;
    if joins then [c] + rest else rest
  }

  lemma MoveTreeFields(t: Tree, d: Id, target: Id, x: Id)
    requires Placed(t, d) && Placed(t, target) && d != target && t.parent[target] != d && t.parent[d] != target
    requires t.parent[target] != target && x in t.parent
    ensures var t', p, q := Move(t, d, target), t.parent[d], t.parent[target];
      && Domains(t') && t'.parent.Keys == t.parent.Keys && t'.ext == t.ext
      && t'.parent[x] == (if x == d then q else t.parent[x])
      && t'.subdirs[x] == MovedList(t.subdirs[x], d, x == p && p != d, x == q)
      && t'.count[x] == t.count[x] + (if x == q then 1 else 0) - if x == p && p != d then 1 else 0
  {
    hide Remove;
  }

  lemma MovedIndexFields(c: Cache, d: Id, target: Id)
    requires In(c, d) && In(c, target) && d != target
    ensures var x' := X.Moved(c.x, c.t.parent, d, target);
      && x'.hashed == c.x.hashed - {target} + {d} && x'.shift == c.x.shift
      && x'.name == c.x.name[d := c.x.name[target]] && x'.hash == c.x.hash[d := c.x.hash[target]]
  {
    hide X.Unchain, X.Bucket;
    UnchainFields(c.x, d, c.t.parent[d] == d);
    UnchainFields(X.DropHash(c.x, d, c.t.parent[d] == d), target, c.t.parent[target] == target);
  }

  lemma UnchainFields(x: X.Index, d: Id, root: bool)
    requires d in x.hash
    ensures var x' := X.Unchain(x, d, root);
      x'.hashed == x.hashed && x'.name == x.name && x'.hash == x.hash && x'.shift == x.shift
  {
  }

  lemma ExchangedIndexFields(c: Cache, d: Id, target: Id)
    requires In(c, d) && In(c, target) && d != target
    ensures var x' := X.Exchanged(c.x, c.t.parent, d, target);
      && x'.hashed == c.x.hashed + {target} + {d} && x'.shift == c.x.shift
      && x'.name == c.x.name[d := c.x.name[target]][target := c.x.name[d]]
      && x'.hash == c.x.hash[d := c.x.hash[target]][target := c.x.hash[d]]
  {
    hide X.Unchain, X.Bucket;
    UnchainFields(c.x, d, c.t.parent[d] == d);
    UnchainFields(X.DropHash(c.x, d, c.t.parent[d] == d), target, c.t.parent[target] == target);
  }

  lemma ExchangeTreeFields(t: Tree, d: Id, target: Id, x: Id)
    requires Placed(t, d) && Placed(t, target) && d != target && t.parent[target] != d && t.parent[d] != target
    requires t.parent[target] != target && t.parent[d] != d && x in t.parent
    ensures var t', p, q := Exchange(t, d, target), t.parent[d], t.parent[target];
      && Domains(t') && t'.parent.Keys == t.parent.Keys && t'.ext == t.ext && t'.count == t.count
      && t'.parent[x] == (if x == d then q else if x == target then p else t.parent[x])
      && t'.subdirs[x] ==
           MovedList(MovedList(t.subdirs[x], target, x == q, x == p), d, x == p, x == q)
  {
    hide Remove;
  }

  /** __d_move with exchange, of two non-roots: each dentry. */
  lemma SwapFields(c: Cache, d: Id, target: Id, x: Id)
    requires In(c, d) && In(c, target) && d != target && c.t.parent[target] != d && c.t.parent[d] != target
    requires c.t.parent[target] != target && c.t.parent[d] != d && x in c.t.parent
    ensures var c', p, q := Swap(c, d, target), c.t.parent[d], c.t.parent[target];
      && Whole(c') && c'.t.parent.Keys == c.t.parent.Keys && c'.flags == c.flags && c'.x.shift == c.x.shift
      && var other := if x == d then target else if x == target then d else x;
         View(c', x) == View(c, x).(
           parent := c.t.parent[other],
           subdirs := MovedList(MovedList(c.t.subdirs[x], target, x == q, x == p), d, x == p, x == q),
           name := c.x.name[other], hash := c.x.hash[other], hashed := x != other || x in c.x.hashed)
  {
    hide X.Exchanged, Remove;
    ExchangedIndexFields(c, d, target);
    ExchangeTreeFields(c.t, d, target, x);
  }

  // ---- flags ----

  /** The steps on lists. */
  lemma ListFields(c: Cache, s: ListStep, l: L.Lru)
    requires ListNext(c, s, l) && c.l.shrink <= c.l.lru
    ensures match s
      case Instantiate(d) => l.negative == c.l.negative - {d} && l.lru == c.l.lru && l.shrink == c.l.shrink
      case Collect(d) =>
        && l.negative == c.l.negative && d in c.t.count
        && (d in c.l.shrink ==> l == c.l)
        && (d !in c.l.shrink && c.t.count[d] == 0 ==> l.lru == c.l.lru + {d} && l.shrink == c.l.shrink + {d})
        && (d !in c.l.shrink && c.t.count[d] != 0 ==> l.lru == c.l.lru - {d} && l.shrink == c.l.shrink)
      case Isolate(d) => l.negative == c.l.negative && l.lru == c.l.lru - {d} && l.shrink == c.l.shrink
      case ToShrink(d) => l.negative == c.l.negative && l.lru == c.l.lru && l.shrink == c.l.shrink + {d}
      case Rotate(_) => l == c.l
      case GiveBack(d) => l.negative == c.l.negative && l.lru == c.l.lru - {d} && l.shrink == c.l.shrink - {d}
  {
  }

  /** No step on lists touches tree or hash table, and only a rotation, which takes a dentry that was looked at lately,
      touches that mark. */
  lemma ListSpares(c: Cache, f: (Id, string) -> nat, s: ListStep, c': Cache)
    requires Next(c, f, Listing(s), c')
    ensures c'.t == c.t && c'.x == c.x
    ensures forall d :: (d in c.referenced && d !in c'.referenced <==> s == Rotate(d))
    ensures c'.referenced <= c.referenced
  {
    hide ListNext;
  }
}
