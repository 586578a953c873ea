/** Where the names of dentries and of their snapshots are kept: in a small buffer of their own, or shared outside. */
module DcacheNames {
  import opened Helpers

  type Addr = nat
  type Byte = b: int | 0 <= b < 256

  datatype Owner = Dentry(d: nat) | Snapshot(s: nat)
  datatype Where = Inline | External(a: Addr)

  /** d_name and d_iname of a dentry, or name and inline_name of a snapshot. */
  datatype Slot = Slot(at: Where, hash: nat, len: nat, buf: seq<Byte>)

  /** struct external_name */
  datatype Shared = Shared(count: int, bytes: seq<Byte>)

  function Users(slots: map<Owner, Slot>, a: Addr): set<Owner> { set o | o in slots && slots[o].at == External(a) }

  /** The name ends in a zero byte, within the buffer it is in. */
  predicate SlotOk(size: nat, slot: Slot, store: map<Addr, Shared>) {
    && |slot.buf| == size
    && match slot.at
       case Inline => slot.len < size && slot.buf[slot.len] == 0
       case External(a) => a in store && slot.len < |store[a].bytes| && store[a].bytes[slot.len] == 0
  }

  /** The buffer of a dentry ends in a zero byte, whatever is before it. */
  predicate Tailed(slot: Slot) { slot.buf != [] && slot.buf[|slot.buf| - 1] == 0 }

  /** The count is the number of dentries and snapshots that point here, and there is one. */
  ghost predicate CountOk(slots: map<Owner, Slot>, store: map<Addr, Shared>, a: Addr)
    requires a in store
  {
    store[a].count == |Users(slots, a)| > 0
  }

  ghost predicate NamesOk(size: nat, slots: map<Owner, Slot>, store: map<Addr, Shared>) {
    && size > 0
    && (forall o :: o in slots ==> SlotOk(size, slots[o], store) && (o.Dentry? ==> Tailed(slots[o])))
    && (forall a :: a in store ==> CountOk(slots, store, a))
  }

  /** A reader without a lock comes to a zero byte: at the end of the name, and at the end of a dentry's buffer. */
  lemma NamesEnd(size: nat, slots: map<Owner, Slot>, store: map<Addr, Shared>, o: Owner)
    requires NamesOk(size, slots, store) && o in slots
    ensures var s := slots[o];
      && |s.buf| == size > 0 && (o.Dentry? ==> s.buf[size - 1] == 0)
      && (s.at.Inline? ==> s.len < size && s.buf[s.len] == 0)
      && (s.at.External? ==> s.at.a in store && s.len < |store[s.at.a].bytes| && store[s.at.a].bytes[s.len] == 0)
  {
    assert SlotOk(size, slots[o], store);
  }

  datatype Name = Name(bytes: seq<Byte>, hash: nat)

  /** The name a reader sees. */
  function Seen(size: nat, slot: Slot, store: map<Addr, Shared>): Name
    requires SlotOk(size, slot, store)
  {
    Name(match slot.at case Inline => slot.buf[..slot.len] case External(a) => store[a].bytes[..slot.len], slot.hash)
  }

  lemma UsersAfter(slots: map<Owner, Slot>, o: Owner, slot: Slot, a: Addr)
    ensures |Users(slots[o := slot], a)|
         == |Users(slots, a)| + One(slot.at == External(a)) - One(o in slots && slots[o].at == External(a))
  {
    var out := Users(slots, a) - {o};
    assert Users(slots[o := slot], a) == if slot.at == External(a) then out + {o} else out;
    assert Users(slots, a) == if o in Users(slots, a) then out + {o} else out;
  }

  lemma UsersWithout(slots: map<Owner, Slot>, o: Owner, a: Addr)
    ensures |Users(slots - {o}, a)| == |Users(slots, a)| - One(o in slots && slots[o].at == External(a))
  {
    var out := Users(slots, a) - {o};
    assert Users(slots - {o}, a) == out;
    assert Users(slots, a) == if o in Users(slots, a) then out + {o} else out;
  }

  /** memcpy of a name and its zero byte to the front of a buffer. */
  function Copied(buf: seq<Byte>, from: seq<Byte>, n: nat): seq<Byte>
    requires n <= |from| && n <= |buf|
  {
    from[..n] + buf[n..]
  }

  /** A reference on a shared name taken. */
  function Taken(store: map<Addr, Shared>, a: Addr): map<Addr, Shared>
    requires a in store
  {
    store[a := store[a].(count := store[a].count + 1)]
  }

  /** A reference on a shared name given back; with the last one the memory goes too. */
  function Dropped(store: map<Addr, Shared>, a: Addr): map<Addr, Shared>
    requires a in store
  {
    if store[a].count == 1 then store - {a} else store[a := store[a].(count := store[a].count - 1)]
  }

  /** store' has the names of store that are still used, each with the number of its users. */
  ghost predicate Recounted(store: map<Addr, Shared>, slots: map<Owner, Slot>, store': map<Addr, Shared>) {
    forall a {:trigger RecountedAt(store, slots, store', a)} :: RecountedAt(store, slots, store', a)
  }

  ghost predicate RecountedAt(store: map<Addr, Shared>, slots: map<Owner, Slot>, store': map<Addr, Shared>, a: Addr) {
    && (a in store' <==> a in store && Users(slots, a) != {})
    && (a in store' ==> store'[a] == store[a].(count := |Users(slots, a)|))
  }

  lemma RecountedOk(size: nat, slots: map<Owner, Slot>, store: map<Addr, Shared>, store': map<Addr, Shared>)
    requires size > 0 && Recounted(store, slots, store')
    requires forall o :: o in slots ==> SlotOk(size, slots[o], store) && (o.Dentry? ==> Tailed(slots[o]))
    ensures NamesOk(size, slots, store')
    ensures forall o :: o in slots ==> Seen(size, slots[o], store') == Seen(size, slots[o], store)
  {
    forall o | o in slots
      ensures SlotOk(size, slots[o], store') && Seen(size, slots[o], store') == Seen(size, slots[o], store)
    {
      if slots[o].at.External? {
        assert o in Users(slots, slots[o].at.a);
        assert RecountedAt(store, slots, store', slots[o].at.a);
      }
    }
    forall a | a in store' ensures CountOk(slots, store', a) { assert RecountedAt(store, slots, store', a); }
  }

  /** What copy_name does to the counts, with the new name taken before the old one is dropped. */
  function Repointed(store: map<Addr, Shared>, from: Where, to: Where): map<Addr, Shared>
    requires from.External? ==> from.a in store
    requires to.External? ==> to.a in store
  {
    var taken := if to.External? then Taken(store, to.a) else store;
    if from.External? then Dropped(taken, from.a) else taken
  }

  lemma RepointedCounts(slots: map<Owner, Slot>, store: map<Addr, Shared>, o: Owner, slot: Slot)
    requires o in slots && forall a :: a in store ==> CountOk(slots, store, a)
    requires slots[o].at.External? ==> slots[o].at.a in store
    requires slot.at.External? ==> slot.at.a in store
    ensures Recounted(store, slots[o := slot], Repointed(store, slots[o].at, slot.at))
  {
    hide Users;
    var store', slots' := Repointed(store, slots[o].at, slot.at), slots[o := slot];
    forall a ensures RecountedAt(store, slots', store', a) {
      if a in store { assert CountOk(slots, store, a); }
      UsersAfter(slots, o, slot, a);
    }
  }

  /** A slot filled in by somebody new. */
  lemma NewSlotCounts(slots: map<Owner, Slot>, store: map<Addr, Shared>, o: Owner, slot: Slot)
    requires o !in slots && forall a :: a in store ==> CountOk(slots, store, a)
    requires slot.at.External? ==> slot.at.a in store
    ensures Recounted(store, slots[o := slot], Repointed(store, Inline, slot.at))
  {
    hide Users;
    var store', slots' := Repointed(store, Inline, slot.at), slots[o := slot];
    forall a ensures RecountedAt(store, slots', store', a) {
      if a in store { assert CountOk(slots, store, a); }
      UsersAfter(slots, o, slot, a);
    }
  }

  /** Nobody pointed to memory that was not there. */
  lemma AllocatedCounts(size: nat, slots: map<Owner, Slot>, store: map<Addr, Shared>, o: Owner, slot: Slot,
                        store': map<Addr, Shared>)
    requires NamesOk(size, slots, store) && o !in slots
    requires
      || (slot.at.Inline? && store' == store)
      || (slot.at.External? && slot.at.a !in store && slot.at.a in store'
          && store' == store[slot.at.a := Shared(1, store'[slot.at.a].bytes)])
    ensures forall a :: a in store' ==> CountOk(slots[o := slot], store', a)
  {
    forall a | a in store' ensures CountOk(slots[o := slot], store', a) {
      if a in store { assert CountOk(slots, store, a); } else { assert Users(slots, a) == {}; }
      UsersAfter(slots, o, slot, a);
    }
  }

  lemma ReleasedCounts(slots: map<Owner, Slot>, store: map<Addr, Shared>, o: Owner)
    requires o in slots && forall a :: a in store ==> CountOk(slots, store, a)
    requires slots[o].at.External? ==> slots[o].at.a in store
    ensures Recounted(store, slots - {o}, Repointed(store, slots[o].at, Inline))
  {
    hide Users;
    var store', slots' := Repointed(store, slots[o].at, Inline), slots - {o};
    forall a ensures RecountedAt(store, slots', store', a) {
      if a in store { assert CountOk(slots, store, a); }
      UsersWithout(slots, o, a);
    }
  }

  class Names {
    const size: nat                     // DNAME_INLINE_LEN
    var slots: map<Owner, Slot>
    var store: map<Addr, Shared>

    ghost predicate Valid() reads this { NamesOk(size, slots, store) }

    ghost function SeenBy(o: Owner): Name
      requires o in slots && SlotOk(size, slots[o], store)
      reads this
    {
      Seen(size, slots[o], store)
    }

    method TakeShared(a: Addr)
      requires a in store
      modifies this`store
      ensures store == Taken(old(store), a)
      ensures store.Keys == old(store).Keys
    {
      store := store[a := store[a].(count := store[a].count + 1)];
    }

    method PutShared(a: Addr)
      requires a in store
      modifies this`store
      ensures store == Dropped(old(store), a)
    {
      ghost var was := store;
      store := store[a := store[a].(count := store[a].count - 1)];
      if store[a].count == 0 { store := store - {a}; }
      assert was[a].count == 1 ==> store == was - {a};
    }

    /** The naming part of __d_alloc: a long name gets memory outside, at addr, a short one fits in the dentry. */
    method AllocName(dentry: Owner, text: seq<Byte>, hash: nat, addr: Addr, unset: seq<Byte>)
      requires Valid() && dentry !in slots && addr !in store && |unset| == size
      modifies this`slots, this`store
      ensures Valid() && slots.Keys == old(slots).Keys + {dentry} && SeenBy(dentry) == Name(text, hash)
      ensures slots[dentry].at == if |text| > size - 1 then External(addr) else Inline
      ensures store == if |text| > size - 1 then old(store)[addr := Shared(1, text + [0])] else old(store)
      ensures forall o :: o in old(slots) ==> slots[o] == old(slots)[o] && SeenBy(o) == old(SeenBy(o))
    {
      hide CountOk, Users, SlotOk, Seen, Tailed;
      ghost var was, before := slots, store;
      var s, store' := AllocSlot(size, text, hash, addr, unset, store);
      AllocatedCounts(size, was, before, dentry, s, store');
      StoreGrows(size, was, before, store');
      slots, store := slots[dentry := s], store';
    }

    /** take_dentry_name_snapshot: it sees what the dentry's readers see, and shares the name if it is a shared one. */
    method TakeSnapshot(snapshot: Owner, dentry: Owner, unset: seq<Byte>)
      requires Valid() && dentry in slots && snapshot !in slots && snapshot.Snapshot? && |unset| == size
      modifies this`slots, this`store
      ensures Valid() && slots.Keys == old(slots).Keys + {snapshot}
      ensures SeenBy(snapshot) == old(SeenBy(dentry)) && slots[snapshot].at == slots[dentry].at
      ensures forall o :: o in old(slots) ==> slots[o] == old(slots)[o] && SeenBy(o) == old(SeenBy(o))
    {
      hide CountOk, Recounted, Seen, Taken, Dropped, Users, SlotOk, Tailed;
      var t := slots[dentry];
      InStore(size, t, store);
      ghost var was, before := slots, store;
      var s := CopySlot(size, Slot(Inline, 0, 0, unset), t, store);
      NewSlotCounts(was, before, snapshot, s);
      slots := slots[snapshot := s];
      if t.at.External? { TakeShared(t.at.a); }
      RecountedOk(size, slots, before, store);
    }

    /** dentry_free and release_dentry_name_snapshot: a shared name goes with the last of its users. */
    method Release(owner: Owner)
      requires Valid() && owner in slots
      modifies this`slots, this`store
      ensures Valid() && slots == old(slots) - {owner}
      ensures forall o :: o in slots ==> SeenBy(o) == old(SeenBy(o))
      ensures forall a :: a in old(store) && a !in store ==>
          old(slots)[owner].at == External(a) && Users(slots, a) == {}
    {
      hide CountOk, Recounted, Seen, Taken, Users, SlotOk, Tailed;
      var at := slots[owner].at;
      InStore(size, slots[owner], store);
      ghost var was, before := slots, store;
      ReleasedCounts(was, before, owner);
      slots := slots - {owner};
      if at.External? { PutShared(at.a); }
      RecountedOk(size, slots, before, store);
      GoneUnused(before, slots, store);
    }

    /** swap_names: the two trade what is seen, and no reference changes hands but with the name. */
    method SwapNames(dentry: Owner, target: Owner)
      requires Valid() && dentry in slots && target in slots && dentry != target && dentry.Dentry? && target.Dentry?
      modifies this`slots
      ensures Valid() && slots.Keys == old(slots).Keys
      ensures SeenBy(dentry) == old(SeenBy(target)) && SeenBy(target) == old(SeenBy(dentry))
      ensures slots[dentry].at == old(slots)[target].at && slots[target].at == old(slots)[dentry].at
      ensures forall o :: o in slots && o != dentry && o != target ==> slots[o] == old(slots)[o]
    {
      hide SlotOk, CountOk, Seen, Tailed;
      var d, t := SwapSlots(size, slots[dentry], slots[target], store);
      TradeCounts(slots, dentry, target, d, t, store);
      slots := slots[dentry := d][target := t];
    }

    /** copy_name: dentry is seen with the target's name; its old one, if it was shared, loses a reference. */
    method CopyName(dentry: Owner, target: Owner)
      requires Valid() && dentry in slots && target in slots && dentry != target && dentry.Dentry? && target.Dentry?
      modifies this`slots, this`store
      ensures Valid() && slots.Keys == old(slots).Keys
      ensures SeenBy(dentry) == old(SeenBy(target)) && slots[dentry].at == slots[target].at
      ensures forall o :: o in slots && o != dentry ==> slots[o] == old(slots)[o] && SeenBy(o) == old(SeenBy(o))
    {
      hide CountOk, Recounted, Seen, Taken, Dropped, Users, SlotOk, Tailed;
      var t := slots[target];
      InStore(size, t, store);
      InStore(size, slots[dentry], store);
      var oldAt := slots[dentry].at;
      ghost var was, before := slots, store;
      var d := CopySlot(size, slots[dentry], t, store);
      RepointedCounts(was, before, dentry, d);
      slots := slots[dentry := d];
      if t.at.External? { TakeShared(t.at.a); }
      if oldAt.External? { PutShared(oldAt.a); }
      RecountedOk(size, slots, before, store);
    }
  }

  lemma GoneUnused(store: map<Addr, Shared>, slots: map<Owner, Slot>, store': map<Addr, Shared>)
    requires Recounted(store, slots, store')
    ensures forall a :: a in store && a !in store' ==> Users(slots, a) == {}
  {
    forall a | a in store && a !in store' ensures Users(slots, a) == {} { assert RecountedAt(store, slots, store', a); }
  }

  lemma InStore(size: nat, slot: Slot, store: map<Addr, Shared>)
    requires SlotOk(size, slot, store)
    ensures |slot.buf| == size && (slot.at.External? ==> slot.at.a in store)
  {
  }

  /** dentry with the target's name: a shared one is pointed to, another is copied to dentry's own buffer. */
  method CopySlot(size: nat, dentry: Slot, target: Slot, store: map<Addr, Shared>) returns (d: Slot)
    requires |dentry.buf| == size && SlotOk(size, target, store)
    ensures SlotOk(size, d, store) && d.at == target.at && Seen(size, d, store) == Seen(size, target, store)
    ensures Tailed(dentry) ==> Tailed(d)
  {
    d := dentry;
    if target.at.External? {
      d := d.(at := target.at);
    } else {
      d := d.(buf := Copied(d.buf, target.buf, target.len + 1));
      d := d.(at := Inline);
    }
    d := d.(hash := target.hash, len := target.len);
  }

  method AllocSlot(size: nat, text: seq<Byte>, hash: nat, addr: Addr, unset: seq<Byte>, store: map<Addr, Shared>)
    returns (s: Slot, store': map<Addr, Shared>)
    requires addr !in store && |unset| == size > 0
    ensures SlotOk(size, s, store') && Tailed(s) && Seen(size, s, store') == Name(text, hash)
    ensures s.at == if |text| > size - 1 then External(addr) else Inline
    ensures store' == if s.at.Inline? then store else store[addr := Shared(1, text + [0])]
  {
    var buf := unset[size - 1 := 0];
    if |text| > size - 1 {
      s, store' := Slot(External(addr), hash, |text|, buf), store[addr := Shared(1, text + [0])];
      assert text == (text + [0])[..|text|];
    } else {
      s, store' := Slot(Inline, hash, |text|, Copied(buf, text + [0], |text| + 1)), store;
      assert text == s.buf[..|text|];
    }
  }

  /** New memory changes nothing for those who are there. */
  lemma StoreGrows(size: nat, slots: map<Owner, Slot>, store: map<Addr, Shared>, store': map<Addr, Shared>)
    requires NamesOk(size, slots, store) && forall a :: a in store ==> a in store' && store'[a] == store[a]
    ensures forall o :: o in slots ==>
        SlotOk(size, slots[o], store') && Seen(size, slots[o], store') == Seen(size, slots[o], store)
  {
  }

  /** The four cases of swap_names, by where the two names are. */
  method SwapSlots(size: nat, dentry: Slot, target: Slot, store: map<Addr, Shared>) returns (d: Slot, t: Slot)
    requires SlotOk(size, dentry, store) && SlotOk(size, target, store)
    ensures SlotOk(size, d, store) && SlotOk(size, t, store)
    ensures Seen(size, d, store) == Seen(size, target, store) && Seen(size, t, store) == Seen(size, dentry, store)
    ensures d.at == target.at && t.at == dentry.at
    ensures Tailed(dentry) && Tailed(target) ==> Tailed(d) && Tailed(t)
  {
    d, t := dentry, target;
    if t.at.External? {
      if d.at.External? {
        d, t := d.(at := t.at), t.(at := d.at);
      } else {
        t := t.(buf := Copied(t.buf, d.buf, d.len + 1));
        d := d.(at := t.at);
        t := t.(at := Inline);
      }
    } else {
      if d.at.External? {
        d := d.(buf := Copied(d.buf, t.buf, t.len + 1));
        t := t.(at := d.at);
        d := d.(at := Inline);
      } else {
        d, t := d.(buf := t.buf), t.(buf := d.buf);
      }
    }
    d, t := d.(hash := t.hash, len := t.len), t.(hash := d.hash, len := d.len);
  }

  /** When two owners trade what they point to, nobody's count changes. */
  lemma TradeCounts(slots: map<Owner, Slot>, o: Owner, p: Owner, d: Slot, t: Slot, store: map<Addr, Shared>)
    requires o in slots && p in slots && o != p && d.at == slots[p].at && t.at == slots[o].at
    requires forall a :: a in store ==> CountOk(slots, store, a)
    ensures forall a :: a in store ==> CountOk(slots[o := d][p := t], store, a)
  {
    forall a | a in store ensures CountOk(slots[o := d][p := t], store, a) {
      assert CountOk(slots, store, a);
      UsersAfter(slots, o, d, a);
      UsersAfter(slots[o := d], p, t, a);
    }
  }
}
