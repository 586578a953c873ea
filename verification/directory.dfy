/** Directories: a block of 128 slots, used slots first (inode.c). */
module Directories {

  const MAX_SUBFILES: nat := 128
  const FILENAME_LEN: nat := 28

  /** One struct ouichefs_file; the file name up to its NUL. */
  datatype Slot = Slot(inode: nat, name: string)

  const FREE := Slot(0, "")

  datatype Status = Ok | Enametoolong | Emlink | Eexist | Enotempty | Enospc | Einval
    | OutOfBounds      // the unbounded loop at line 484 read past the block

  /** What strscpy keeps of a name in a 28-byte field. */
  function StrScpy(name: string): (stored: string)
    ensures stored <= name && |stored| == if |name| <= 27 then |name| else 27
  {
    if |name| < FILENAME_LEN then name else name[..FILENAME_LEN - 1]
  }

  function First28(s: string): string { if |s| <= FILENAME_LEN then s else s[..FILENAME_LEN] }

  /** strncmp over 28 bytes gives 0. */
  predicate SameName(a: string, b: string) { First28(a) == First28(b) }

  /** Two names pass for the same if they are, or if both begin with the same 28 characters. */
  lemma SameNameIs(a: string, b: string)
    ensures SameName(a, b) <==>
      (a == b || (|a| >= FILENAME_LEN && |b| >= FILENAME_LEN && forall i :: 0 <= i < FILENAME_LEN ==> a[i] == b[i]))
  {
    assert forall i :: 0 <= i < |First28(a)| ==> First28(a)[i] == a[i];
    assert forall i :: 0 <= i < |First28(b)| ==> First28(b)[i] == b[i];
    if |a| >= FILENAME_LEN && |b| >= FILENAME_LEN && (forall i :: 0 <= i < FILENAME_LEN ==> a[i] == b[i]) {
      assert a[..FILENAME_LEN] == b[..FILENAME_LEN];
    }
  }

  /** Names as they can stand in a slot: not empty, and with room for the NUL. */
  predicate Storable(name: string) { 0 < |name| < FILENAME_LEN }

  /** The entries of a directory block: the slots before the first free one. */
  function Used(files: seq<Slot>): (u: seq<Slot>)
    ensures |u| <= |files| && u == files[..|u|]
    ensures forall i :: 0 <= i < |u| ==> u[i].inode != 0
    ensures |u| < |files| ==> files[|u|].inode == 0
  {
    if files == [] || files[0].inode == 0 then [] else [files[0]] + Used(files[1..])
  }

  /** Used slots first, and nothing behind them. */
  predicate Packed(files: seq<Slot>) {
    |files| == MAX_SUBFILES && forall i :: |Used(files)| <= i < |files| ==> files[i] == FREE
  }

  predicate ListOk(es: seq<Slot>) {
    && (forall i :: 0 <= i < |es| ==> es[i].inode != 0 && Storable(es[i].name))
    && (forall i, j :: 0 <= i < j < |es| ==> es[i].name != es[j].name && es[i].inode != es[j].inode)
  }

  predicate HasName(es: seq<Slot>, name: string) { exists i :: 0 <= i < |es| && es[i].name == name }

  predicate HasInode(es: seq<Slot>, ino: nat) { exists i :: 0 <= i < |es| && es[i].inode == ino }

  /** es without its entry for ino. */
  function Without(es: seq<Slot>, ino: nat): seq<Slot> {
    if es == [] then [] else if es[0].inode == ino then es[1..] else [es[0]] + Without(es[1..], ino)
  }

  function SubDirs(es: seq<Slot>, dirs: set<nat>): nat {
    if es == [] then 0 else (if es[0].inode in dirs then 1 else 0) + SubDirs(es[1..], dirs)
  }

  lemma {:induction false} UsedIs(files: seq<Slot>, n: nat)
    requires n <= |files| && (forall i :: 0 <= i < n ==> files[i].inode != 0) && (n < |files| ==> files[n].inode == 0)
    ensures Used(files) == files[..n]
  {
    if n > 0 { UsedIs(files[1..], n - 1); }
  }

  lemma {:induction false} WithoutIs(es: seq<Slot>, k: nat, ino: nat)
    requires k < |es| && es[k].inode == ino && forall i :: 0 <= i < k ==> es[i].inode != ino
    ensures Without(es, ino) == es[..k] + es[k + 1..]
  {
    if k == 0 {
      assert es[..0] + es[1..] == es[1..];
    } else {
      var rest := es[1..];
      assert rest[k - 1] == es[k] && forall i :: 0 <= i < k - 1 ==> rest[i] == es[i + 1];
      WithoutIs(rest, k - 1, ino);
      assert [es[0]] + (rest[..k - 1] + rest[k..]) == es[..k] + es[k + 1..];
    }
  }

  lemma {:induction false} SubDirsConcat(a: seq<Slot>, b: seq<Slot>, dirs: set<nat>)
    ensures SubDirs(a + b, dirs) == SubDirs(a, dirs) + SubDirs(b, dirs)
  {
    if a == [] {
      assert a + b == b;
    } else {
      assert (a + b)[1..] == a[1..] + b;
      SubDirsConcat(a[1..], b, dirs);
    }
  }

  lemma {:induction false} SubDirsSame(es: seq<Slot>, dirs: set<nat>, ino: nat)
    requires !HasInode(es, ino)
    ensures SubDirs(es, dirs + {ino}) == SubDirs(es, dirs) == SubDirs(es, dirs - {ino})
  {
    if es != [] {
      assert es[0].inode != ino;
      forall i | 0 <= i < |es[1..]| ensures es[1..][i].inode != ino { assert es[1..][i] == es[i + 1]; }
      SubDirsSame(es[1..], dirs, ino);
    }
  }

  lemma {:induction false} SubDirsWithout(es: seq<Slot>, dirs: set<nat>, ino: nat)
    requires HasInode(es, ino)
    ensures SubDirs(Without(es, ino), dirs) == SubDirs(es, dirs) - if ino in dirs then 1 else 0
  {
    if es[0].inode != ino {
      var i :| 0 <= i < |es| && es[i].inode == ino;
      assert es[1..][i - 1].inode == ino;
      SubDirsWithout(es[1..], dirs, ino);
      assert ([es[0]] + Without(es[1..], ino))[1..] == Without(es[1..], ino);
    }
  }

  class Directory {
    const files: array<Slot>
    var nlink: int

    constructor ()
      ensures fresh(files) && Valid() && Entries() == [] && nlink == 2
    {
      files := new Slot[MAX_SUBFILES](_ => FREE);
      nlink := 2;
      new;
      UsedIs(files[..], 0);
    }

    ghost predicate Valid()
      reads this, files
    {
      Packed(files[..]) && ListOk(Entries())
    }

    ghost function Entries(): seq<Slot>
      reads this, files
    {
      Used(files[..])
    }

    /** The link count is two more than the number of subdirectories. */
    ghost predicate LinksOk(dirs: set<nat>)
      reads this, files
    {
      nlink == 2 + SubDirs(Entries(), dirs)
    }

    /** ouichefs_lookup; 0 when the name is not there. */
    method Lookup(name: string) returns (status: Status, ino: nat)
      requires Valid()
      ensures status == if |name| > FILENAME_LEN then Enametoolong else Ok
      ensures status == Ok ==>
                if HasName(Entries(), name) then exists k :: 0 <= k < |Entries()| && Entries()[k] == Slot(ino, name)
                else ino == 0
    {
      if |name| > FILENAME_LEN { return Enametoolong, 0; }
      var i := 0;
      ghost var es := Entries();
      while i < MAX_SUBFILES
        invariant 0 <= i <= |es| && forall k :: 0 <= k < i ==> es[k].name != name
      {
        if files[i].inode == 0 { break; }
        assert files[..][i] == es[i];
        if SameName(files[i].name, name) {
          assert es[i] == Slot(files[i].inode, name);
          return Ok, files[i].inode;
        }
        i := i + 1;
      }
      return Ok, 0;
    }

    /** The first free slot; 128 when there is none. */
    method FirstSlot() returns (i: nat)
      requires Packed(files[..])
      ensures i == |Entries()|
    {
      i := 0;
      while i < MAX_SUBFILES
        invariant 0 <= i <= |Entries()|
      {
        assert files[..][i] == files[i];
        if files[i].inode == 0 { break; }
        i := i + 1;
      }
    }

    /** A new entry in the first free slot i, and one link more if it is a directory. */
    method PutSlot(i: nat, slot: Slot, isDir: bool)
      requires Valid() && i == |Entries()| < MAX_SUBFILES && slot.inode != 0
      requires Storable(slot.name) && !HasInode(Entries(), slot.inode)
      modifies this`nlink, files
      ensures Packed(files[..]) && Entries() == old(Entries()) + [slot]
      ensures Valid() <==> !HasName(old(Entries()), slot.name)
      ensures nlink == old(nlink) + if isDir then 1 else 0
    {
      AppendSlot(files[..], slot);
      assert files[..][i := slot] == files[..][|Entries()| := slot];
      files[i] := slot;
      if isDir { nlink := nlink + 1; }
    }

    /** The tests before ouichefs_new_inode. */
    method CreateTest(name: string) returns (status: Status)
      requires Valid()
      ensures status == if |name| > FILENAME_LEN then Enametoolong
                        else if |Entries()| == MAX_SUBFILES then Emlink else Ok
      ensures |Entries()| <= MAX_SUBFILES
    {
      if |name| > FILENAME_LEN { return Enametoolong; }
      ghost var was := files[..];
      assert was[MAX_SUBFILES - 1] == files[MAX_SUBFILES - 1];
      if files[MAX_SUBFILES - 1].inode != 0 { return Emlink; }
      return Ok;
    }

    /** What create does to the parent directory after ouichefs_new_inode has given inode ino. */
    method Register(name: string, ino: nat, isDir: bool, ghost dirs: set<nat>)
      requires Valid() && 0 < |name| <= FILENAME_LEN && |Entries()| < MAX_SUBFILES
      requires ino != 0 && !HasInode(Entries(), ino) && LinksOk(dirs) && ino !in dirs
      modifies this`nlink, files
      ensures Packed(files[..]) && Entries() == old(Entries()) + [Slot(ino, StrScpy(name))]
      ensures Valid() <==> !HasName(old(Entries()), StrScpy(name))
      ensures LinksOk(if isDir then dirs + {ino} else dirs)
    {
      ghost var es := Entries();
      var i := FirstSlot();
      PutSlot(i, Slot(ino, StrScpy(name)), isDir);
      SubDirsAppended(es, Slot(ino, StrScpy(name)), dirs);
    }

    /** ouichefs_create or ouichefs_mkdir, once ouichefs_new_inode has given inode ino; the name is not there.
        Names stay distinct precisely when no entry has what strscpy keeps of the new one. */
    method Create(name: string, ino: nat, isDir: bool, ghost dirs: set<nat>) returns (status: Status)
      requires Valid() && name != "" && ino != 0 && !HasInode(Entries(), ino) && !HasName(Entries(), name)
      requires LinksOk(dirs) && ino !in dirs
      modifies this`nlink, files
      ensures status == if |name| > FILENAME_LEN then Enametoolong
                        else if |old(Entries())| == MAX_SUBFILES then Emlink else Ok
      ensures Packed(files[..])
      ensures Entries() == old(Entries()) + if status == Ok then [Slot(ino, StrScpy(name))] else []
      ensures Valid() <==> status != Ok || !HasName(old(Entries()), StrScpy(name))
      ensures LinksOk(if status == Ok && isDir then dirs + {ino} else dirs)
    {
      status := CreateTest(name);
      if status == Ok { Register(name, ino, isDir, dirs); }
    }

    /** The loop of unlink over the slots: the place of ino, and the number of used slots. */
    method Search(ino: nat) returns (k: nat, n: nat)
      requires Valid() && HasInode(Entries(), ino)
      ensures n == |Entries()| && k < n && Entries()[k].inode == ino
    {
      var fId, i := -1, 0;
      ghost var es := Entries();
      while i < MAX_SUBFILES
        invariant 0 <= i <= |es|
        invariant if fId < 0 then forall m :: 0 <= m < i ==> es[m].inode != ino else fId < i && es[fId].inode == ino
      {
        assert i < |es| ==> files[..][i] == es[i];
        if files[i].inode == ino {
          fId := i;
        } else if files[i].inode == 0 {
          break;
        }
        i := i + 1;
      }
      k, n := fId, i;
    }

    /** memmove of the slots after k, and the last used one cleared (lines 338 to 341). */
    method CloseGap(k: nat, n: nat)
      requires k < n <= MAX_SUBFILES == files.Length
      modifies files
      ensures files[..k] == old(files[..k]) && files[k..n - 1] == old(files[k + 1..n])
      ensures files[n - 1] == FREE && files[n..] == old(files[n..])
    {
      ghost var was := files[..];
      if k != MAX_SUBFILES - 1 {
        forall m | k <= m < n - 1 { files[m] := files[m + 1]; }
      }
      assert files[..k] == was[..k] && files[k..n - 1] == was[k + 1..n] && files[n..] == was[n..];
      files[n - 1] := FREE;
    }

    method RemoveSlot(k: nat, n: nat, ghost dirs: set<nat>)
      requires Valid() && k < n == |Entries()|
      modifies files
      ensures Valid() && Entries() == Without(old(Entries()), old(Entries())[k].inode)
      ensures SubDirs(Entries(), dirs) ==
                SubDirs(old(Entries()), dirs) - if old(Entries())[k].inode in dirs then 1 else 0
    {
      ghost var was, es := files[..], Entries();
      CloseGap(k, n);
      WithoutIs(es, k, es[k].inode);
      SubDirsWithout(es, dirs, es[k].inode);
      assert files[..][k..n - 1] == was[k + 1..n];
      RemovedSlot(was, files[..], k, n);
    }

    /** ouichefs_unlink, as far as the directory goes; the caller names an inode that is there. */
    method Unlink(ino: nat, isDir: bool, ghost dirs: set<nat>)
      requires Valid() && HasInode(Entries(), ino) && LinksOk(dirs) && (isDir <==> ino in dirs)
      modifies this`nlink, files
      ensures Valid() && Entries() == Without(old(Entries()), ino)
      ensures LinksOk(dirs - {ino})
    {
      ghost var es := Entries();
      var k, n := Search(ino);
      RemoveSlot(k, n, dirs);
      if isDir { nlink := nlink - 1; }
      WithoutHasNot(es, ino);
      SubDirsSame(Entries(), dirs, ino);
    }

    /** The two tests of ouichefs_rmdir on the directory to go; together they tell exactly whether it is empty. */
    method RmdirTest(ghost dirs: set<nat>) returns (status: Status)
      requires Valid() && LinksOk(dirs)
      ensures status == if Entries() == [] then Ok else Enotempty
    {
      if nlink > 2 { return Enotempty; }
      if files[0].inode != 0 { return Enotempty; }
      return Ok;
    }
  }

  lemma SubDirsAppended(es: seq<Slot>, slot: Slot, dirs: set<nat>)
    requires !HasInode(es, slot.inode) && slot.inode !in dirs
    ensures SubDirs(es + [slot], dirs) == SubDirs(es, dirs)
    ensures SubDirs(es + [slot], dirs + {slot.inode}) == SubDirs(es, dirs) + 1
  {
    SubDirsConcat(es, [slot], dirs);
    SubDirsConcat(es, [slot], dirs + {slot.inode});
    SubDirsSame(es, dirs, slot.inode);
    assert [slot][1..] == [];
  }

  lemma ListWithout(es: seq<Slot>, k: nat)
    requires ListOk(es) && k < |es|
    ensures ListOk(es[..k] + es[k + 1..])
  {
    var es' := es[..k] + es[k + 1..];
    assert forall i :: 0 <= i < |es'| ==> es'[i] == es[if i < k then i else i + 1];
  }

  lemma RemovedSlot(was: seq<Slot>, now: seq<Slot>, k: nat, n: nat)
    requires Packed(was) && ListOk(Used(was)) && k < n == |Used(was)| && |now| == |was|
    requires now[..k] == was[..k] && now[k..n - 1] == was[k + 1..n] && now[n - 1] == FREE && now[n..] == was[n..]
    ensures Packed(now) && Used(now) == Used(was)[..k] + Used(was)[k + 1..] && ListOk(Used(now))
  {
    hide ListOk;
    var es := Used(was);
    var es' := es[..k] + es[k + 1..];
    assert now[..n - 1] == now[..k] + now[k..n - 1] == es';
    ListWithout(es, k);
    forall i | 0 <= i < n - 1 ensures now[i].inode != 0 {
      assert now[i] == es'[i] == es[if i < k then i else i + 1];
    }
    UsedIs(now, n - 1);
    forall i | n - 1 <= i < |now| ensures now[i] == FREE {
      if i >= n { assert now[i] == now[n..][i - n] == was[n..][i - n] == was[i]; }
    }
  }

  lemma {:induction false} WithoutHasNot(es: seq<Slot>, ino: nat)
    requires forall i, j :: 0 <= i < j < |es| ==> es[i].inode != es[j].inode
    ensures !HasInode(Without(es, ino), ino)
  {
    if es != [] && es[0].inode != ino {
      WithoutHasNot(es[1..], ino);
      var rest := Without(es[1..], ino);
      forall i | 0 <= i < |[es[0]] + rest| ensures ([es[0]] + rest)[i].inode != ino {
        if i > 0 { assert ([es[0]] + rest)[i] == rest[i - 1]; }
      }
    }
  }

  lemma AppendSlot(files: seq<Slot>, slot: Slot)
    requires Packed(files) && ListOk(Used(files)) && |Used(files)| < |files| && slot.inode != 0 && Storable(slot.name)
    requires !HasInode(Used(files), slot.inode)
    ensures Packed(files[|Used(files)| := slot]) && Used(files[|Used(files)| := slot]) == Used(files) + [slot]
    ensures ListOk(Used(files) + [slot]) <==> !HasName(Used(files), slot.name)
  {
    var n := |Used(files)|;
    var files' := files[n := slot];
    assert n + 1 < |files'| ==> files'[n + 1] == FREE;
    UsedIs(files', n + 1);
    assert files'[..n + 1] == files[..n] + [slot];
    ListAppended(Used(files), slot);
  }

  lemma ListAppended(es: seq<Slot>, slot: Slot)
    requires ListOk(es) && slot.inode != 0 && Storable(slot.name) && !HasInode(es, slot.inode)
    ensures ListOk(es + [slot]) <==> !HasName(es, slot.name)
  {
    var es' := es + [slot];
    if HasName(es, slot.name) {
      var i :| 0 <= i < |es| && es[i].name == slot.name;
      assert es'[i].name == es'[|es|].name;
    }
  }

  /** What create stored is what lookup then finds, precisely for names of at most 27 bytes; create takes 28. */
  lemma StoredNameIsFound(es: seq<Slot>, name: string, ino: nat)
    requires ListOk(es) && 0 < |name| <= FILENAME_LEN && !HasName(es, name)
    ensures HasName(es + [Slot(ino, StrScpy(name))], name) <==> |name| < FILENAME_LEN
  {
    var es' := es + [Slot(ino, StrScpy(name))];
    if |name| < FILENAME_LEN { assert es'[|es|].name == name; }
  }
}
