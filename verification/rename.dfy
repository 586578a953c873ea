/** ouichefs_rename: in place within one directory, or from one directory to another. */
module Rename {
  import opened Directories

  /** es with the name of entry k replaced. */
  function Renamed(es: seq<Slot>, k: nat, name: string): seq<Slot>
    requires k < |es|
  {
    es[k := Slot(es[k].inode, name)]
  }

  /** No entry but k, perhaps, has the name. */
  predicate OnlyHere(es: seq<Slot>, k: nat, name: string) { forall i :: 0 <= i < |es| && i != k ==> es[i].name != name }

  lemma RenamedSlot(files: seq<Slot>, k: nat, name: string)
    requires Packed(files) && ListOk(Used(files)) && k < |Used(files)| && Storable(name)
    ensures var files' := files[k := Slot(files[k].inode, name)];
            Packed(files') && Used(files') == Renamed(Used(files), k, name)
    ensures ListOk(Renamed(Used(files), k, name)) <==> OnlyHere(Used(files), k, name)
  {
    hide ListOk, OnlyHere;
    var es, files' := Used(files), files[k := Slot(files[k].inode, name)];
    assert files[k] == es[k];
    UsedInode(es, k);
    UsedIs(files', |es|);
    ListRenamed(es, k, name);
  }

  lemma UsedInode(es: seq<Slot>, k: nat)
    requires ListOk(es) && k < |es|
    ensures es[k].inode != 0
  {
  }

  lemma ListRenamed(es: seq<Slot>, k: nat, name: string)
    requires ListOk(es) && k < |es| && Storable(name)
    ensures ListOk(Renamed(es, k, name)) <==> OnlyHere(es, k, name)
  {
    var es' := Renamed(es, k, name);
    if i :| 0 <= i < |es| && i != k && es[i].name == name {
      assert es'[i].name == es'[k].name;
    }
  }

  lemma {:induction false} RenamedSubDirs(es: seq<Slot>, k: nat, name: string, dirs: set<nat>)
    requires k < |es|
    ensures SubDirs(Renamed(es, k, name), dirs) == SubDirs(es, dirs)
  {
    if k > 0 {
      assert Renamed(es, k, name)[1..] == Renamed(es[1..], k - 1, name);
      RenamedSubDirs(es[1..], k - 1, name, dirs);
    } else {
      assert Renamed(es, k, name)[1..] == es[1..];
    }
  }

  /** The loop of lines 432 to 448: the place of the old name, -1 if no slot has it, unless the new one is there. */
  method FindBoth(d: Directory, oldName: string, newName: string) returns (exists_: bool, fPos: int)
    requires d.Valid() && oldName != "" && 0 < |newName| <= FILENAME_LEN
    ensures exists_ <==> HasName(d.Entries(), newName)
    ensures !exists_ && HasName(d.Entries(), oldName) ==> 0 <= fPos < |d.Entries()| && d.Entries()[fPos].name == oldName
    ensures !exists_ && !HasName(d.Entries(), oldName) ==> fPos == -1
  {
    var i := 0;
    fPos := -1;
    ghost var was, es := d.files[..], d.Entries();
    while i < MAX_SUBFILES
      invariant 0 <= i <= MAX_SUBFILES
      invariant if fPos < 0 then fPos == -1 && forall m :: 0 <= m < i && m < |es| ==> es[m].name != oldName
                else fPos < |es| && es[fPos].name == oldName
      invariant forall m :: 0 <= m < i && m < |es| ==> es[m].name != newName
    {
      assert was[i] == d.files[i] && (i < |es| ==> was[i] == es[i]) && (i >= |es| ==> was[i] == FREE);
      if SameName(d.files[i].name, oldName) { fPos := i; }
      if SameName(d.files[i].name, newName) { return true, fPos; }
      i := i + 1;
    }
    return false, fPos;
  }

  /** Lines 432 to 456 with old_dir == new_dir. When no slot has the old name the new one is written to files[-1]. */
  method RenameWithin(d: Directory, oldName: string, newName: string, ghost dirs: set<nat>)
    returns (status: Status, ghost k: nat)
    requires d.Valid() && oldName != "" && newName != "" && d.LinksOk(dirs)
    modifies d.files
    ensures status == if |newName| > FILENAME_LEN then Enametoolong
                      else if HasName(old(d.Entries()), newName) then Eexist
                      else if HasName(old(d.Entries()), oldName) then Ok
                      else OutOfBounds
    ensures Packed(d.files[..]) && d.LinksOk(dirs)
    ensures status == Ok ==> k < |old(d.Entries())| && old(d.Entries())[k].name == oldName
    ensures d.Entries() == if status == Ok then Renamed(old(d.Entries()), k, StrScpy(newName)) else old(d.Entries())
    ensures d.Valid() <==> status != Ok || OnlyHere(old(d.Entries()), k, StrScpy(newName))
  {
    hide ListOk, HasName, SubDirs, Renamed, OnlyHere;
    k := 0;
    if |newName| > FILENAME_LEN { return Enametoolong, 0; }
    ghost var was, es := d.files[..], d.Entries();
    var exists_, fPos := FindBoth(d, oldName, newName);
    if exists_ { return Eexist, 0; }
    if fPos < 0 { return OutOfBounds, 0; }
    k := fPos;
    RenamedSlot(was, k, StrScpy(newName));
    RenamedSubDirs(es, k, StrScpy(newName), dirs);
    d.files[fPos] := Slot(d.files[fPos].inode, StrScpy(newName));
    assert d.files[..] == was[k := Slot(was[k].inode, StrScpy(newName))];
    return Ok, k;
  }

  /** Renaming a file in its directory right after it was created: for a name of 28 characters, and for no other that
      create takes, the loop finds no slot. */
  method CreateThenRename(d: Directory, name: string, ino: nat, isDir: bool, newName: string, ghost dirs: set<nat>)
    returns (status: Status)
    requires d.Valid() && name != "" && ino != 0 && !HasInode(d.Entries(), ino) && d.LinksOk(dirs) && ino !in dirs
    requires !HasName(d.Entries(), name) && !HasName(d.Entries(), StrScpy(name))
    requires 0 < |newName| <= FILENAME_LEN && newName != StrScpy(name) && !HasName(d.Entries(), newName)
    requires |name| <= FILENAME_LEN && |d.Entries()| < MAX_SUBFILES
    modifies d`nlink, d.files
    ensures status == if |name| == FILENAME_LEN then OutOfBounds else Ok
  {
    ghost var es := d.Entries();
    var created := d.Create(name, ino, isDir, dirs);
    assert d.Entries() == es + [Slot(ino, StrScpy(name))];
    AppendedNames(es, Slot(ino, StrScpy(name)), newName);
    AppendedNames(es, Slot(ino, StrScpy(name)), name);
    ghost var k;
    status, k := RenameWithin(d, name, newName, if isDir then dirs + {ino} else dirs);
  }

  lemma AppendedNames(es: seq<Slot>, slot: Slot, name: string)
    ensures HasName(es + [slot], name) <==> HasName(es, name) || slot.name == name
  {
    assert (es + [slot])[|es|] == slot;
    if i :| 0 <= i < |es| && es[i].name == name { assert (es + [slot])[i].name == name; }
  }

  /** Lines 432 to 456 on the new directory: its first free slot, unless the name is there. */
  method FindRoom(d: Directory, newName: string) returns (exists_: bool, newPos: int)
    requires d.Valid() && 0 < |newName| <= FILENAME_LEN
    ensures exists_ <==> HasName(d.Entries(), newName)
    ensures newPos < MAX_SUBFILES
    ensures !exists_ ==> newPos == if |d.Entries()| == MAX_SUBFILES then -1 else |d.Entries()|
  {
    newPos := -1;
    var i := 0;
    ghost var was, es := d.files[..], d.Entries();
    while i < MAX_SUBFILES
      invariant 0 <= i <= MAX_SUBFILES
      invariant forall m :: 0 <= m < i && m < |es| ==> es[m].name != newName
      invariant newPos == if i <= |es| then -1 else |es|
    {
      assert was[i] == d.files[i] && (i < |es| ==> was[i] == es[i]) && (i >= |es| ==> was[i] == FREE);
      if SameName(d.files[i].name, newName) { return true, newPos; }
      if newPos < 0 && d.files[i].inode == 0 { newPos := i; }
      i := i + 1;
    }
    return false, newPos;
  }

  /** The loop at line 484, which has no bound of its own: it leaves the block exactly when no slot is free. */
  method SearchUnbounded(d: Directory, ino: nat) returns (outOfBounds: bool, k: nat, n: nat)
    requires d.Valid() && HasInode(d.Entries(), ino)
    ensures outOfBounds <==> |d.Entries()| == MAX_SUBFILES
    ensures !outOfBounds ==> n == |d.Entries()| && k < n && d.Entries()[k].inode == ino
  {
    var fId, i := -1, 0;
    ghost var was, es := d.files[..], d.Entries();
    outOfBounds, k, n := false, 0, 0;
    while true
      invariant 0 <= i <= |es|
      invariant if fId < 0 then forall m :: 0 <= m < i ==> es[m].inode != ino else fId < i && es[fId].inode == ino
      decreases MAX_SUBFILES - i
    {
      if i == MAX_SUBFILES { return true, 0, 0; }
      assert was[i] == d.files[i] && (i < |es| ==> was[i] == es[i]);
      if d.files[i].inode == ino {
        fId := i;
      } else if d.files[i].inode == 0 {
        break;
      }
      i := i + 1;
    }
    k, n := fId, i;
  }

  /** Lines 478 to 505: out of the old directory, if the search for it stays inside the block. */
  method TakeOut(d: Directory, ino: nat, isDir: bool, ghost dirs: set<nat>) returns (outOfBounds: bool)
    requires d.Valid() && d.LinksOk(dirs) && HasInode(d.Entries(), ino) && (isDir <==> ino in dirs)
    modifies d`nlink, d.files
    ensures outOfBounds <==> |old(d.Entries())| == MAX_SUBFILES
    ensures d.Valid() && d.LinksOk(dirs)
    ensures d.Entries() == if outOfBounds then old(d.Entries()) else Without(old(d.Entries()), ino)
  {
    var outside, k, n := SearchUnbounded(d, ino);
    if outside { return true; }
    d.RemoveSlot(k, n, dirs);
    if isDir { d.nlink := d.nlink - 1; }
    return false;
  }

  /** Renaming to another directory.  It moves the entry and keeps both link counts exact, unless the source
      directory is full: then the entry has been added, and the search for the old one leaves the block. */
  method RenameAcross(src: Directory, dst: Directory, ino: nat, isDir: bool, newName: string, ghost dirs: set<nat>)
    returns (status: Status)
    requires src != dst && src.files != dst.files
    requires src.Valid() && dst.Valid() && src.LinksOk(dirs) && dst.LinksOk(dirs)
    requires HasInode(src.Entries(), ino) && !HasInode(dst.Entries(), ino) && ino != 0 && newName != ""
    requires isDir <==> ino in dirs
    modifies src`nlink, src.files, dst`nlink, dst.files
    ensures status == if |newName| > FILENAME_LEN then Enametoolong
                      else if HasName(old(dst.Entries()), newName) then Eexist
                      else if |old(dst.Entries())| == MAX_SUBFILES then Emlink
                      else if |old(src.Entries())| == MAX_SUBFILES then OutOfBounds
                      else Ok
    ensures dst.Entries() ==
              old(dst.Entries()) + if status in {Ok, OutOfBounds} then [Slot(ino, StrScpy(newName))] else []
    ensures src.Entries() == if status == Ok then Without(old(src.Entries()), ino) else old(src.Entries())
    ensures src.Valid() && src.LinksOk(dirs) && dst.LinksOk(dirs) && Packed(dst.files[..])
    ensures dst.Valid() <==> (status != Ok && status != OutOfBounds) || !HasName(old(dst.Entries()), StrScpy(newName))
  {
    hide ListOk, Packed, Without, SubDirs, HasName, HasInode;
    if |newName| > FILENAME_LEN { return Enametoolong; }
    var exists_, newPos := FindRoom(dst, newName);
    if exists_ { return Eexist; }
    if newPos < 0 { return Emlink; }
    AppendedLinks(dst.Entries(), Slot(ino, StrScpy(newName)), dirs);
    dst.PutSlot(newPos, Slot(ino, StrScpy(newName)), isDir);
    var outOfBounds := TakeOut(src, ino, isDir, dirs);
    return if outOfBounds then OutOfBounds else Ok;
  }

  lemma AppendedLinks(es: seq<Slot>, slot: Slot, dirs: set<nat>)
    ensures SubDirs(es + [slot], dirs) == SubDirs(es, dirs) + if slot.inode in dirs then 1 else 0
  {
    SubDirsConcat(es, [slot], dirs);
    assert [slot][1..] == [];
  }
}
