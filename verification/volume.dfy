/** The mounted volume: blocks on disk and the two in-memory bitmaps with their counters (bitmap.h). */
module Volumes {
  import opened PackedEntry

  newtype byte = x: int | 0 <= x < 256

  type Block = b: seq<byte> | |b| == BLOCK_SIZE witness seq(BLOCK_SIZE, _ => 0)

  /** Free bits (set to 1) below n. */
  function CountFree(bits: seq<bool>, n: nat): nat
    requires n <= |bits|
  {
    if n == 0 then 0 else CountFree(bits, n - 1) + if bits[n - 1] then 1 else 0
  }

  lemma {:induction false} CountFreeUpdate(bits: seq<bool>, n: nat, i: nat, v: bool)
    requires n <= |bits| && i < |bits|
    ensures CountFree(bits[i := v], n)
         == CountFree(bits, n) + if i < n && v && !bits[i] then 1 else if i < n && !v && bits[i] then -1 else 0
  {
    if n > 0 { CountFreeUpdate(bits, n - 1, i, v); }
  }

  lemma {:induction false} CountFreeZero(bits: seq<bool>, n: nat)
    requires n <= |bits|
    ensures CountFree(bits, n) == 0 <==> forall i :: 0 <= i < n ==> !bits[i]
  {
    if n > 0 { CountFreeZero(bits, n - 1); }
  }

  predicate IsFirstFree(bits: seq<bool>, size: nat, i: nat) {
    i < size <= |bits| && bits[i] && forall j :: 0 <= j < i ==> !bits[j]
  }

  /** get_first_free_bit: clears and returns the first free bit; 0 when there is none. */
  method GetFirstFreeBit(freemap: array<bool>, size: nat) returns (bit: nat)
    requires size <= freemap.Length
    modifies freemap
    ensures if exists i :: 0 <= i < size && old(freemap[i])
            then IsFirstFree(old(freemap[..]), size, bit) && freemap[..] == old(freemap[..])[bit := false]
            else bit == 0 && freemap[..] == old(freemap[..])
  {
    var i := 0;
    while i < size && !freemap[i]
      invariant i <= size && forall j :: 0 <= j < i ==> !freemap[j]
    {
      i := i + 1;
    }
    if i == size { return 0; }
    freemap[i] := false;
    return i;
  }

  /** put_free_bit; the guard lets i == size through, which is past the bitmap if that ends there. */
  method PutFreeBit(freemap: array<bool>, size: nat, i: nat) returns (failed: bool, outside: bool)
    requires size <= freemap.Length
    modifies freemap
    ensures failed <==> i > size
    ensures outside <==> i == size == freemap.Length
    ensures freemap[..] == if failed || outside then old(freemap[..]) else old(freemap[..])[i := true]
  {
    if i > size { return true, false; }
    if i == freemap.Length { return false, true; }
    freemap[i] := true;
    return false, false;
  }

  class Volume {
    const nrBlocks: nat
    const nrInodes: nat
    const bfree: array<bool>
    const ifree: array<bool>
    var nrFreeBlocks: int
    var nrFreeInodes: int
    var disk: seq<Block>

    constructor (nrBlocks: nat, nrInodes: nat, bfree: array<bool>, ifree: array<bool>,
                 nrFreeBlocks: int, nrFreeInodes: int, disk: seq<Block>)
      ensures this.nrBlocks == nrBlocks && this.nrInodes == nrInodes && this.bfree == bfree && this.ifree == ifree
      ensures this.nrFreeBlocks == nrFreeBlocks && this.nrFreeInodes == nrFreeInodes && this.disk == disk
    {
      this.nrBlocks, this.nrInodes, this.bfree, this.ifree := nrBlocks, nrInodes, bfree, ifree;
      this.nrFreeBlocks, this.nrFreeInodes, this.disk := nrFreeBlocks, nrFreeInodes, disk;
    }

    /** Bit 0 is never free, and the block counter is exact. */
    ghost predicate BlocksOk()
      reads this, bfree
    {
      && 0 < nrBlocks <= bfree.Length && |disk| == nrBlocks
      && !bfree[0]
      && nrFreeBlocks == CountFree(bfree[..], nrBlocks)
    }

    /** mkfs leaves the inode counter one above the free bits, and every call keeps it so. */
    ghost predicate InodesOk()
      reads this, ifree
    {
      && 0 < nrInodes <= ifree.Length
      && !ifree[0]
      && nrFreeInodes == CountFree(ifree[..], nrInodes) + 1
    }

    method GetFreeBlock() returns (b: nat)
      requires BlocksOk()
      modifies this`nrFreeBlocks, bfree
      ensures BlocksOk()
      ensures b == 0 <==> old(nrFreeBlocks) == 0
      ensures b != 0 ==> b < nrBlocks && IsFirstFree(old(bfree[..]), nrBlocks, b)
      ensures b != 0 ==> bfree[..] == old(bfree[..])[b := false] && nrFreeBlocks == old(nrFreeBlocks) - 1
      ensures b == 0 ==> bfree[..] == old(bfree[..]) && nrFreeBlocks == old(nrFreeBlocks)
    {
      CountFreeZero(bfree[..], nrBlocks);
      ghost var was := bfree[..];
      b := GetFirstFreeBit(bfree, nrBlocks);
      if b != 0 {
        CountFreeUpdate(was, nrBlocks, b, false);
        nrFreeBlocks := nrFreeBlocks - 1;
      }
    }

    /** The counter stays exact precisely when the block was handed out, or is refused as out of range. */
    method PutBlock(b: nat) returns (outside: bool)
      requires BlocksOk()
      modifies this`nrFreeBlocks, bfree
      ensures BlocksOk() <==> b > nrBlocks || (0 < b < nrBlocks && !old(bfree[b]))
      ensures outside <==> b == nrBlocks == bfree.Length
      ensures bfree[..] == if b > nrBlocks || outside then old(bfree[..]) else old(bfree[..])[b := true]
      ensures nrFreeBlocks == if b > nrBlocks then old(nrFreeBlocks) else old(nrFreeBlocks) + 1
    {
      ghost var was := bfree[..];
      if b < bfree.Length { CountFreeUpdate(was, nrBlocks, b, true); }
      var failed;
      failed, outside := PutFreeBit(bfree, nrBlocks, b);
      if failed { return; }
      nrFreeBlocks := nrFreeBlocks + 1;
    }

    method GetFreeInode() returns (ino: nat)
      requires InodesOk()
      modifies this`nrFreeInodes, ifree
      ensures InodesOk()
      ensures ino == 0 <==> old(nrFreeInodes) == 1
      ensures ino != 0 ==> IsFirstFree(old(ifree[..]), nrInodes, ino)
      ensures ino != 0 ==> ifree[..] == old(ifree[..])[ino := false] && nrFreeInodes == old(nrFreeInodes) - 1
      ensures ino == 0 ==> ifree[..] == old(ifree[..]) && nrFreeInodes == old(nrFreeInodes)
    {
      CountFreeZero(ifree[..], nrInodes);
      ghost var was := ifree[..];
      ino := GetFirstFreeBit(ifree, nrInodes);
      if ino != 0 {
        CountFreeUpdate(was, nrInodes, ino, false);
        nrFreeInodes := nrFreeInodes - 1;
      }
    }

    method PutInode(ino: nat) returns (outside: bool)
      requires InodesOk()
      modifies this`nrFreeInodes, ifree
      ensures InodesOk() <==> ino > nrInodes || (0 < ino < nrInodes && !old(ifree[ino]))
      ensures outside <==> ino == nrInodes == ifree.Length
      ensures ifree[..] == if ino > nrInodes || outside then old(ifree[..]) else old(ifree[..])[ino := true]
      ensures nrFreeInodes == if ino > nrInodes then old(nrFreeInodes) else old(nrFreeInodes) + 1
    {
      ghost var was := ifree[..];
      if ino < ifree.Length { CountFreeUpdate(was, nrInodes, ino, true); }
      var failed;
      failed, outside := PutFreeBit(ifree, nrInodes, ino);
      if failed { return; }
      nrFreeInodes := nrFreeInodes + 1;
    }
  }
}
