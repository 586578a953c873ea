/** Fresh blocks for a run of index entries. */
module WriteAlloc {
  import opened PackedEntry
  import opened Volumes
  import opened FileContents

  /** The entries es name distinct blocks, of size 0, and exactly these were free before and are not now. */
  ghost predicate FreshRun(before: seq<bool>, after: seq<bool>, nrBlocks: nat, es: seq<Word>) {
    && nrBlocks <= |before| == |after|
    && Distinct(es)
    && (forall m :: 0 <= m < |es| ==> Size(es[m]) == 0 && 0 < Number(es[m]) < nrBlocks)
    && (forall m :: 0 <= m < |es| ==> before[Number(es[m])] && !after[Number(es[m])])
    && (forall b :: 0 <= b < |after| && after[b] ==> before[b])
    && (forall b :: 0 <= b < |after| && before[b] && !after[b] ==> exists m :: 0 <= m < |es| && Number(es[m]) == b)
  }

  lemma FreshRunExtend(before: seq<bool>, after: seq<bool>, nrBlocks: nat, es: seq<Word>, e: Word)
    requires FreshRun(before, after, nrBlocks, es)
    requires Size(e) == 0 && 0 < Number(e) < nrBlocks && after[Number(e)]
    ensures FreshRun(before, after[Number(e) := false], nrBlocks, es + [e])
  {
    var after', es' := after[Number(e) := false], es + [e];
    forall b | 0 <= b < |after'| && before[b] && !after'[b] ensures exists m :: 0 <= m < |es'| && Number(es'[m]) == b {
      if b == Number(e) {
        assert Number(es'[|es|]) == b;
      } else {
        var m :| 0 <= m < |es| && Number(es[m]) == b;
        assert Number(es'[m]) == b;
      }
    }
  }

  lemma FreshRunEmpty(bits: seq<bool>, nrBlocks: nat)
    requires nrBlocks <= |bits|
    ensures FreshRun(bits, bits, nrBlocks, [])
  {
  }

  /** Gives entry i a fresh block, of size 0. */
  method AllocateEntry(index: array<Word>, vol: Volume, i: nat)
    requires vol.BlocksOk() && vol.nrBlocks <= NUMBERS && vol.nrFreeBlocks > 0 && i < index.Length
    modifies index, vol`nrFreeBlocks, vol.bfree
    ensures vol.BlocksOk() && vol.nrFreeBlocks == old(vol.nrFreeBlocks) - 1
    ensures Size(index[i]) == 0 && 0 < Number(index[i]) < vol.nrBlocks && old(vol.bfree[..])[Number(index[i])]
    ensures index[..] == old(index[..])[i := index[i]]
    ensures vol.bfree[..] == old(vol.bfree[..])[Number(index[i]) := false]
  {
    var b := vol.GetFreeBlock();
    SetBlockNumber(index, i, b);
    SetBlockSize(index, i, 0);
  }

  /** Gives entries first, first + 1, ... a fresh block each, of size 0. */
  method AllocateRun(index: array<Word>, vol: Volume, first: nat, k: nat) returns (ghost added: seq<Word>)
    requires vol.BlocksOk() && vol.nrBlocks <= NUMBERS && k <= vol.nrFreeBlocks && first + k <= index.Length
    modifies index, vol`nrFreeBlocks, vol.bfree
    ensures vol.BlocksOk() && vol.nrFreeBlocks == old(vol.nrFreeBlocks) - k
    ensures |added| == k && FreshRun(old(vol.bfree[..]), vol.bfree[..], vol.nrBlocks, added)
    ensures index[..] == old(index[..])[..first] + added + old(index[..])[first + k..]
  {
    hide FreshRun;
    ghost var was, before := index[..], vol.bfree[..];
    FreshRunEmpty(before, vol.nrBlocks);
    added := [];
    var i := first;
    while i < first + k
      invariant first <= i <= first + k && |added| == i - first
      invariant vol.BlocksOk() && vol.nrFreeBlocks == old(vol.nrFreeBlocks) - (i - first)
      invariant index[..] == was[..first] + added + was[i..]
      invariant FreshRun(before, vol.bfree[..], vol.nrBlocks, added)
    {
      ghost var bits := vol.bfree[..];
      AllocateEntry(index, vol, i);
      FreshRunExtend(before, bits, vol.nrBlocks, added, index[i]);
      added := added + [index[i]];
      i := i + 1;
    }
  }
}
