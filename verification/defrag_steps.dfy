/** The bookkeeping of the packing loop of defrag, on values. */
module DefragSteps {
  import opened Helpers
  import opened PackedEntry
  import opened Volumes
  import opened FileContents

  /** Entries that still name a block; the others have been set to 0. */
  predicate LiveOk(es: seq<Word>, nrBlocks: nat) {
    && (forall m :: 0 <= m < |es| ==> Number(es[m]) < nrBlocks && (Number(es[m]) == 0 ==> es[m] == 0))
    && (forall m, n :: 0 <= m < n < |es| && Number(es[m]) == Number(es[n]) ==> Number(es[m]) == 0)
  }

  function LiveCount(es: seq<Word>): nat {
    if es == [] then 0 else (if Number(es[0]) > 0 then 1 else 0) + LiveCount(es[1..])
  }

  lemma {:induction false} LiveCountUpdate(es: seq<Word>, j: nat, w: Word)
    requires j < |es| && Number(es[j]) > 0
    ensures LiveCount(es[j := w]) == LiveCount(es) - if Number(w) == 0 then 1 else 0
  {
    if j > 0 {
      assert es[j := w][1..] == es[1..][j - 1 := w];
      LiveCountUpdate(es[1..], j - 1, w);
    } else {
      assert es[j := w][1..] == es[1..];
    }
  }

  lemma {:induction false} LiveCountAll(es: seq<Word>)
    requires forall m :: 0 <= m < |es| ==> Number(es[m]) > 0
    ensures LiveCount(es) == |es|
  {
    if es != [] { LiveCountAll(es[1..]); }
  }

  lemma BitsStart(bits: seq<bool>, es: seq<Word>, nrBlocks: nat)
    requires Owned(es, bits, nrBlocks) && Distinct(es) && 0 < nrBlocks <= |bits| && !bits[0]
    ensures LiveOk(es, nrBlocks) && BitsOk(bits, es, bits, es)
  {
  }

  lemma AbsentDropped(es: seq<Word>, nrBlocks: nat, j: nat, b: nat)
    requires LiveOk(es, nrBlocks) && j < |es| && Number(es[j]) > 0 && b > 0
    ensures Absent(b, es[j := 0]) <==> Absent(b, es) || b == Number(es[j])
  {
    var es' := es[j := 0];
    if Absent(b, es') && b != Number(es[j]) {
      forall m | 0 <= m < |es| ensures Number(es[m]) != b { assert m == j || es[m] == es'[m]; }
    }
    if Absent(b, es) { forall m | 0 <= m < |es'| ensures Number(es'[m]) != b { assert m == j || es[m] == es'[m]; } }
  }

  lemma AbsentMoved(es: seq<Word>, nrBlocks: nat, j: nat, w: Word, b: nat)
    requires LiveOk(es, nrBlocks) && j < |es| && Number(es[j]) > 0 && Absent(Number(w), es) && b > 0
    ensures Absent(b, es[j := w]) <==> (Absent(b, es) || b == Number(es[j])) && b != Number(w)
  {
    var es' := es[j := w];
    if Absent(b, es') && b != Number(es[j]) {
      forall m | 0 <= m < |es| ensures Number(es[m]) != b { assert m == j || es[m] == es'[m]; }
    }
    if (Absent(b, es) || b == Number(es[j])) && b != Number(w) {
      forall m | 0 <= m < |es'| ensures Number(es'[m]) != b { assert m == j || es[m] == es'[m]; }
    }
    if b == Number(w) { assert Number(es'[j]) == b; }
  }

  lemma AbsentResized(es: seq<Word>, i: nat, s: nat, b: nat)
    requires i < |es|
    ensures Absent(b, es[i := WithSize(es[i], s)]) <==> Absent(b, es)
  {
    var es' := es[i := WithSize(es[i], s)];
    if Absent(b, es') {
      forall m | 0 <= m < |es| ensures Number(es[m]) != b { assert Number(es[m]) == Number(es'[m]); }
    }
    if Absent(b, es) {
      forall m | 0 <= m < |es'| ensures Number(es'[m]) != b { assert Number(es[m]) == Number(es'[m]); }
    }
  }

  /** Entry j is given up: its block goes back. */
  lemma BitsDrop(bits0: seq<bool>, es0: seq<Word>, bits: seq<bool>, es: seq<Word>, nrBlocks: nat, j: nat)
    requires BitsOk(bits0, es0, bits, es) && LiveOk(es, nrBlocks) && j < |es| && Number(es[j]) > 0
    ensures Number(es[j]) < |bits| && !bits[Number(es[j])]
    ensures LiveOk(es[j := 0], nrBlocks) && BitsOk(bits0, es0, bits[Number(es[j]) := true], es[j := 0])
    ensures LiveCount(es[j := 0]) == LiveCount(es) - 1
  {
    hide LiveCount, Absent;
    LiveCountUpdate(es, j, 0);
    NotAbsent(es, j);
    forall b: nat | 0 < b < |bits| ensures Absent(b, es[j := 0]) <==> Absent(b, es) || b == Number(es[j]) {
      AbsentDropped(es, nrBlocks, j, b);
    }
  }

  lemma NotAbsent(es: seq<Word>, j: nat)
    requires j < |es|
    ensures !Absent(Number(es[j]), es)
  {
  }

  lemma NamedIsTaken(bits0: seq<bool>, es0: seq<Word>, bits: seq<bool>, es: seq<Word>, b: nat)
    requires BitsOk(bits0, es0, bits, es) && 0 < b < |bits| && bits[b]
    ensures Absent(b, es) && (bits0[b] || !Absent(b, es0))
  {
  }

  lemma NamedWasOurs(bits0: seq<bool>, es0: seq<Word>, bits: seq<bool>, es: seq<Word>, m: nat)
    requires BitsOk(bits0, es0, bits, es) && m < |es| && Number(es[m]) > 0
    ensures Number(es[m]) < |bits0| && (bits0[Number(es[m])] || !Absent(Number(es[m]), es0))
  {
  }

  /** Entry j moves to another block, a free one. */
  lemma BitsMove(bits0: seq<bool>, es0: seq<Word>, bits: seq<bool>, es: seq<Word>, nrBlocks: nat, j: nat, w: Word)
    requires BitsOk(bits0, es0, bits, es) && LiveOk(es, nrBlocks) && j < |es| && Number(es[j]) > 0
    requires 0 < Number(w) < nrBlocks <= |bits| && bits[Number(w)]
    ensures !bits[Number(es[j])] && Number(w) != Number(es[j])
    ensures LiveOk(es[j := w], nrBlocks)
    ensures BitsOk(bits0, es0, bits[Number(w) := false][Number(es[j]) := true], es[j := w])
    ensures LiveCount(es[j := w]) == LiveCount(es)
  {
    LiveCountUpdate(es, j, w);
    NotAbsent(es, j);
    NamedIsTaken(bits0, es0, bits, es, Number(w));
    forall b: nat | 0 < b < |bits|
      ensures Absent(b, es[j := w]) <==> (Absent(b, es) || b == Number(es[j])) && b != Number(w)
    {
      AbsentMoved(es, nrBlocks, j, w, b);
    }
  }

  /** Changing only the size of entry i changes nothing here. */
  lemma BitsResize(bits0: seq<bool>, es0: seq<Word>, bits: seq<bool>, es: seq<Word>, nrBlocks: nat, i: nat, s: nat)
    requires BitsOk(bits0, es0, bits, es) && LiveOk(es, nrBlocks) && i < |es| && Number(es[i]) > 0
    ensures LiveOk(es[i := WithSize(es[i], s)], nrBlocks) && BitsOk(bits0, es0, bits, es[i := WithSize(es[i], s)])
    ensures LiveCount(es[i := WithSize(es[i], s)]) == LiveCount(es)
  {
    LiveCountUpdate(es, i, WithSize(es[i], s));
    forall b: nat | 0 < b < |bits| ensures Absent(b, es[i := WithSize(es[i], s)]) <==> Absent(b, es) {
      AbsentResized(es, i, s, b);
    }
  }

  // ---- contents ----

  lemma {:induction false} EmptyEntries(es: seq<Word>, disk: seq<Block>)
    requires InRange(es, disk) && forall m :: 0 <= m < |es| ==> Size(es[m]) == 0
    ensures Contents(es, disk) == []
  {
    if es != [] { EmptyEntries(es[1..], disk); }
  }

  lemma ContentsTwo(es: seq<Word>, i: nat, j: nat, disk: seq<Block>)
    requires i < j < |es| && InRange(es, disk) && forall m :: i < m < j ==> Size(es[m]) == 0
    ensures InRange(es[..i], disk) && InRange(es[j + 1..], disk)
    ensures Contents(es, disk) ==
        Contents(es[..i], disk) + Used(es[i], disk) + Used(es[j], disk) + Contents(es[j + 1..], disk)
  {
    hide Contents, TotalSize;
    ContentsSplit(es, i, disk);
    var rest, gap := es[i + 1..], es[i + 1..][..j - i - 1];
    ContentsSplit(rest, j - i - 1, disk);
    forall m | 0 <= m < |gap| ensures Size(gap[m]) == 0 { assert gap[m] == es[i + 1 + m]; }
    EmptyEntries(gap, disk);
    assert rest[j - i..] == es[j + 1..] && rest[j - i - 1] == es[j];
    assert [] + Used(es[j], disk) == Used(es[j], disk);
    Regroup(Contents(es[..i], disk), Used(es[i], disk), Used(es[j], disk), Contents(es[j + 1..], disk));
  }

  lemma Regroup(a: seq<byte>, b: seq<byte>, c: seq<byte>, d: seq<byte>)
    ensures a + b + (c + d) == a + b + c + d
  {
  }

  /** Bytes taken from the front of block j and put at the end of block i stay where they are in the file. */
  lemma MovedBytes(es: seq<Word>, disk: seq<Block>, es': seq<Word>, disk': seq<Block>, i: nat, j: nat, n: nat)
    requires i < j < |es| == |es'| && InRange(es, disk) && InRange(es', disk')
    requires forall m :: i < m < j ==> Size(es[m]) == 0
    requires forall m :: 0 <= m < |es| && m != i && m != j ==>
        es'[m] == es[m] && Used(es'[m], disk') == Used(es[m], disk)
    requires n <= Size(es[j])
    requires Used(es'[i], disk') == Used(es[i], disk) + Used(es[j], disk)[..n]
    requires Used(es'[j], disk') == Used(es[j], disk)[n..]
    ensures Contents(es', disk') == Contents(es, disk)
  {
    hide Contents, TotalSize;
    ContentsTwo(es, i, j, disk);
    ContentsTwo(es', i, j, disk');
    ContentsSame(es[..i], es'[..i], disk, disk');
    ContentsSame(es[j + 1..], es'[j + 1..], disk, disk');
    Rejoin(Contents(es[..i], disk), Used(es[i], disk), Used(es[j], disk), n, Contents(es[j + 1..], disk));
  }

  lemma Rejoin(a: seq<byte>, b: seq<byte>, c: seq<byte>, n: nat, d: seq<byte>)
    requires n <= |c|
    ensures a + (b + c[..n]) + c[n..] + d == a + b + c + d
  {
    assert c == c[..n] + c[n..];
  }

  lemma {:induction false} ContentsSame(es: seq<Word>, es': seq<Word>, disk: seq<Block>, disk': seq<Block>)
    requires |es| == |es'| && InRange(es, disk) && InRange(es', disk')
    requires forall m :: 0 <= m < |es| ==> Used(es'[m], disk') == Used(es[m], disk)
    ensures Contents(es', disk') == Contents(es, disk)
  {
    if es != [] { ContentsSame(es[1..], es'[1..], disk, disk'); }
  }

  // ---- packing ----

  /** Every non-empty entry but the last is full. */
  predicate Packed(es: seq<Word>) {
    forall m, n :: 0 <= m < n < |es| && Size(es[m]) > 0 && Size(es[n]) > 0 ==> Size(es[m]) == MAX_BLOCK_SIZE
  }

  function NonEmpty(es: seq<Word>): nat {
    if es == [] then 0 else (if Size(es[0]) > 0 then 1 else 0) + NonEmpty(es[1..])
  }

  lemma {:induction false} NoneNonEmpty(es: seq<Word>)
    requires forall m :: 0 <= m < |es| ==> Size(es[m]) == 0
    ensures NonEmpty(es) == 0 && TotalSize(es) == 0
  {
    if es != [] { NoneNonEmpty(es[1..]); }
  }

  lemma {:induction false} SomeNonEmpty(es: seq<Word>, n: nat)
    requires n < |es| && Size(es[n]) > 0
    ensures TotalSize(es) > 0
  {
    if n > 0 { SomeNonEmpty(es[1..], n - 1); }
  }

  /** A packed index uses as few blocks as any index could. */
  lemma {:induction false} PackedCount(es: seq<Word>)
    requires Packed(es)
    ensures NonEmpty(es) == CeilDiv(TotalSize(es), MAX_BLOCK_SIZE)
  {
    if es != [] {
      var rest := es[1..];
      forall m, n | 0 <= m < n < |rest| && Size(rest[m]) > 0 && Size(rest[n]) > 0
        ensures Size(rest[m]) == MAX_BLOCK_SIZE
      {
        assert rest[m] == es[m + 1] && rest[n] == es[n + 1];
      }
      PackedCount(rest);
      if Size(es[0]) > 0 {
        if n :| 0 <= n < |rest| && Size(rest[n]) > 0 {
          assert rest[n] == es[n + 1];
          SomeNonEmpty(rest, n);
        } else {
          NoneNonEmpty(rest);
        }
      }
    }
  }
}
