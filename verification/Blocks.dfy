/** A flat buffer of n blocks of equal size, block r at offset At(r, size). */
module Blocks {
  import opened Bytes
  import opened Arith

  /** r * size, as the sum of r block sizes. */
  function At(r: nat, size: nat): nat { if r == 0 then 0 else At(r - 1, size) + size }

  lemma {:induction false} AtIsProduct(r: nat, size: nat)
    ensures At(r, size) == r * size
  {
    if r > 0 {
      AtIsProduct(r - 1, size);
      assert r * size == (r - 1) * size + size;
    }
  }

  ghost predicate Uniform(bs: seq<seq<byte>>, size: nat) { forall i :: 0 <= i < |bs| ==> |bs[i]| == size }

  lemma {:induction false} SlotBound(r: nat, n: nat, size: nat)
    requires r < n
    ensures At(r, size) + size <= At(n, size)
  {
    if r + 1 < n { SlotBound(r, n - 1, size); }
  }

  /** The bytes of block r. */
  function Slot(buf: seq<byte>, r: nat, n: nat, size: nat): (b: seq<byte>)
    requires r < n && |buf| == At(n, size)
    ensures |b| == size
  {
    SlotBound(r, n, size);
    buf[At(r, size)..At(r, size) + size]
  }

  /** Filling one slot leaves the others alone. */
  lemma PlaceSlot(buf: seq<byte>, r: nat, other: nat, blk: seq<byte>, n: nat, size: nat)
    requires r < n && other < n && |buf| == At(n, size) && |blk| == size
    ensures At(r, size) + size <= |buf|
    ensures Slot(Place(buf, At(r, size), blk), other, n, size) == if other == r then blk else Slot(buf, other, n, size)
  {
    SlotBound(r, n, size);
    SlotBound(other, n, size);
    if other < r { SlotBound(other, r, size); }
    if r < other { SlotBound(r, other, size); }
  }

  /** A buffer is determined by its slots. */
  lemma {:induction false} SlotsDetermine(buf: seq<byte>, bs: seq<seq<byte>>, size: nat)
    requires Uniform(bs, size) && |buf| == At(|bs|, size)
    requires forall r :: 0 <= r < |bs| ==> Slot(buf, r, |bs|, size) == bs[r]
    ensures buf == Flatten(bs)
  {
    if bs != [] {
      var n := |bs|;
      var head, tail := buf[..size], buf[size..];
      assert Slot(buf, 0, n, size) == buf[At(0, size)..At(0, size) + size] == head;
      forall r | 0 <= r < n - 1 ensures Slot(tail, r, n - 1, size) == bs[1..][r] {
        SlotBound(r, n - 1, size);
        assert At(r + 1, size) == At(r, size) + size;
        assert Slot(buf, r + 1, n, size) == tail[At(r, size)..At(r, size) + size];
      }
      SlotsDetermine(tail, bs[1..], size);
      assert buf == head + tail;
    }
  }

  /** Flatten lays blocks of equal size out slot by slot. */
  lemma {:induction false} SlotOfFlatten(bs: seq<seq<byte>>, r: nat, size: nat)
    requires Uniform(bs, size) && r < |bs|
    ensures |Flatten(bs)| == At(|bs|, size) && Slot(Flatten(bs), r, |bs|, size) == bs[r]
  {
    FlattenLength(bs, size);
    var flat := Flatten(bs);
    assert flat == bs[0] + Flatten(bs[1..]);
    if r > 0 {
      SlotOfFlatten(bs[1..], r - 1, size);
      SlotBound(r - 1, |bs| - 1, size);
      assert flat[At(r, size)..At(r, size) + size] == Flatten(bs[1..])[At(r - 1, size)..At(r - 1, size) + size];
    }
  }

  lemma {:induction false} FlattenLength(bs: seq<seq<byte>>, size: nat)
    requires Uniform(bs, size)
    ensures |Flatten(bs)| == At(|bs|, size)
  {
    if bs != [] { FlattenLength(bs[1..], size); }
  }

  /** ranks lists 0 .. n-1 in some order. */
  ghost predicate Ranking(ranks: seq<nat>, n: nat) {
    && |ranks| == n
    && (forall i :: 0 <= i < n ==> ranks[i] < n)
    && (forall i, j :: 0 <= i < j < n ==> ranks[i] != ranks[j])
  }

  /** No rank is missing. */
  lemma RankingIsOnto(ranks: seq<nat>, n: nat, r: nat)
    requires Ranking(ranks, n) && r < n
    ensures r in ranks
  {
    var seen := set i | 0 <= i < n :: ranks[i];
    DistinctCount(ranks, n);
    assert seen == set x | x in ranks;
    var all := UpTo(n);
    assert seen <= all;
    if r !in ranks {
      assert seen <= all - {r};
      SubsetCount(seen, all - {r});
    }
  }

  lemma {:induction false} DistinctCount(ranks: seq<nat>, k: nat)
    requires k <= |ranks| && forall i, j :: 0 <= i < j < |ranks| ==> ranks[i] != ranks[j]
    ensures |set i | 0 <= i < k :: ranks[i]| == k
  {
    if k > 0 {
      DistinctCount(ranks, k - 1);
      assert (set i | 0 <= i < k :: ranks[i]) == (set i | 0 <= i < k - 1 :: ranks[i]) + {ranks[k - 1]};
    }
  }

  function UpTo(n: nat): (s: set<nat>)
    ensures |s| == n && forall x: nat :: x in s <==> x < n
  {
    if n == 0 then {} else UpTo(n - 1) + {n - 1}
  }

  /** Blocks copied in one after the other, block bs[ranks[i]] at rank ranks[i]. */
  function Assemble(buf: seq<byte>, ranks: seq<nat>, bs: seq<seq<byte>>, size: nat, k: nat): (r: seq<byte>)
    requires k <= |ranks| && |buf| == At(|bs|, size)
    requires forall i :: 0 <= i < |ranks| ==> ranks[i] < |bs|
    requires forall i :: 0 <= i < |bs| ==> |bs[i]| == size
    ensures |r| == |buf|
  {
    if k == 0 then buf
    else
      var b := Assemble(buf, ranks, bs, size, k - 1);
      SlotBound(ranks[k - 1], |bs|, size);
      Place(b, At(ranks[k - 1], size), bs[ranks[k - 1]])
  }

  lemma {:induction false} AssembledSlots(buf: seq<byte>, ranks: seq<nat>, bs: seq<seq<byte>>, size: nat, k: nat,
                                          r: nat)
    requires k <= |ranks| && |buf| == At(|bs|, size) && r < |bs|
    requires (forall i :: 0 <= i < |ranks| ==> ranks[i] < |bs|) && Uniform(bs, size)
    ensures Slot(Assemble(buf, ranks, bs, size, k), r, |bs|, size)
         == if r in ranks[..k] then bs[r] else Slot(buf, r, |bs|, size)
  {
    if k > 0 {
      AssembledSlots(buf, ranks, bs, size, k - 1, r);
      var last := ranks[k - 1];
      PlaceSlot(Assemble(buf, ranks, bs, size, k - 1), last, r, bs[last], |bs|, size);
      InPrefix(ranks, k - 1, r);
    }
  }

  lemma InPrefix(ranks: seq<nat>, k: nat, r: nat)
    requires k < |ranks|
    ensures r in ranks[..k + 1] <==> r in ranks[..k] || r == ranks[k]
  {
    assert ranks[..k + 1] == ranks[..k] + [ranks[k]];
  }

  /** With the block of rank first in place, copying in all the others, whatever the order, leaves the blocks in
      rank order and nothing else. */
  lemma AllPlaced(buf: seq<byte>, ranks: seq<nat>, first: nat, bs: seq<seq<byte>>, size: nat)
    requires Ranking(ranks + [first], |bs|) && Uniform(bs, size) && |buf| == At(|bs|, size)
    requires (forall i :: 0 <= i < |ranks| ==> ranks[i] < |bs|) && first < |bs|
    requires Slot(buf, first, |bs|, size) == bs[first]
    ensures Assemble(buf, ranks, bs, size, |ranks|) == Flatten(bs)
  {
    forall r | 0 <= r < |bs| ensures Slot(Assemble(buf, ranks, bs, size, |ranks|), r, |bs|, size) == bs[r] {
      SlotPlaced(buf, ranks, first, bs, size, r);
    }
    SlotsDetermine(Assemble(buf, ranks, bs, size, |ranks|), bs, size);
  }

  lemma SlotPlaced(buf: seq<byte>, ranks: seq<nat>, first: nat, bs: seq<seq<byte>>, size: nat, r: nat)
    requires Ranking(ranks + [first], |bs|) && Uniform(bs, size) && |buf| == At(|bs|, size) && r < |bs|
    requires (forall i :: 0 <= i < |ranks| ==> ranks[i] < |bs|) && first < |bs|
    requires Slot(buf, first, |bs|, size) == bs[first]
    ensures Slot(Assemble(buf, ranks, bs, size, |ranks|), r, |bs|, size) == bs[r]
  {
    AssembledSlots(buf, ranks, bs, size, |ranks|, r);
    RankingIsOnto(ranks + [first], |bs|, r);
    assert ranks[..|ranks|] == ranks;
  }
}
