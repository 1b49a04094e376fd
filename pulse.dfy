/** The distillation pass of `processPulse`: every item that had no seed when the
    pass started is sent, in list order, to the external summariser; a success sets
    the item's seed, a failure is swallowed and the pass goes on.

    The summariser is an oracle: `results[k]` is what the k-th call returns (`None`
    for a thrown fetch, a bad response or a JSON parse error); calls past the end of
    `results` fail. */
module Pulse {
  import opened Model

  predicate Unseeded(it: Item) {
    it.seed.None?
  }

  /** What the k-th summariser call returns. */
  function Outcome(results: seq<Option<Seed>>, k: nat): Option<Seed> {
    if k < |results| then results[k] else None
  }

  /** Number of items in `s` lacking a seed. */
  function CountUnseeded(s: seq<Item>): (n: nat)
    ensures n <= |s|
  {
    if |s| == 0 then 0
    else CountUnseeded(s[..|s| - 1]) + (if Unseeded(s[|s| - 1]) then 1 else 0)
  }

  /** More items, at least as many without a seed. */
  lemma {:induction false} CountUnseededMonotone(s: seq<Item>, i: nat, j: nat)
    requires i <= j <= |s|
    ensures CountUnseeded(s[..i]) <= CountUnseeded(s[..j])
    ensures i < j && Unseeded(s[i]) ==> CountUnseeded(s[..i]) < CountUnseeded(s[..j])
    decreases j - i
  {
    if i < j {
      CountUnseededMonotone(s, i, j - 1);
      assert s[..j][..j - 1] == s[..j - 1];
      if i == j - 1 { assert s[..j][j - 1] == s[i]; }
    }
  }

  /** The snapshot `un = items.filter(i => !i.seed)`, as positions in list order. */
  function Pending(s: seq<Item>): (r: seq<nat>)
    ensures |r| == CountUnseeded(s)
    ensures forall k :: 0 <= k < |r| ==> r[k] < |s| && Unseeded(s[r[k]])
    ensures forall k :: 0 <= k < |r| ==> CountUnseeded(s[..r[k]]) == k
  {
    if |s| == 0 then []
    else
      var init := s[..|s| - 1];
      var r := Pending(init) + (if Unseeded(s[|s| - 1]) then [|s| - 1] else []);
      assert forall m :: 0 <= m <= |init| ==> init[..m] == s[..m];
      r
  }

  /** Every item lacking a seed is in the snapshot, at the position given by the
      number of unseeded items before it. */
  lemma PendingComplete(s: seq<Item>, i: nat)
    requires i < |s| && Unseeded(s[i])
    ensures CountUnseeded(s[..i]) < |Pending(s)|
    ensures Pending(s)[CountUnseeded(s[..i])] == i
  {
    CountUnseededMonotone(s, i, |s|);
    assert s[..|s|] == s;
    var k := CountUnseeded(s[..i]);
    var p := Pending(s)[k];
    if p < i {
      CountUnseededMonotone(s, p, i);
    } else if i < p {
      CountUnseededMonotone(s, i, p);
    }
  }

  /** The snapshot lists positions in increasing order. */
  lemma PendingInOrder(s: seq<Item>)
    ensures forall a, b :: 0 <= a < b < |Pending(s)| ==> Pending(s)[a] < Pending(s)[b]
  {
  }

  /** The items after a pass: the item with the k-th missing seed gets the k-th
      call's result, every other item is left as it was. */
  function Distilled(s: seq<Item>, results: seq<Option<Seed>>): (r: seq<Item>)
    ensures |r| == |s|
  {
    seq(|s|, i requires 0 <= i < |s| =>
      if Unseeded(s[i]) then s[i].(seed := Outcome(results, CountUnseeded(s[..i]))) else s[i])
  }

  /** The items once the first j calls of a pass have returned. */
  function DistilledUpTo(s: seq<Item>, results: seq<Option<Seed>>, j: nat): (r: seq<Item>)
    ensures |r| == |s|
  {
    seq(|s|, i requires 0 <= i < |s| =>
      if Unseeded(s[i]) && CountUnseeded(s[..i]) < j then Distilled(s, results)[i] else s[i])
  }

  /** Before the first call nothing has changed; after the last the pass is complete. */
  lemma DistilledUpToEnds(s: seq<Item>, results: seq<Option<Seed>>)
    ensures DistilledUpTo(s, results, 0) == s
    ensures DistilledUpTo(s, results, CountUnseeded(s)) == Distilled(s, results)
  {
    assert DistilledUpTo(s, results, 0) == s;
    forall i | 0 <= i < |s| && Unseeded(s[i]) ensures CountUnseeded(s[..i]) < CountUnseeded(s) {
      PendingComplete(s, i);
    }
  }

  /** Call j touches only the j-th pending item, and only when it succeeds. */
  lemma DistilledUpToStep(s: seq<Item>, results: seq<Option<Seed>>, j: nat)
    requires j < CountUnseeded(s)
    ensures var p := Pending(s)[j];
      DistilledUpTo(s, results, j + 1) ==
        if Outcome(results, j).Some? then DistilledUpTo(s, results, j)[p := s[p].(seed := Outcome(results, j))]
        else DistilledUpTo(s, results, j)
  {
    var p := Pending(s)[j];
    var before, after := DistilledUpTo(s, results, j), DistilledUpTo(s, results, j + 1);
    forall i | 0 <= i < |s| && Unseeded(s[i]) && CountUnseeded(s[..i]) == j ensures i == p {
      PendingComplete(s, i);
    }
    if Outcome(results, j).Some? {
      assert after == before[p := s[p].(seed := Outcome(results, j))];
    } else {
      assert after == before;
    }
  }

  /** Number of the first n calls that succeed, each followed by a `saveData`. */
  function Successes(results: seq<Option<Seed>>, n: nat): nat {
    if n == 0 then 0 else Successes(results, n - 1) + (if Outcome(results, n - 1).Some? then 1 else 0)
  }

  /** A pass only ever sets seeds: ids, texts, soil and list order are kept, and an
      item that already had a seed is not touched. */
  lemma DistilledOnlySetsSeeds(s: seq<Item>, results: seq<Option<Seed>>)
    ensures |Distilled(s, results)| == |s|
    ensures forall i :: 0 <= i < |s| ==>
      var r := Distilled(s, results)[i];
      r.id == s[i].id && r.raw == s[i].raw && r.soil == s[i].soil
    ensures forall i :: 0 <= i < |s| && s[i].seed.Some? ==> Distilled(s, results)[i] == s[i]
  {
  }

  /** The k-th call is made for the k-th item lacking a seed, in list order: a success
      sets that item's seed, a failure leaves it without one. */
  lemma DistilledKthCall(s: seq<Item>, results: seq<Option<Seed>>, k: nat)
    requires k < CountUnseeded(s)
    ensures Distilled(s, results)[Pending(s)[k]].seed == Outcome(results, k)
  {
  }

  /** A failure affects no other item: two oracles that differ only in call k lead to
      lists that differ only at the k-th pending item. */
  lemma FailureIsolated(s: seq<Item>, r1: seq<Option<Seed>>, r2: seq<Option<Seed>>, k: nat)
    requires k < CountUnseeded(s)
    requires forall m :: m != k ==> Outcome(r1, m) == Outcome(r2, m)
    ensures forall i :: 0 <= i < |s| && i != Pending(s)[k] ==> Distilled(s, r1)[i] == Distilled(s, r2)[i]
  {
    forall i | 0 <= i < |s| && i != Pending(s)[k] ensures Distilled(s, r1)[i] == Distilled(s, r2)[i] {
      if Unseeded(s[i]) {
        PendingComplete(s, i);
      }
    }
  }

  /** With nothing lacking a seed, or no call succeeding, a pass changes nothing. */
  lemma DistilledUnchanged(s: seq<Item>, results: seq<Option<Seed>>)
    requires CountUnseeded(s) == 0 || forall m :: Outcome(results, m).None?
    ensures Distilled(s, results) == s
  {
    forall i | 0 <= i < |s| ensures Distilled(s, results)[i] == s[i] {
      if Unseeded(s[i]) {
        PendingComplete(s, i);
      }
    }
  }

  /** A pass keeps every strength in [0, 1]. */
  lemma DistilledWellFormed(s: seq<Item>, results: seq<Option<Seed>>)
    requires WellFormed(s)
    ensures WellFormed(Distilled(s, results))
  {
  }
}
