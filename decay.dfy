/** The decay engine: an active item loses 0.1 strength per whole day since it was
    last seen, and is buried when its strength reaches 0. */
module Decay {
  import opened Model

  /** The strength one elapsed day costs. */
  const DOSE: real := 0.1

  /** Whole days elapsed between `lastSeen` and `now`. Dafny's `/` on `int` with a
      positive divisor rounds towards minus infinity, as `Math.floor` does, also when
      the clock has gone backwards. */
  function Steps(lastSeen: int, now: int): int {
    (now - lastSeen) / DAY_MS
  }

  /** Steps is `Math.floor(hours / 24)` with `hours = (now - lastSeen) / 3600000`,
      computed on reals. */
  lemma StepsIsFloorOfDays(lastSeen: int, now: int)
    ensures Steps(lastSeen, now) as real <= (now - lastSeen) as real / HOUR_MS as real / 24.0
    ensures (now - lastSeen) as real / HOUR_MS as real / 24.0 < Steps(lastSeen, now) as real + 1.0
  {
  }

  /** The item is charged in this call: it is active and at least one day has passed. */
  predicate Decays(it: Item, now: int) {
    it.soil.status == Active && Steps(it.soil.lastSeen, now) > 0
  }

  /** The effect of one `applyDecay` call on one item. */
  function DecayItem(it: Item, now: int): (r: Item)
    ensures r.id == it.id && r.raw == it.raw && r.seed == it.seed
    ensures r.soil.nextReview == it.soil.nextReview
    ensures !Decays(it, now) ==> r == it
    ensures Decays(it, now) ==> r.soil.lastSeen == now
    ensures Decays(it, now) && it.soil.strength >= 0.0 ==>
      r.soil.strength == it.soil.strength - Min(it.soil.strength, Steps(it.soil.lastSeen, now) as real * DOSE)
    ensures Decays(it, now) ==> (r.soil.status == Buried <==> r.soil.strength == 0.0)
    ensures InUnitRange(it.soil.strength) ==> InUnitRange(r.soil.strength)
    ensures !Decays(r, now)
  {
    if Decays(it, now) then
      var s := Max(0.0, it.soil.strength - Steps(it.soil.lastSeen, now) as real * DOSE);
      it.(soil := it.soil.(strength := s, lastSeen := now, status := if s <= 0.0 then Buried else Active))
    else it
  }

  /** `applyDecay(now)` over the whole list: every item decayed in place. */
  function Decayed(items: seq<Item>, now: int): (r: seq<Item>)
    ensures |r| == |items|
    ensures forall i :: 0 <= i < |items| ==> r[i] == DecayItem(items[i], now)
  {
    seq(|items|, i requires 0 <= i < |items| => DecayItem(items[i], now))
  }

  /** The `changed` flag of `applyDecay`: some item is charged. */
  predicate DecayChanges(items: seq<Item>, now: int) {
    exists i :: 0 <= i < |items| && Decays(items[i], now)
  }

  /** The `changed` flag is exact: it is raised precisely when the list changes. */
  lemma ChangedIffDifferent(items: seq<Item>, now: int)
    ensures DecayChanges(items, now) <==> Decayed(items, now) != items
  {
  }

  /** Decay keeps every strength in [0, 1]. */
  lemma DecayedWellFormed(items: seq<Item>, now: int)
    requires WellFormed(items)
    ensures WellFormed(Decayed(items, now))
  {
  }

  /** A second `applyDecay` with the same `now` changes nothing and so does not save. */
  lemma DecayIdempotent(items: seq<Item>, now: int)
    ensures Decayed(Decayed(items, now), now) == Decayed(items, now)
    ensures !DecayChanges(Decayed(items, now), now)
  {
  }

  /** One session start after another: `applyDecay` at each time in `nows`. */
  function DecayRun(items: seq<Item>, nows: seq<int>): seq<Item>
    decreases |nows|
  {
    if |nows| == 0 then items else DecayRun(Decayed(items, nows[0]), nows[1..])
  }

  /** Every strength stays in [0, 1] after any sequence of decay applications. */
  lemma {:induction false} DecayRunWellFormed(items: seq<Item>, nows: seq<int>)
    requires WellFormed(items)
    ensures WellFormed(DecayRun(items, nows))
    decreases |nows|
  {
    if |nows| > 0 {
      DecayedWellFormed(items, nows[0]);
      DecayRunWellFormed(Decayed(items, nows[0]), nows[1..]);
    }
  }

  /** 73 hours without a visit are 3 steps: strength 0.9 falls to 0.6 in one call. */
  lemma SeventyThreeHours(it: Item, now: int)
    requires it.soil.status == Active && it.soil.strength == 0.9
    requires it.soil.lastSeen == now - 73 * HOUR_MS
    ensures DecayItem(it, now).soil.strength == 0.6
    ensures DecayItem(it, now).soil.lastSeen == now
    ensures DecayItem(it, now).soil.status == Active
  {
  }

  /** A strength of 0.05 does not survive one step: it is clamped to 0 and buried. */
  lemma ClampedAndBuried(it: Item, now: int)
    requires it.soil.status == Active && it.soil.strength == 0.05
    requires it.soil.lastSeen == now - DAY_MS
    ensures DecayItem(it, now).soil.strength == 0.0
    ensures DecayItem(it, now).soil.status == Buried
  {
  }
}
