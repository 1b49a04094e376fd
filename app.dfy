/** The application state object and the operations that change it in place. */
module App {
  import opened Model
  import Text
  import Decay
  import Lifecycle
  import Pulse

  /** What `processPulse` tells the user when it returns. */
  datatype PulseReport = KeyRequired | NoNewSeeds | Complete

  /** `state`: the item list, the two settings the core reads, and whether the
      session is unlocked. `saves` counts the `saveData` writes to local storage. */
  class Session {
    var items: seq<Item>
    var apiKey: string
    var password: string
    var isAuthenticated: bool
    ghost var saves: nat

    /** `init()` with the stored items and settings it loaded: without a password the
        session is unlocked at once and decay runs; with one, it stays locked. */
    constructor (stored: seq<Item>, apiKey: string, password: string, now: int)
      ensures this.apiKey == apiKey && this.password == password
      ensures isAuthenticated == (password == [])
      ensures items == if password == [] then Decay.Decayed(stored, now) else stored
      ensures saves == if password == [] && Decay.DecayChanges(stored, now) then 1 else 0
      ensures WellFormed(stored) ==> WellFormed(items)
    {
      items := stored;
      this.apiKey := apiKey;
      this.password := password;
      isAuthenticated := false;
      saves := 0;
      new;
      if password == [] {
        isAuthenticated := true;
        ApplyDecay(now);
      }
    }

    /** `unlock()`: the typed password opens the session and runs decay; a wrong one
        changes nothing. */
    method Unlock(typed: string, now: int) returns (ok: bool)
      modifies this`isAuthenticated, this`items, this`saves
      ensures ok == (typed == password)
      ensures isAuthenticated == (ok || old(isAuthenticated))
      ensures items == if ok then Decay.Decayed(old(items), now) else old(items)
      ensures saves == old(saves) + (if ok && Decay.DecayChanges(old(items), now) then 1 else 0)
      ensures WellFormed(old(items)) ==> WellFormed(items)
    {
      ok := typed == password;
      if ok {
        isAuthenticated := true;
        ApplyDecay(now);
      }
    }

    /** `applyDecay()`: decays every active item in place and saves once if any changed. */
    method ApplyDecay(now: int)
      modifies this`items, this`saves
      ensures items == Decay.Decayed(old(items), now)
      ensures saves == old(saves) + (if Decay.DecayChanges(old(items), now) then 1 else 0)
      ensures WellFormed(old(items)) ==> WellFormed(items)
    {
      var changed := false;
      var i := 0;
      while i < |items|
        invariant 0 <= i <= |items| == |old(items)|
        invariant forall k :: 0 <= k < i ==> items[k] == Decay.DecayItem(old(items)[k], now)
        invariant forall k :: i <= k < |items| ==> items[k] == old(items)[k]
        invariant changed <==> exists k :: 0 <= k < i && Decay.Decays(old(items)[k], now)
        invariant saves == old(saves)
      {
        if Decay.Decays(items[i], now) {
          items := items[i := Decay.DecayItem(items[i], now)];
          changed := true;
        }
        i := i + 1;
      }
      if changed {
        saves := saves + 1;
      }
      if WellFormed(old(items)) {
        Decay.DecayedWellFormed(old(items), now);
      }
    }

    /** `captureSeed()`: non-blank text becomes a new item at the front and is saved. */
    method Capture(text: string, id: string, now: int)
      modifies this`items, this`saves
      ensures items == Lifecycle.Capture(old(items), text, id, now)
      ensures saves == old(saves) + (if Text.IsBlank(text) then 0 else 1)
      ensures WellFormed(old(items)) ==> WellFormed(items)
    {
      var t := Text.Trim(text);
      Text.TrimEmptyIffBlank(text);
      if t == [] {
        return;
      }
      items := [Lifecycle.Sprout(id, t, now)] + items;
      saves := saves + 1;
      if WellFormed(old(items)) {
        Lifecycle.CaptureWellFormed(old(items), text, id, now);
      }
    }

    /** `interact(id, ok)`. `found` is false when no item has `id`: `interact` then
        throws a TypeError before changing or saving anything. */
    method Interact(id: string, ok: bool, now: int) returns (found: bool)
      modifies this`items, this`saves
      ensures found == Lifecycle.Interact(old(items), id, ok, now).Some?
      ensures items == if found then Lifecycle.Interact(old(items), id, ok, now).value else old(items)
      ensures saves == old(saves) + (if found then 1 else 0)
      ensures WellFormed(old(items)) ==> WellFormed(items)
    {
      var k := IndexOf(items, id);
      found := k.Some?;
      if found {
        items := items[k.value := Lifecycle.Review(items[k.value], ok, now)];
        saves := saves + 1;
      }
      if WellFormed(old(items)) {
        Lifecycle.TransitionsWellFormed(old(items), id, ok, now);
      }
    }

    /** `unbury(id)`: resurrects the item and saves; an unknown id changes nothing. */
    method Unbury(id: string, now: int)
      modifies this`items, this`saves
      ensures items == Lifecycle.Unbury(old(items), id, now)
      ensures saves == old(saves) + (if IndexOf(old(items), id).Some? then 1 else 0)
      ensures WellFormed(old(items)) ==> WellFormed(items)
    {
      var k := IndexOf(items, id);
      if k.Some? {
        items := items[k.value := Lifecycle.Resurrect(items[k.value], now)];
        saves := saves + 1;
      }
      if WellFormed(old(items)) {
        Lifecycle.TransitionsWellFormed(old(items), id, true, now);
      }
    }

    /** `clearAllData()`: once the user has confirmed, the list is emptied and saved. */
    method ClearAll(confirmed: bool)
      modifies this`items, this`saves
      ensures items == if confirmed then [] else old(items)
      ensures saves == old(saves) + (if confirmed then 1 else 0)
    {
      if confirmed {
        items := [];
        saves := saves + 1;
      }
    }

    /** `processPulse()`: without an API key, or with every item already distilled,
        nothing changes; otherwise the items that lacked a seed at the start are sent
        to the summariser one by one, and each success is saved at once. */
    method ProcessPulse(results: seq<Option<Seed>>) returns (report: PulseReport)
      modifies this`items, this`saves
      ensures report == KeyRequired <==> apiKey == []
      ensures report == NoNewSeeds <==> apiKey != [] && Pulse.CountUnseeded(old(items)) == 0
      ensures items == if report == Complete then Pulse.Distilled(old(items), results) else old(items)
      ensures saves == old(saves) +
        (if report == Complete then Pulse.Successes(results, Pulse.CountUnseeded(old(items))) else 0)
      ensures WellFormed(old(items)) ==> WellFormed(items)
    {
      if apiKey == [] {
        return KeyRequired;
      }
      var un := Pulse.Pending(items);
      if |un| == 0 {
        return NoNewSeeds;
      }
      ghost var start := items;
      Pulse.DistilledUpToEnds(start, results);
      var j := 0;
      while j < |un|
        invariant 0 <= j <= |un| == Pulse.CountUnseeded(start)
        invariant un == Pulse.Pending(start)
        invariant items == Pulse.DistilledUpTo(start, results, j)
        invariant saves == old(saves) + Pulse.Successes(results, j)
      {
        var r := Pulse.Outcome(results, j);
        Pulse.DistilledUpToStep(start, results, j);
        if r.Some? {
          items := items[un[j] := items[un[j]].(seed := r)];
          saves := saves + 1;
        }
        j := j + 1;
      }
      report := Complete;
      if WellFormed(start) {
        Pulse.DistilledWellFormed(start, results);
      }
    }
  }
}
