/** The Seed & Soil item store: one knowledge item per captured text.

  Strength is a `real` (exact decimals, so 0.1 steps never drift) and every
  timestamp is an integer number of milliseconds, as `Date.now()` returns.
 */
module Model {

  datatype Option<+T> = None | Some(value: T)

  /** `soil.status`: an item is either in review or retired. */
  datatype Status = Active | Buried

  /** The distilled summary `{essence, nuggets, action}` of a captured text. */
  datatype Seed = Seed(essence: string, nuggets: seq<string>, action: string)

  /** Scheduling metadata of an item. */
  datatype Soil = Soil(strength: real, lastSeen: int, nextReview: int, status: Status)

  /** A knowledge item; `seed` is `None` until distillation succeeds. */
  datatype Item = Item(id: string, raw: string, seed: Option<Seed>, soil: Soil)

  const HOUR_MS: int := 3600000
  const DAY_MS: int := 86400000

  predicate InUnitRange(x: real) {
    0.0 <= x <= 1.0
  }

  /** The store invariant: every strength lies in [0, 1]. */
  predicate WellFormed(items: seq<Item>) {
    forall i :: 0 <= i < |items| ==> InUnitRange(items[i].soil.strength)
  }

  function Min(a: real, b: real): real {
    if a <= b then a else b
  }

  function Max(a: real, b: real): real {
    if a >= b then a else b
  }

  /** `items.find(x => x.id === id)`, as the position of the first item carrying `id`. */
  function IndexOf(items: seq<Item>, id: string): (r: Option<nat>)
    ensures r.Some? ==> r.value < |items| && items[r.value].id == id
    ensures r.Some? ==> forall j :: 0 <= j < r.value ==> items[j].id != id
    ensures r.None? <==> forall j :: 0 <= j < |items| ==> items[j].id != id
  {
    if |items| == 0 then None
    else if items[0].id == id then Some(0)
    else match IndexOf(items[1..], id)
      case None => None
      case Some(k) => Some(k + 1)
  }
}
