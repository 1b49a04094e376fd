/** Lifecycle transitions triggered by the user: capture, review, resurrection. */
module Lifecycle {
  import opened Model
  import Text

  const CAPTURE_STRENGTH: real := 1.0
  const REVIEW_BONUS: real := 0.2
  const RESURRECT_STRENGTH: real := 0.5

  /** A freshly captured item: not yet distilled, full strength, due for review a day later. */
  function Sprout(id: string, raw: string, now: int): Item {
    Item(id, raw, None, Soil(CAPTURE_STRENGTH, now, now + DAY_MS, Active))
  }

  /** `captureSeed`: the trimmed text, unless blank, becomes a new item at the front. */
  function Capture(items: seq<Item>, text: string, id: string, now: int): (r: seq<Item>)
    ensures Text.IsBlank(text) ==> r == items
    ensures !Text.IsBlank(text) ==> |r| == |items| + 1 && r[1..] == items
  {
    Text.TrimEmptyIffBlank(text);
    var t := Text.Trim(text);
    if t == [] then items else [Sprout(id, t, now)] + items
  }

  /** The item a non-blank capture adds: the text without surrounding white space,
      no seed, strength 1.0, active, next review one day after the capture. */
  lemma CaptureAddsSprout(items: seq<Item>, text: string, id: string, now: int)
    requires !Text.IsBlank(text)
    ensures var r := Capture(items, text, id, now);
      && r[0].id == id && r[0].raw == Text.Trim(text) && r[0].seed == None
      && r[0].soil == Soil(1.0, now, now + DAY_MS, Active)
      && r[0].raw != [] && !Text.IsJsSpace(r[0].raw[0]) && !Text.IsJsSpace(r[0].raw[|r[0].raw| - 1])
      && Text.Trim(r[0].raw) == r[0].raw
  {
  }

  /** Capturing keeps every strength in [0, 1]. */
  lemma CaptureWellFormed(items: seq<Item>, text: string, id: string, now: int)
    requires WellFormed(items)
    ensures WellFormed(Capture(items, text, id, now))
  {
  }

  /** `interact(id, ok)` on the item found: success adds 0.2, capped at 1, and marks
      the item seen; failure buries it. */
  function Review(it: Item, ok: bool, now: int): (r: Item)
    ensures r.id == it.id && r.raw == it.raw && r.seed == it.seed
    ensures r.soil.nextReview == it.soil.nextReview
    ensures ok ==> r.soil.status == it.soil.status && r.soil.lastSeen == now
    ensures ok && it.soil.strength <= 1.0 ==> it.soil.strength <= r.soil.strength <= 1.0
    ensures ok && it.soil.strength <= 1.0 - REVIEW_BONUS ==> r.soil.strength == it.soil.strength + REVIEW_BONUS
    ensures ok && it.soil.strength >= 1.0 - REVIEW_BONUS ==> r.soil.strength == 1.0
    ensures !ok ==> r.soil.status == Buried
    ensures !ok ==> r.soil.strength == it.soil.strength && r.soil.lastSeen == it.soil.lastSeen
    ensures InUnitRange(it.soil.strength) ==> InUnitRange(r.soil.strength)
  {
    if ok then it.(soil := it.soil.(strength := Min(1.0, it.soil.strength + REVIEW_BONUS), lastSeen := now))
    else it.(soil := it.soil.(status := Buried))
  }

  /** `unbury(id)` on the item found: active again at half strength, seen now. */
  function Resurrect(it: Item, now: int): (r: Item)
    ensures r.id == it.id && r.raw == it.raw && r.seed == it.seed
    ensures r.soil.nextReview == it.soil.nextReview
    ensures r.soil.status == Active && r.soil.strength == 0.5 && r.soil.lastSeen == now
  {
    it.(soil := it.soil.(status := Active, strength := RESURRECT_STRENGTH, lastSeen := now))
  }

  /** `interact(id, ok)` on the list. `None` stands for the TypeError `interact` throws
      when no item carries `id`, before anything is changed or saved. */
  function Interact(items: seq<Item>, id: string, ok: bool, now: int): (r: Option<seq<Item>>)
  {
    match IndexOf(items, id)
    case None => None
    case Some(k) => Some(items[k := Review(items[k], ok, now)])
  }

  /** `unbury(id)` on the list; an unknown id changes nothing. */
  function Unbury(items: seq<Item>, id: string, now: int): (r: seq<Item>)
  {
    match IndexOf(items, id)
    case None => items
    case Some(k) => items[k := Resurrect(items[k], now)]
  }

  /** Interact fails exactly on an unknown id; otherwise it reviews the first item
      with that id and no other item changes. */
  lemma InteractSpec(items: seq<Item>, id: string, ok: bool, now: int)
    ensures Interact(items, id, ok, now).None? <==> forall j :: 0 <= j < |items| ==> items[j].id != id
    ensures Interact(items, id, ok, now).Some? ==>
      var r := Interact(items, id, ok, now).value;
      && |r| == |items|
      && exists k :: 0 <= k < |items| && items[k].id == id
                && (forall j :: 0 <= j < k ==> items[j].id != id)
                && r[k] == Review(items[k], ok, now)
                && forall j :: 0 <= j < |items| && j != k ==> r[j] == items[j]
  {
  }

  /** Unbury on a known id resurrects the first item with that id, whatever its prior
      strength or status, and no other item changes; on an unknown id nothing changes. */
  lemma UnburySpec(items: seq<Item>, id: string, now: int)
    ensures (forall j :: 0 <= j < |items| ==> items[j].id != id) ==> Unbury(items, id, now) == items
    ensures |Unbury(items, id, now)| == |items|
    ensures (exists j :: 0 <= j < |items| && items[j].id == id) ==>
      exists k :: 0 <= k < |items| && items[k].id == id
        && (forall j :: 0 <= j < k ==> items[j].id != id)
        && Unbury(items, id, now)[k] == Resurrect(items[k], now)
        && Unbury(items, id, now)[k].soil.status == Active
        && Unbury(items, id, now)[k].soil.strength == 0.5
        && Unbury(items, id, now)[k].soil.lastSeen == now
        && forall j :: 0 <= j < |items| && j != k ==> Unbury(items, id, now)[j] == items[j]
  {
  }

  /** Reviews and resurrections keep every strength in [0, 1]. */
  lemma TransitionsWellFormed(items: seq<Item>, id: string, ok: bool, now: int)
    requires WellFormed(items)
    ensures Interact(items, id, ok, now).Some? ==> WellFormed(Interact(items, id, ok, now).value)
    ensures WellFormed(Unbury(items, id, now))
  {
  }
}
