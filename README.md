# Seed & Soil: the knowledge-item lifecycle engine

Seed & Soil is a single-page app. The user captures short texts ("seeds"). An
external summariser distils each text into `{essence, nuggets, action}`. Items
are then reviewed, and an item that goes unreviewed loses strength each day
until it is buried. This project models the engine behind that, taken from
`assets/app.js`:

- the **item store**: an ordered list of items. Each item has an id, the raw
  text, an optional seed and its soil `{strength, lastSeen, nextReview, status}`;
- the **decay engine** `applyDecay`;
- the **lifecycle transitions**: `captureSeed`, `interact`, `unbury`, `clearAllData`;
- the **review selection**: the challenge card of `renderChallenge` and the
  buried list of `renderBuried`;
- the **distillation loop** of `processPulse`, with its continue-on-failure policy;
- the **session gate** of `init` and `unlock`: decay runs when the session is
  unlocked.

Strength is a Dafny `real`, so 0.1, 0.2 and 0.5 are exact. Timestamps are
integer milliseconds. The clock (`Date.now()`), the random id, the typed
password, the `confirm()` answer and the summariser's answers are all
parameters. The summariser is an oracle `results: seq<Option<Seed>>`: call k
returns `results[k]`, where `None` stands for a thrown fetch, a bad response or
a JSON parse error. A call past the end of `results` fails.

Modules, leaf first:

- `Model` (model.dfy): the datatypes, the `WellFormed` store invariant
  (every strength in [0, 1]) and `IndexOf` (`items.find` by id).
- `Text` (text.dfy): JavaScript's `String.prototype.trim`.
- `Decay` (decay.dfy): `applyDecay` as a function on the list, with its lemmas.
- `Lifecycle` (lifecycle.dfy): capture, review and resurrection as functions.
- `Selection` (selection.dfy): the stable strongest-first sort, the challenge
  card and the buried filter.
- `Pulse` (pulse.dfy): the snapshot of unseeded items and the result of a
  distillation pass.
- `App` (app.dfy): the class `Session`, the app's mutable `state`. Its methods
  change `items` in place, with the loops of `applyDecay` and `processPulse`.
  Each method is proved against the functions above. The ghost field `saves`
  counts `saveData` calls.

The model follows `app.js` in these points:

- A successful review adds 0.2, capped at 1. It does not reset strength to 1.0.
- The challenge shows a single card, not the top three.
- There is no remote sync, no synthesis ("gaps") pass and no `isProcessing` flag.
- The text sent to the summariser is not truncated.

## Model

| member | source | states |
|---|---|---|
| Model.IndexOf | assets/app.js:199 | The index returned holds the id and no earlier item has it. `None` means no item has the id. |
| Text.TrimSpec | assets/app.js:206 | Trim removes only a blank prefix and a blank suffix, and the result neither starts nor ends with white space. |
| Text.TrimEmptyIffBlank | assets/app.js:206-207 | The trimmed text is empty exactly when every character is JavaScript white space. |
| Text.TrimIdempotent | assets/app.js:206 | Trimming twice gives the same result as trimming once. |
| Decay.StepsIsFloorOfDays | assets/app.js:67-68 | The integer step count is `floor(hours / 24)` with `hours = elapsed / 3600000`, computed on reals. |
| Decay.DecayItem | assets/app.js:66-74 | An item that is buried, or was seen less than a day ago, is unchanged. Otherwise it loses exactly `min(strength, steps * 0.1)`, `lastSeen` becomes `now`, and it is buried exactly when its strength reaches 0. Strength in [0, 1] stays in [0, 1]. Id, text, seed and `nextReview` are kept. A second call with the same `now` does not charge the item again. |
| Decay.ChangedIffDifferent | assets/app.js:64-77 | The `changed` flag that triggers `saveData` is raised exactly when the list actually changes. |
| Decay.DecayedWellFormed | assets/app.js:65-76 | If every strength starts in [0, 1], every strength is still in [0, 1] after `applyDecay`. |
| Decay.DecayIdempotent | assets/app.js:62-78 | A second `applyDecay` with the same `now` changes nothing and raises no `changed` flag, so it does not save. |
| Decay.DecayRunWellFormed | assets/app.js:62-78 | Strengths stay in [0, 1] after any sequence of decay applications. |
| Decay.SeventyThreeHours | assets/app.js:67-71 | 73 hours without a visit are 3 steps: strength 0.9 drops to 0.6 in one call, and `lastSeen` becomes `now`. |
| Decay.ClampedAndBuried | assets/app.js:70-72 | Strength 0.05 after one step is clamped to 0 and the item is buried. |
| Lifecycle.Capture | assets/app.js:206-208 | Blank input adds nothing. Otherwise exactly one item is prepended, and the existing items keep their values and order. |
| Lifecycle.CaptureAddsSprout | assets/app.js:206-208 | The new item has the given id, `raw` equal to the trimmed input text (non-empty, with no white space at either end), no seed, strength 1.0, status active, `lastSeen` = the capture time and `nextReview` = the capture time + 86400000. |
| Lifecycle.CaptureWellFormed | assets/app.js:208 | Capture keeps every strength in [0, 1]. |
| Lifecycle.Review | assets/app.js:238-239 | On success, strength becomes `min(1, strength + 0.2)`, `lastSeen` becomes `now` and status is unchanged. On failure, status becomes buried and strength and `lastSeen` are unchanged. |
| Lifecycle.Resurrect | assets/app.js:200 | The item becomes active with strength exactly 0.5 and `lastSeen` = `now`, whatever its prior strength or status. |
| Lifecycle.InteractSpec | assets/app.js:237-239 | `interact` fails (JavaScript throws a TypeError) exactly on an unknown id. Otherwise the first item with that id (no earlier item has it) is reviewed and no other item changes. |
| Lifecycle.UnburySpec | assets/app.js:199-200 | For a known id, the first item with that id (no earlier item has it) is resurrected, keeping its id, text, seed and `nextReview`, and nothing else changes. For an unknown id, the list is unchanged. |
| Lifecycle.TransitionsWellFormed | assets/app.js:198-200 | Reviews and resurrections keep every strength in [0, 1]. |
| Selection.SortByStrengthCorrect | assets/app.js:144 | The sort puts the strongest first and is a permutation of the candidates. |
| Selection.ChallengeIsFirstStrongest | assets/app.js:144-146 | There is no card exactly when no item is both active and seeded. Otherwise the card is an active, seeded item of maximal strength, and on ties the earliest in list order (the sort is stable). |
| Selection.ChallengeOfFirstStrongest | assets/app.js:144-145 | The earliest strongest eligible item is the card; this makes the previous row an if-and-only-if. |
| Selection.BuriedListMembers | assets/app.js:175 | The buried list contains exactly the buried items. |
| Selection.BuriedListConcat | assets/app.js:175 | The buried list keeps list order: it distributes over concatenation, and keeps a single item exactly when that item is buried. |
| Pulse.Pending | assets/app.js:214 | The snapshot `un` lists positions of items lacking a seed, one per such item. The k-th entry has exactly k unseeded items before it. |
| Pulse.PendingComplete | assets/app.js:214 | Every item lacking a seed at the start is in the snapshot, at its rank among the unseeded items. |
| Pulse.PendingInOrder | assets/app.js:214-217 | The snapshot is walked in list order. |
| Pulse.DistilledOnlySetsSeeds | assets/app.js:217-231 | A pass changes only seeds. Ids, texts, soil, length and order are kept, and items that already had a seed are never modified. |
| Pulse.DistilledKthCall | assets/app.js:217-229 | The k-th summariser call is for the k-th unseeded item. On success its seed is set to the result; on failure it stays without a seed. |
| Pulse.FailureIsolated | assets/app.js:218-231 | A failure in one call affects no other item: oracles that differ only in call k yield lists that differ only at the k-th pending item. |
| Pulse.DistilledUnchanged | assets/app.js:214-231 | A pass changes nothing when no item lacks a seed, or when every call fails. |
| Pulse.DistilledWellFormed | assets/app.js:217-231 | A pass keeps every strength in [0, 1]. |
| App.Session.constructor | assets/app.js:25-31 | With no password, the session is unlocked at once and decay runs (saving only if something changed). With a password, the session stays locked and the items are untouched. Stored strengths in [0, 1] stay in [0, 1]. |
| App.Session.Unlock | assets/app.js:108-117 | The right password unlocks the session and runs decay. A wrong one changes nothing. The [0, 1] invariant is kept. |
| App.Session.ApplyDecay | assets/app.js:62-78 | The loop decays every item in place; the result equals `Decay.Decayed` of the old list. It saves once exactly when some item changed, and it keeps the [0, 1] invariant. |
| App.Session.Capture | assets/app.js:204-210 | The list becomes `Lifecycle.Capture` of the old list. It saves exactly when the text is not blank. |
| App.Session.Interact | assets/app.js:236-241 | On a known id, the list becomes the reviewed list and is saved once. On an unknown id, nothing changes or is saved. |
| App.Session.Unbury | assets/app.js:198-201 | The list becomes `Lifecycle.Unbury` of the old list. It saves only when the id was found. |
| App.Session.ClearAll | assets/app.js:254 | After confirmation the list is empty and saved once; without confirmation nothing changes. |
| App.Session.ProcessPulse | assets/app.js:212-234 | With no API key, it reports that a key is required and changes nothing. With no unseeded items, it reports "no new seeds" and changes nothing. Otherwise the loop over the snapshot yields `Pulse.Distilled` of the old list, with one save per successful call. |

## Left out

- DOM rendering: the `render*` templates, `renderLockScreen`, icons, `showToast`
  and its timer, `setView` and `toggleSettings`. These are presentation only.
- Local storage: `loadData`, `saveData` and `saveSettings` are I/O. The stored
  items and settings are parameters of the constructor, and each write is
  counted in the ghost field `saves`.
- The summariser's HTTP request and response parsing are a network client.
  They are replaced by the oracle. `processPulse` stores whatever `JSON.parse`
  returns without checking its shape; the model treats a success as a
  well-formed `Seed`.
- `Math.random` ids and `Date.now()` are parameters. `captureSeed` reads the
  clock twice, for `lastSeen` and `nextReview`; the model uses a single `now`.
- JavaScript floating point: the model's strengths are exact reals. An
  accumulated 0.1 residue, or a NaN strength loaded from storage, is not
  modelled.
- Concurrency: a second `processPulse` started while one is awaiting, and
  captures during a pass, are not modelled. The snapshot `un` holds object
  references in `app.js`; the model holds positions, which is the same as
  long as nothing else changes the list during the pass.
- Configuration wiring in `init` and `loadData`: the deployed-config
  placeholders and the merging of stored settings. Also `logout`,
  `exportData` and the service-worker registration. These are browser or
  configuration glue outside the engine.
- Strings are sequences of Unicode scalar values. JavaScript's UTF-16 code
  units, including lone surrogates, are not modelled.
