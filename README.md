# BabyLog: the event log and its feeding state machine

BabyLog is a single-page infant-care logger. Each press of the pee, poop,
both or feed button appends an entry `{type, ts}` to a log kept as one JSON
text in a `localStorage` slot; the export and clear buttons append nothing.
The types are `pee`, `poop`, `both`, `feed_start` and `feed_stop`. The feed
button is a two-state toggle, and its state is read off the log itself: the
most recent `feed_start`/`feed_stop` entry decides it. The page shows the log
newest first. Each row has a caption and a relative age (`42s`, `5m`, `3h`,
`2d`).

This project models that core in four modules:

- `Log` (log.dfy): entries, the backwards scan behind `lastFeedState`, the
  action that `toggleFeed` takes, and how sequences of user actions change the
  log. The main result: when feeding entries are only ever added with the feed
  button, they alternate `feed_start`, `feed_stop`, … starting with
  `feed_start`.
- `RelativeTime` (relative.dfy): `relativeLabel`, which floor-divides from
  milliseconds down to seconds, minutes, hours and days. The model restates
  its unit choice as thresholds on the millisecond difference, and renders the
  count in decimal as a JavaScript template literal does.
- `Display` (display.dfy): the caption `switch`, the `slice().reverse()`
  ordering, the list `render` builds and the feed button's caption.
- `App` (app.dfy): the storage slot, kept abstract, and a class `BabyLog`.
  `BabyLog`'s methods are `loadLog`, `saveLog`, `addEntry`, `lastFeedState`,
  `toggleFeed`, the clear action and `render`. Each method states its new
  state in terms of the old one.

The clock (`Date.now()`) is a parameter `now`. JSON parsing is abstract: a
non-empty stored text is known only by its parse outcome, either a list of
entries or a syntax error. The only other distinction kept is whether the
stored text is the empty string. JavaScript treats that string as false, so
`loadLog` returns `[]` for it and does not remove it.

app.js keeps entries of only `type` and `ts`; it has no share link, merge,
import or notes.

## Model

| member | source | states |
|---|---|---|
| `Log.LastFeed` | app.js:27-34 | computes the state by reading the log from its last entry back: the first feed_start met gives Started, the first feed_stop Stopped, and the front of the log Stopped; its meaning is stated by Log.LastFeedIsLastFeedKind |
| `Log.ScanFeedState` | app.js:27-34 | the backwards loop returns the state of the last feeding entry (Stopped when there is none), i.e. Started iff the last feeding type is feed_start |
| `Log.LastFeedIsLastFeedKind` | app.js:27-34 | the state is Started iff the feeding entries are non-empty and the last one is feed_start; with no feeding entry (the empty log included) it is Stopped |
| `Log.AppendOtherKeepsState` | app.js:29-32 | appending an entry of any non-feeding type leaves the feed state and the feeding entries unchanged |
| `Log.AppendFeedSetsState` | app.js:29-32 | appending a feeding entry makes the state the one that entry names and adds it to the feeding entries |
| `Log.ToggleKind` | app.js:36-41 | the toggle appends a feeding type, and it is feed_start exactly when the state is stopped |
| `Log.ToggleFlips` | app.js:35-42 | a toggle appends exactly one entry and leaves the state opposite to its prior value |
| `Log.AlternatesPairwise` | app.js:27-42 | an alternating feeding sequence starts with feed_start and no two neighbours are equal |
| `Log.AlternatingState` | app.js:27-34 | on an alternating log the state is Started iff the number of feeding entries is odd |
| `Log.Step` | app.js:20-42 | the log after one action: a diaper entry or a toggle appends exactly one entry at the clock reading and keeps every earlier entry, the toggle's entry being a feeding type; clear (app.js:101-103) empties the log |
| `Log.Run` | app.js:20-42 | computes the log after a sequence of actions, applied in order; its invariant is stated by Log.RunKeepsAlternation |
| `Log.PairwiseAlternates` | app.js:27-42 | the converse of Log.AlternatesPairwise: feeding types that begin with feed_start and have no two equal neighbours alternate |
| `Log.StepKeepsAlternation` | app.js:20-42 | a diaper entry, a toggle or a clear keeps the feeding entries alternating |
| `Log.RunKeepsAlternation` | app.js:20-42 | any sequence of such actions keeps the feeding entries alternating |
| `Log.FromNoFeedingAlternates` | app.js:20-42 | from a log with no feeding entries, feeding entries added only by the toggle alternate and begin with feed_start |
| `RelativeTime.RelativeAge` | app.js:75-85 | computes the floor-division chain s, m, h, d and picks the first unit whose count is under its limit; its meaning is stated by RelativeTime.RelativeAgeByThresholds and RelativeTime.RelativeAgeRanges |
| `RelativeTime.RelativeLabel` | app.js:75-85 | computes `relativeLabel(ts)` with the clock read as `now`: the age printed by RelativeTime.ShowAge; Display.ItemShowsRelativeLabel ties it to the rows |
| `RelativeTime.RelativeAgeByThresholds` | app.js:75-85 | the unit is s iff diff < 60000 ms, m iff 60000 <= diff < 3600000, h iff 3600000 <= diff < 86400000, d otherwise; the count is diff floor-divided by the unit's length in ms |
| `RelativeTime.RelativeAgeRanges` | app.js:75-85 | counts stay in range: seconds below 60, minutes 1..59, hours 1..23, days at least 1, never negative when now >= ts |
| `RelativeTime.NatToDecimal` | app.js:78 | the printed magnitude is a non-empty string of digits without a leading zero |
| `RelativeTime.DecimalRoundTrip` | app.js:78 | reading back the printed digits of n gives n |
| `RelativeTime.IntToDecimalInjective` | app.js:78 | distinct integers (negative ones with a minus sign) print differently |
| `RelativeTime.IntToDecimal` | app.js:78 | the printed integer is non-empty and starts with a minus sign exactly when the integer is negative |
| `RelativeTime.ShowAge` | app.js:78-84 | the label has at least two characters and ends in the unit's letter (s, m, h or d) |
| `RelativeTime.ShowAgeDetermines` | app.js:78-84 | the label (count followed by unit letter) determines both the count and the unit |
| `Display.KindLabel` | app.js:57-66 | computes the caption for a type by the switch; its meaning is stated by Display.KindLabelByTable |
| `Display.KindLabelByTable` | app.js:57-66 | the five known types get their fixed captions and never their raw name; any other type is shown unchanged; both feeding captions start with "Feeding — " |
| `Display.Reversed` | app.js:50 | the list reversed as `slice().reverse()` gives it; it has the same length as the input |
| `Display.ReversedAt` | app.js:50 | the reversed list has the same length and its k-th element is the k-th from the end |
| `Display.ReversedTwice` | app.js:50 | reversing twice gives the list back |
| `Display.ItemFor` | app.js:54-67 | computes one row: the entry's caption, its timestamp and its age; its contents are stated by Display.ItemShowsRelativeLabel |
| `Display.ItemShowsRelativeLabel` | app.js:67 | a row carries the entry's caption and timestamp, and its age prints exactly as `relativeLabel` of the entry's timestamp |
| `Display.ListItems` | app.js:50-70 | an empty log shows the placeholder item; otherwise one row per entry, row i showing the i-th newest entry's caption, timestamp and relative age (count and unit) |
| `Display.NewestFirst` | app.js:50 | a log in order of time is shown with non-increasing timestamps |
| `Display.AppendKeepsChronological` | app.js:20-24 | appending at a clock reading no earlier than the last entry keeps the log in order of time |
| `Display.FeedButtonLabel` | app.js:73 | computes "Start Feed" in the stopped state and "Stop Feed" otherwise; its meaning is stated by Display.FeedButtonNamesToggle |
| `Display.FeedButtonNamesToggle` | app.js:73 | the caption is "Start Feed" iff pressing the button appends feed_start, and "Stop Feed" iff it appends feed_stop |
| `App.Loaded` | app.js:7-16 | computes what loadLog returns for a slot: the parsed list, else []; its properties are stated by App.LoadRecovers |
| `App.AfterLoad` | app.js:7-16 | computes the slot after loadLog: an unparsable text is removed, anything else is kept; its properties are stated by App.LoadRecovers |
| `App.Saved` | app.js:17-19 | computes the slot after saveLog: the text of the list, which parses back to it; App.LoadAfterSave states the round trip |
| `App.LoadAfterSave` | app.js:7-19 | after saveLog(e), loadLog returns e and leaves the slot as it is |
| `App.LoadRecovers` | app.js:7-16 | an absent or empty slot reads as [] untouched; an unparsable one reads as [] and is removed; a second load returns the same list and leaves the slot as it is |
| `App.BabyLog.LoadLog` | app.js:7-16 | returns the parsed list, or [] for an absent, empty or unparsable slot; removes only an unparsable slot; the log read does not change |
| `App.BabyLog.SaveLog` | app.js:17-19 | the slot afterwards holds the list, which reads back exactly |
| `App.BabyLog.AddEntry` | app.js:20-26 | the new log is the old log plus the entry {type, now}; length grows by one, earlier entries are unchanged, and a non-feeding type keeps the feed state |
| `App.BabyLog.LastFeedState` | app.js:27-34 | returns the state of the stored log, and the log does not change |
| `App.BabyLog.ToggleFeed` | app.js:35-42 | appends feed_start when stopped and feed_stop when started, so the state afterwards is the opposite one; the slot afterwards holds the saved new log |
| `App.BabyLog.ClearLog` | app.js:101-103 | the slot is removed and the log is empty |
| `App.BabyLog.Render` | app.js:47-74 | the list shows the stored log newest first (placeholder when empty), the button caption follows the feed state, and the stored log is unchanged |

## Left out

- sw.js (the service worker's install, activate and fetch caching) is not part of this model. It is browser cache and network I/O.
- DOM work is left out: element lookup, `innerHTML`, `createElement`, the event-listener wiring (app.js:87-90) and the `confirm` dialog before clearing. The clear action is modelled only for a confirmed dialog.
- Export through a Blob, an object URL and an anchor click (app.js:91-100) is browser file I/O.
- The 15-second `setInterval` re-render and the service-worker registration (app.js:109-114) are timers and asynchronous browser APIs.
- `formatTime` (`toLocaleString`, app.js:43-46) depends on the locale and the timezone: a row carries the raw timestamp in its place.
- `JSON.parse`/`JSON.stringify` and `localStorage` are abstract. A stored text is known only by whether it is empty and by its parse outcome. `saveLog` followed by `loadLog` is taken to give back the same list, which holds exactly for string types and integer timestamps.
- App.BabyLog.LoadLog: does not model a text that parses to something other than a list of entries (for example `"null"`); app.js returns that value as it is, and a later `push` would throw.
- App.BabyLog.SaveLog: always succeeds; in app.js `localStorage.setItem` (app.js:18) can throw when storage is full or disabled, and then the stored log stays unchanged.
- App.BabyLog.AddEntry: always succeeds, and so does App.BabyLog.ToggleFeed through it; in app.js a throwing `saveLog` aborts `addEntry` (app.js:24) with the stored log unchanged.
- The `console.error` diagnostic in loadLog's recovery (app.js:12) is output only and is not modelled.
- `Date.now()` is a parameter `now`. In `render`, `relativeLabel` reads the clock once per row; the model uses one `now` for the whole list.
- The `render()` call at the end of `addEntry` and after clearing only reads the log, so it is not repeated inside those methods; `Render` models it separately.
- RelativeTime.NatToDecimal: prints every integer in plain decimal; JavaScript switches to exponent notation from 10^21, far beyond any millisecond difference.
- A read-modify-write race between two near-simultaneous additions cannot happen in a single-threaded page, and it is not modelled.
