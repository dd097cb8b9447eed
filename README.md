# Exhibit kiosk — a Dafny model

The exhibit kiosk shows detection events (people and faces seen by a camera)
as a grid of "ID card" tiles. The model covers three parts of the system.

- **Detection adapter** (`express-mqtt-server/mqttEvents.js`). It reads one
  observation per MQTT message and picks its class: the singular `class`, or
  the best-scoring `Human` among `classes`, or else the best-scoring class.
  It turns the base64 image into a `data:` URL. It drops any observation
  whose id is among the last ten recorded. It lets only `Human` and `Face`
  through, with a score of at least 0.3 when a score is present, and
  publishes one event for each observation that passes.
- **Kiosk front end** (`exhibit-kiosk/src/App.tsx`). Arrivals wait in
  `pending`. Promotion moves as many of them as fit into the fixed-size
  `visible` window. Once the window is full, a clear cycle runs: a pause,
  then the vanish animation. The cycle empties the window and triggers a
  light, at most once per 500 ms.
- **Presentation logic.** Each tile types out its lines (`Card.tsx`,
  `TypeLines.tsx`), and `fmt` formats metadata values (`format.ts`). The
  narration player pages through a text file three lines at a time and
  types it out (`Narration.tsx`).

Modules:

- `Wrappers`: `Option`.
- `Format`: parsed JSON values, decimal rendering of integers, and `fmt`.
- `Event`: the displayed item.
- `Card`: a tile's lines.
- `TypeLines`: the per-tile typewriter, a class that types into an array.
- `Narration`: splitting into lines and pages, and the `Player` class.
- `Kiosk`: the batch buffer and clear cycle, the `Kiosk` class.
- `MqttEvents`: the adapter, with the `Relay` class that owns the recent-id
  buffer.

Each React effect or timer callback becomes one atomic method on a class
whose fields are the component's state. The two timers of a clear cycle are
the phases `Paused` and `Clearing`, and firing a timer is a method call. The
current time is an argument wherever the source reads the clock.

## Model

| member | source | states |
|---|---|---|
| Format.Entries | exhibit-kiosk/src/components/Card.tsx:17 | `Object.entries` of a non-string value: an object's own entries, or an array's `(String(k), items[k])` pairs, or nothing |
| Format.IndexedEntries | exhibit-kiosk/src/components/Card.tsx:17 | the k-th pair of an array's entries is the decimal index `k` with the k-th element |
| Format.NatToDecimal | exhibit-kiosk/src/lib/format.ts:5 | the rendering of a natural number is non-empty, made of digits only, with no leading zero |
| Format.IntToString | exhibit-kiosk/src/lib/format.ts:5 | `String(n)` starts with `-` exactly when `n` is negative |
| Format.DecimalRoundTrip | exhibit-kiosk/src/lib/format.ts:5 | the digits of `n` have value `n` |
| Format.NatRoundTrip | exhibit-kiosk/src/lib/format.ts:5 | the digits of `n` parse back to `n` as a canonical numeral |
| Format.IntToStringRoundTrip | exhibit-kiosk/src/lib/format.ts:5 | `String(n)` of an integer reads back as `n` |
| Format.IntToStringInjective | exhibit-kiosk/src/lib/format.ts:5 | two integers render to the same text exactly when they are equal |
| Format.Truthy | exhibit-kiosk/src/components/Card.tsx:11-13 | JavaScript truthiness: every value is truthy except `undefined`, `null`, `false`, `0` and the empty string |
| Format.Fmt | exhibit-kiosk/src/lib/format.ts:1-6 | `null`/`undefined` give ""; a string is itself; a boolean gives "true"/"false"; a number gives text that reads back as that number; arrays and objects go to `JSON.stringify` |
| Card.FieldLines | exhibit-kiosk/src/components/Card.tsx:11-12 | a title or subtitle gives one line when non-empty and none otherwise |
| Card.MetaLineCount | exhibit-kiosk/src/components/Card.tsx:13-19 | falsy metadata counts no line, a string one, any other truthy value one per `Object.entries` pair: an object one per entry, an array one per element, a number or boolean none |
| Card.EntryLine | exhibit-kiosk/src/components/Card.tsx:18 | an entry's line is its key, then `: `, then `fmt` of its value |
| Card.EntryLines | exhibit-kiosk/src/components/Card.tsx:17-19 | one `key: value` line per entry, in entry order |
| Card.MetaLines | exhibit-kiosk/src/components/Card.tsx:13-21 | falsy metadata gives no line; a string gives itself; anything else gives `key: fmt(value)` for each entry, in order |
| Card.Lines | exhibit-kiosk/src/components/Card.tsx:9-23 | a tile's lines are the title first, then the subtitle (each only when non-empty), then exactly the metadata lines; the count adds up |
| Card.PushEntryLines | exhibit-kiosk/src/components/Card.tsx:17-19 | the `for` loop appends exactly the entry lines, in order, to what the array held |
| Card.BuildLines | exhibit-kiosk/src/components/Card.tsx:9-23 | the imperative builder produces exactly `Lines` |
| TypeLines.Typewriter.constructor | exhibit-kiosk/src/components/TypeLines.tsx:17-22 | one empty string per line, nothing typed, and the remaining work is the full cost of the lines |
| TypeLines.Typewriter.Tick | exhibit-kiosk/src/components/TypeLines.tsx:24-36 | a cancelled or finished typewriter does nothing; otherwise it shows the next prefix of the current line, or moves to the next line once the whole line is shown; each rescheduled tick lowers the remaining work by one, and the typed-prefix invariant holds |
| TypeLines.Typewriter.Cancel | exhibit-kiosk/src/components/TypeLines.tsx:39-42 | after cleanup no state changes and later ticks do nothing |
| TypeLines.Typewriter.Finished | exhibit-kiosk/src/components/TypeLines.tsx:24-36 | past the last line, the output holds every line in full |
| TypeLines.TypeAll | exhibit-kiosk/src/components/TypeLines.tsx:17-43 | an uncancelled run ends with every line typed in full, after exactly `Cost(lines)` working ticks |
| Narration.Normalize | exhibit-kiosk/src/components/Narration.tsx:22 | CR LF replacement never lengthens the text |
| Narration.NormalizeFrom | exhibit-kiosk/src/components/Narration.tsx:22 | the left-to-right scan from an index never yields more characters than remain |
| Narration.NormalizeNoCrLf | exhibit-kiosk/src/components/Narration.tsx:22 | text with no CR LF pair is left unchanged |
| Narration.NormalizeAppend | exhibit-kiosk/src/components/Narration.tsx:22 | text that does not start with LF is normalised the same whatever precedes it |
| Narration.CrLfBecomesLf | exhibit-kiosk/src/components/Narration.tsx:22 | each CR LF pair becomes one LF, and the text on either side is normalised independently |
| Narration.Split | exhibit-kiosk/src/components/Narration.tsx:22 | splitting on LF yields at least one piece, and no piece contains an LF |
| Narration.Join | exhibit-kiosk/src/components/Narration.tsx:35 | joining gives "" for no lines, and otherwise the lines' characters plus one LF between each two, starting with the first line |
| Narration.JoinSplit | exhibit-kiosk/src/components/Narration.tsx:22 | joining the split pieces with LF gives the text back |
| Narration.SplitJoin | exhibit-kiosk/src/components/Narration.tsx:32-36 | lines without LF survive a join followed by a split |
| Narration.LoadLines | exhibit-kiosk/src/components/Narration.tsx:17-24 | the loaded lines contain no LF, there is at least one, and they join back into the normalised text |
| Narration.PageLines | exhibit-kiosk/src/components/Narration.tsx:34 | a page holds the (at most three) lines from the page start on, in order |
| Narration.PageText | exhibit-kiosk/src/components/Narration.tsx:32-36 | no lines give ""; a page's text splits back into exactly that page's lines |
| Narration.NextPageStart | exhibit-kiosk/src/components/Narration.tsx:50-57 | the next page start is the following page, or 0 exactly when that would pass the last line; it stays a multiple of three and below the line count |
| Narration.Player.constructor | exhibit-kiosk/src/components/Narration.tsx:9-12 | mounted with no lines, nothing shown and no timer |
| Narration.Player.Rerender | exhibit-kiosk/src/components/Narration.tsx:31-46 | the page text is recomputed; typing restarts only when that text changed; a timer is scheduled exactly when there is text |
| Narration.Player.Load | exhibit-kiosk/src/components/Narration.tsx:17-24 | loading sets the lines of the text and shows the first page from its start |
| Narration.Player.Step | exhibit-kiosk/src/components/Narration.tsx:44-73 | with no timer nothing happens; an unfinished page gains its next character; a finished page moves the start to the next page, and when that leaves the start unchanged the player stops with no timer |
| Narration.Player.Unmount | exhibit-kiosk/src/components/Narration.tsx:26-28 | unmounting clears the timer and changes nothing shown |
| Kiosk.Accept | exhibit-kiosk/src/App.tsx:45-63 | a message becomes an item exactly when it has a non-empty image URL; fields are copied; the id falls back to a synthesised one; the alt text falls back to the title, then "image", and is never empty |
| Kiosk.LightAccepts | exhibit-kiosk/src/App.tsx:98 | a trigger passes exactly when at least 500 ms have gone by since the last accepted one |
| Kiosk.PromoteCount | exhibit-kiosk/src/App.tsx:74-80 | nothing is promoted while clearing, with a full window or with nothing pending; otherwise the window is filled as far as pending allows and never overfilled |
| Kiosk.Blanks | exhibit-kiosk/src/App.tsx:34-36 | `count` blanks, the k-th keyed `blank-k` |
| Kiosk.BlankIdsDiffer | exhibit-kiosk/src/App.tsx:35 | distinct blank indices give distinct keys |
| Kiosk.Tiles | exhibit-kiosk/src/App.tsx:37 | one tile per visible item, in order |
| Kiosk.Slots | exhibit-kiosk/src/App.tsx:33-38 | the grid has max(N, number of visible items) cells: the visible items in order, then blanks |
| Kiosk.SlotKeysDistinct | exhibit-kiosk/src/App.tsx:143-148 | the blank cells of the grid carry pairwise distinct React keys |
| Kiosk.Kiosk.constructor | exhibit-kiosk/src/App.tsx:25-30 | empty queue and window, not clearing, total 0, light cooldown 0 |
| Kiosk.Kiosk.Arrive | exhibit-kiosk/src/App.tsx:45-64 | an accepted item joins the back of `pending` in every phase; nothing else changes |
| Kiosk.Kiosk.Promote | exhibit-kiosk/src/App.tsx:74-85 | the first `take` pending items move, in order, to the back of the window, and `total` grows by `take`; the order of `visible + pending` is kept; no item is lost or duplicated (`Valid`) |
| Kiosk.Kiosk.StartClear | exhibit-kiosk/src/App.tsx:88-93 | a cycle is scheduled exactly when none is running and the window is full, capturing the window size |
| Kiosk.Kiosk.PauseElapsed | exhibit-kiosk/src/App.tsx:115-117 | the pause timer starts the clearing phase with the captured count |
| Kiosk.Kiosk.TriggerLight | exhibit-kiosk/src/App.tsx:95-99 | a trigger within 500 ms of the last accepted one is dropped and keeps the old timestamp; otherwise it is recorded and the cooldown moves to now; accepted triggers stay at least 500 ms apart |
| Kiosk.Kiosk.FinishClear | exhibit-kiosk/src/App.tsx:120-124 | the window empties, clearing ends, `pending` is untouched, the cleared items are recorded in order, and the light is triggered with the captured count subject to the cooldown |
| Kiosk.Mount | exhibit-kiosk/src/config.ts:4 | the app mounts a kiosk with the configured window size of 12 and an empty grid of 12 blanks |
| Kiosk.ClearThenRefill | exhibit-kiosk/src/App.tsx:74-126 | a cycle that ends with a window's worth pending refills the window with the oldest pending items and starts the next cycle |
| Kiosk.FillTwoSlots | exhibit-kiosk/src/App.tsx:45-85 | with a two-item window, three arrivals fill the window with the first two and leave the third pending |
| Kiosk.TwoSlotCycle | exhibit-kiosk/src/App.tsx:45-126 | a full cycle with a two-item window shows the first two items, then the third, and triggers the light once with count 2 |
| MqttEvents.Humans | express-mqtt-server/mqttEvents.js:36 | the `Human` entries: all of them and only them |
| MqttEvents.HumansAppend | express-mqtt-server/mqttEvents.js:36 | the filter keeps list order: appending an entry appends it to the `Human` entries exactly when it is one |
| MqttEvents.HumanPosition | express-mqtt-server/mqttEvents.js:36 | the `b`-th `Human` entry sits at an index of the list, and the `Human` entries before that index are exactly the first `b` |
| MqttEvents.ReportedScore | express-mqtt-server/mqttEvents.js:32 | `score ?? confidence` |
| MqttEvents.RankScore | express-mqtt-server/mqttEvents.js:37 | the sort key `score ?? 0` |
| MqttEvents.BestIndex | express-mqtt-server/mqttEvents.js:37 | the first entry after a stable descending sort on `score ?? 0`: a maximum, and strictly above every entry before it |
| MqttEvents.FirstBest | express-mqtt-server/mqttEvents.js:36-37 | the entry the stable sort puts first is, in the original list, a candidate ranked strictly above every candidate before it |
| MqttEvents.ChosenEntry | express-mqtt-server/mqttEvents.js:29-40 | a typed singular `class` wins; otherwise a non-empty `classes` yields a best-scoring `Human` when there is one, else a best-scoring entry, and among equal scores the first candidate in list order; otherwise no entry |
| MqttEvents.GetClassInfo | express-mqtt-server/mqttEvents.js:29-41 | the chosen entry's type and `score ?? confidence`, or neither |
| MqttEvents.LeadingSpace | express-mqtt-server/mqttEvents.js:45 | the length of the longest white-space prefix |
| MqttEvents.TrailingSpace | express-mqtt-server/mqttEvents.js:45 | the length of the longest white-space suffix |
| MqttEvents.Trim | express-mqtt-server/mqttEvents.js:45 | `trim()` returns the slice after the leading white space, with only white space after it, and neither starts nor ends with white space |
| MqttEvents.Pad | express-mqtt-server/mqttEvents.js:47-48 | padding extends the payload with at most three `=` up to a multiple of four, and leaves an aligned payload unchanged |
| MqttEvents.MimeFor | express-mqtt-server/mqttEvents.js:51 | `image/jpeg` exactly when the payload starts with `/9j/`, and `image/*` otherwise |
| MqttEvents.ToDataUrlMaybe | express-mqtt-server/mqttEvents.js:43-53 | no URL for a non-string or a string shorter than 8; otherwise a `data:` URL that reads back as the media type and the trimmed, padded payload |
| MqttEvents.DataUrlRoundTrip | express-mqtt-server/mqttEvents.js:52 | a media type without `;` and any payload are read back from the URL built from them |
| MqttEvents.IdTruthy | express-mqtt-server/mqttEvents.js:65 | an id passes `!obsId` exactly when its JSON value is truthy |
| MqttEvents.ObsIdOf | express-mqtt-server/mqttEvents.js:63-65 | `track_id ?? id`, kept only when truthy |
| MqttEvents.IdString | express-mqtt-server/mqttEvents.js:76 | `${obsId}`: a string id is itself, a number its decimal `String`, a boolean `true`/`false` |
| MqttEvents.Remember | express-mqtt-server/mqttEvents.js:66-68 | the new id is pushed at the back; the oldest is shifted out beyond ten; the buffer never exceeds ten and stays free of duplicates |
| MqttEvents.PassesGate | express-mqtt-server/mqttEvents.js:70-71 | an observation passes exactly when its type is `Human` or `Face` and its score, when present, is at least 0.3 |
| MqttEvents.BuildEvent | express-mqtt-server/mqttEvents.js:73-88 | the title is `Observe <type>`; the time stamp is the frame's or now; the subtitle is the locale time of that stamp; the id is `topic-ts-obsId`; the observation count is the observations' length, or 1 when that is missing or 0; the box is `bounding_box`, else the image's; the image URL is built only from truthy image data |
| MqttEvents.Relay.constructor | express-mqtt-server/mqttEvents.js:13-15 | the recent-id buffer starts empty |
| MqttEvents.Relay.OnMessage | express-mqtt-server/mqttEvents.js:55-95 | an unparsable message, a falsy id or a recently seen id changes nothing and publishes nothing; a new id is remembered before the class gate, and exactly the observations that pass the gate publish their event |
| MqttEvents.DeliverTwice | express-mqtt-server/mqttEvents.js:63-68 | the same message delivered twice publishes once when it passes the gate, and never otherwise |

## Left out

- Network and I/O are not modelled. This covers the `EventSource` stream, the light `POST`, the narration file fetch, the MQTT connection and subscription, and the event bus. Each is replaced by a method call carrying the data that would arrive.
- `express-mqtt-server/sse-server.js` is not part of this model. It only forwards bus events to browsers and answers the light endpoint.
- The image preload in the message handler is left out. Its `await pre.decode()` can let a later message overtake an earlier one; the model appends items in the order `Arrive` is called.
- `Date.now()` and `Math.random()` are left out. The synthesised item id is the `freshId` argument and the clock is the `now` argument.
- `toLocaleTimeString` is the `localeTime` argument, and `JSON.stringify` is the `stringify` argument. Neither is modelled.
- Numbers inside parsed JSON values are integers. Fractional numbers and their `String` rendering are not modelled.
- `Format.Fmt`: integers are unbounded and always render in full decimal. JavaScript's `String` switches to exponent form from 1e21 on (`"1e+21"`), and `JSON.parse` rounds integers above 2^53; neither is modelled.
- `MqttEvents.GetClassInfo`: a `null` entry in `classes` makes the source throw at `c.type`, before the id is recorded; the handler catches it, so that message publishes nothing and records no id. `ClassEntry` cannot be `null`, so this case is not modelled. Scores in the adapter are reals; float rounding and NaN scores are not modelled.
- Strings are sequences of Unicode scalar values, not UTF-16 code units. `length` and slicing on astral characters differ.
- `MqttEvents.ObsIdOf`: ids are strings, numbers or booleans. Object or array ids, which `includes` compares by reference, are not modelled.
- `MqttEvents.BuildEvent`: frame timestamps are integers. A string or other non-number `frame.timestamp`, which the source passes unchanged into the event id and `timestamp` and hands to `new Date`, is not modelled.
- `Kiosk.Accept`: message fields other than `meta` are optional strings. Non-string `id`/`title`/`alt` values and their `String(...)` conversion are not modelled.
- `Kiosk.Kiosk.StartClear`: the effect's re-triggering on dependency changes is modelled as the guard `phase == Filling`. A full window does not start a second cycle while one is already scheduled.
- React rendering, animation, CSS and the real timer durations (pause 1000 ms, animation 750 ms, typing intervals) are not modelled. Only the order in which the callbacks fire is.
- The status text, the console logging (including the score percentage) and the `console.error` paths are not modelled.
- The kiosk never cancels the clear-cycle timers on unmount; its effect cleanup only closes the stream. There is therefore no teardown operation for `Kiosk`.
- The commented-out alternative message handler at the end of `mqttEvents.js` is not modelled.
- The comments in `App.tsx` speak of an 8-item grid, but the configuration sets 12 (`exhibit-kiosk/src/config.ts:4`). The model follows the configuration: `Kiosk.BatchSize` is 12 and `Kiosk.Mount` uses it, while the `Kiosk` class takes the window size as a constructor argument so that scenarios can use a smaller window.
- The narration player stalls when the text has at most three lines. After the first page is typed, the next page start is again 0, so nothing re-renders and no further timer is scheduled. `Narration.Player.Step` states this behaviour as the source has it.
