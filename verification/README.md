# Weekly Intention: widget mirror and widget reader

A Dafny model of the part of the Weekly Intention app that exposes the
current week's intention to its home-screen widget:

- `WidgetSharedStore`, the app-side mirror. It is a single snapshot spread
  over three keys of the shared app-group suite (`widget.weekStartISO`,
  `widget.intentionText`, `widget.updatedAtISO`). Writing sets the three keys
  and then asks WidgetKit to reload kind `WeeklyIntentionWidgetV2`. Reading
  rebuilds a `Snapshot` and gives each field its own fallback.
- `currentISOWeekStart`, the Monday-first week arithmetic. Weeks begin on
  Monday, as in ISO 8601:2004 section 4.1.4. The week start is the start of
  the local day moved back `(weekday + 5) % 7` days, with Sunday = 1 …
  Saturday = 7.
- The widget extension's reader side. It loads the `currentWeekIntention`
  key, which the app's edit sheet writes, and trims whitespace and newlines from both
  ends. It puts that text into its snapshot and timeline entries, asks for a
  refresh 30 minutes later, and shows "Set this week’s intention" for an
  empty intention.

The model is functional. The shared suite is a `Medium`: either
`Unavailable` or `Available(map<string, string>)`. The write is a state
transformer over `Shared(medium, reloads)`. It runs the code's four side
effects in program order: three key sets, then one reload request, which is
appended to a log. The read is a pure function of the medium, the reader's
clock and the calendar's UTC offset. Instants are whole seconds since
1970-01-01T00:00:00Z. The ISO 8601 formatter is an abstract `DateCodec` with
three parts: the fractional-seconds formatter, its parser, and the plain
internet date-time parser (RFC 3339 section 5.6). Whether formatting and
parsing round-trip is never built in. It is the named hypothesis
`FractionalRoundTrip` on the lemmas that need it.

Files: `options.dfy` (Swift `Optional`), `shared_medium.dfy` (the suite),
`iso_week.dfy`, `text_trim.dfy`, `widget_shared_store.dfy`,
`weekly_intention_widget.dfy`.

## Cross-file behaviour modelled as written

- The widget reads only `currentWeekIntention`. The mirror writes only the
  three `widget.*` keys. So a mirror write never changes what the widget
  shows (`MirrorWriteInvisibleToWidget`).
- The mirror reloads kind `WeeklyIntentionWidgetV2`, but the widget
  registers kind `WeeklyIntentionWidget`. So no reload request sent by a
  write is addressed to the widget (`MirrorReloadMissesWidget`). The widget
  is still reloaded in practice: the caller in
  `Weekly Intention/ContentView.swift` (lines 352-356) requests a reload of
  kind `WeeklyIntentionWidget` itself right after calling the write. That
  caller is not part of this model.
- The write stores `text` as given, without trimming it (`ReadAfterWrite`).
- The read falls back field by field. A suite holding none of the three
  mirror keys reads as the zero-value snapshot, whatever other keys it holds
  (for instance `currentWeekIntention`) (`EmptySuiteReadsZero`). A partly
  filled suite mixes stored and fallback fields.

## Model

| member | source | states |
|---|---|---|
| `SharedMedium.StringForKey` | WeeklyIntentionWidget/WeeklyIntentionWidget.swift:15 | A lookup yields a value exactly when the suite could be opened and holds the key, and the value is the stored string. |
| `SharedMedium.SetString` | WidgetSharedStore.swift:14-16 | Setting a key adds it to the suite and makes it read back as the new value. Every other key reads as before. |
| `IsoWeek.StartOfDay` | WidgetSharedStore.swift:47 | The start of day is a day boundary no later than the instant and less than one day before it, on the same local day. |
| `IsoWeek.Weekday` | WidgetSharedStore.swift:48-49 | The weekday lies in 1...7 (Sunday = 1). Local day 0, 1970-01-01, is a Thursday (5), and each later day moves the weekday one place on, modulo 7. |
| `IsoWeek.KnownWeekdays` | WidgetSharedStore.swift:48-49 | Two calendar anchors hold: 1970-01-01 is a Thursday and 2026-10-10 (day 20736) is a Saturday. |
| `IsoWeek.MondayDelta` | WidgetSharedStore.swift:48-51 | For a weekday in 1...7, `(weekday + 5) % 7` lies in 0...6 and steps back from the weekday to a Monday (congruent mod 7). |
| `IsoWeek.MondayDeltaValues` | WidgetSharedStore.swift:48-51 | The delta is 0 exactly for Monday (2) and is 6 for Sunday (1). |
| `IsoWeek.CurrentISOWeekStart` | WidgetSharedStore.swift:43-53 | The week start is a Monday at the start of a day. It is no later than the start of `now`'s day and at most six days before it. |
| `IsoWeek.WeekStartUnique` | WidgetSharedStore.swift:43-53 | Only one instant has those three properties: any Monday start of day at most six days before `now`'s day is the week start. |
| `IsoWeek.WeekStartConstantOnWeek` | WidgetSharedStore.swift:43-53 | Every instant within seven days from a week start maps back to that same week start. |
| `IsoWeek.CurrentISOWeekStartIdempotent` | WidgetSharedStore.swift:43-53 | Applying the week start to its own result returns the same instant. |
| `TextTrim.Trim` | WeeklyIntentionWidget/WeeklyIntentionWidget.swift:16 | The result is a slice of the input that begins and ends with non-whitespace. Only whitespace and newlines lie before and after it. |
| `TextTrim.TrimOfUnique` | WeeklyIntentionWidget/WeeklyIntentionWidget.swift:16 | Cutting whitespace from both ends of a string has exactly one outcome. |
| `TextTrim.TrimFixedPoints` | WeeklyIntentionWidget/WeeklyIntentionWidget.swift:16 | Trimming leaves a string unchanged exactly when it neither starts nor ends with whitespace. |
| `TextTrim.TrimIdempotent` | WeeklyIntentionWidget/WeeklyIntentionWidget.swift:16 | Trimming twice gives the same result as trimming once. |
| `WidgetSharedStore.ParseISODate` | WidgetSharedStore.swift:63-72 | No string parses to no date. Otherwise the fractional-seconds parse wins when it succeeds, else the plain internet date-time parse is the result. |
| `WidgetSharedStore.ParseFormattedDate` | WidgetSharedStore.swift:57-72 | Under the formatter round-trip assumption, a formatted instant parses back to itself. |
| `WidgetSharedStore.Run` | WidgetSharedStore.swift:14-19 | Running side effects never changes whether the suite is available. The reload log grows by exactly the reload requests among the effects, in order. The write's effects (`WriteEffects`) follow the program order of lines 14-19: three key sets, then the reload. |
| `WidgetSharedStore.WriteCurrentWeekIntention` | WidgetSharedStore.swift:11-20 | An unavailable suite makes the write a no-op with no reload request. Otherwise exactly the three mirror keys are set: the formatted week start, the untrimmed text and the formatted write time. All other keys are unchanged, and exactly one reload for `WeeklyIntentionWidgetV2` is logged. |
| `WidgetSharedStore.ReloadFollowsAllKeys` | WidgetSharedStore.swift:14-19 | No reload request is logged before the fourth effect. When the request is sent, the suite already holds its final contents. |
| `WidgetSharedStore.Read` | WidgetSharedStore.swift:23-33 | An unavailable suite reads as (current week start, "", none). A missing or unparseable week start falls back to the current week start. A missing text reads as "". A missing or unparseable update time reads as none. |
| `WidgetSharedStore.ReadAfterWrite` | WidgetSharedStore.swift:11-33 | After a write to an available suite, the read returns the written text exactly, untrimmed. The week start and update time are the parses of their formatted values. |
| `WidgetSharedStore.WriteReadRoundTrip` | WidgetSharedStore.swift:11-33 | With a round-tripping formatter, reading after a write returns exactly (week start, text, write time). |
| `WidgetSharedStore.SecondWriteWins` | WidgetSharedStore.swift:14-16 | After two writes the suite equals what the second write alone produces, and two reload requests are logged. On an unavailable suite nothing changes. |
| `WidgetSharedStore.EmptySuiteReadsZero` | WidgetSharedStore.swift:23-33 | An open suite holding none of the three mirror keys, whatever other keys it holds, reads the same as an unavailable one: the zero-value snapshot. |
| `WeeklyIntentionWidget.LoadCurrentWeekIntention` | WeeklyIntentionWidget/WeeklyIntentionWidget.swift:14-17 | The result is "" when the suite is unavailable or the `currentWeekIntention` key is missing. Otherwise it is the trim of the stored value. It never starts or ends with whitespace. |
| `WeeklyIntentionWidget.LoadedIntentionIsTrimFixedPoint` | WeeklyIntentionWidget/WeeklyIntentionWidget.swift:16 | Trimming the loaded intention again changes nothing. |
| `WeeklyIntentionWidget.Placeholder` | WeeklyIntentionWidget/WeeklyIntentionWidget.swift:20-22 | The placeholder entry always carries "Set this week’s intention". |
| `WeeklyIntentionWidget.GetSnapshot` | WeeklyIntentionWidget/WeeklyIntentionWidget.swift:24-27 | The snapshot entry is stamped with the clock read and carries the trim of the stored `currentWeekIntention` value, or "" when the suite or the key is missing. Its text never starts or ends with whitespace. |
| `WeeklyIntentionWidget.GetTimeline` | WeeklyIntentionWidget/WeeklyIntentionWidget.swift:29-37 | The timeline holds one entry, which carries the loaded intention. Its refresh date is 1800 seconds after the second clock read. |
| `WeeklyIntentionWidget.TimelineRefreshAfterEntry` | WeeklyIntentionWidget/WeeklyIntentionWidget.swift:34-35 | The refresh date is exactly 1800 seconds after the entry when the two clock reads agree. It is at least that late when the clock does not run backwards. |
| `WeeklyIntentionWidget.Shown` | WeeklyIntentionWidget/WeeklyIntentionWidget.swift:49 | The shown text is never empty. An empty intention shows the placeholder, and any other intention is shown unchanged. |
| `WeeklyIntentionWidget.ShownTimelineTextIsTrimmed` | WeeklyIntentionWidget/WeeklyIntentionWidget.swift:29-49 | A timeline entry's shown text is non-empty and neither starts nor ends with whitespace. |
| `WeeklyIntentionWidget.MirrorWriteInvisibleToWidget` | WeeklyIntentionWidget/WeeklyIntentionWidget.swift:12-16 | A mirror write, which sets only `widget.*` keys, leaves the loaded intention and the whole timeline unchanged. |
| `WeeklyIntentionWidget.MirrorReloadMissesWidget` | WeeklyIntentionWidget/WeeklyIntentionWidget.swift:68-69 | A mirror write only appends to the reload log, and none of the requests it appends names the widget's kind `WeeklyIntentionWidget`. |

## Left out

- Calendar and time zones: the calendar is a fixed UTC offset with 86400-second days. Daylight-saving transitions and `TimeZone.current` are not modelled.
- `IsoWeek.CurrentISOWeekStart`: the `?? startOfDay` fallback of `cal.date(byAdding:)` is not modelled, because adding whole days in a fixed-offset calendar always succeeds.
- Instants are whole seconds. `Date`'s fractional seconds and floating-point representation are not modelled.
- `ISO8601DateFormatter`'s text format is abstract (`DateCodec`). Any round trip of the week start or update time is stated only under the `FractionalRoundTrip` hypothesis.
- `UserDefaults` holds only strings here. Its coercion of non-string values in `string(forKey:)`, its persistence and its cross-process visibility and atomicity are not modelled. A reader between two key sets is a concurrency concern; `ReloadFollowsAllKeys` states only the order of effects in the writer.
- `WidgetCenter.reloadTimelines` is an appended log entry. What WidgetKit does with it is not modelled.
- Wall-clock `Date()` reads are parameters: `now` for the write, `now` and `zone` for the read, and `entryNow` and `refreshNow` for the timeline.
- Trimming works on Unicode scalars. Swift's grapheme-cluster `Character` view is not modelled; the whitespace-and-newline set is all single scalars.
- SwiftUI and WidgetKit presentation is not modelled: view layout, fonts, `containerBackground`, `#Preview`, `StaticConfiguration` and the widget bundle. Only the text chosen for display (`Shown`) is modelled.
- The intention record store, its duplicate handling, network reachability and sync status, the reconciliation triggers and the older `WidgetCache` writer are not part of this model.
