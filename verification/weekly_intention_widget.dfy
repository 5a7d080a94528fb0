/**
  The widget extension's reader side: it loads the `currentWeekIntention`
  key (written by the app's edit sheet) from the shared suite, trims it,
  hands it to its timeline entries, and shows a placeholder for an empty
  intention.
  Wall-clock reads (`Date()`) are parameters.
 */
module WeeklyIntentionWidget {
  import opened SharedMedium
  import opened TextTrim
  import opened IsoWeek
  import WidgetSharedStore

  /** The only key the widget reads. */
  const CurrentWeekKey: string := "currentWeekIntention"

  /** The kind the widget registers with WidgetKit. */
  const WidgetKind: string := "WeeklyIntentionWidget"

  const PlaceholderText: string := "Set this week\U{2019}s intention"

  /** Seconds from a timeline's entry to its requested refresh: 30 minutes. */
  const RefreshInterval: int := 60 * 30

  datatype SimpleEntry = SimpleEntry(date: Instant, intention: string)

  /** WidgetKit's `.after(date)` reload policy, the only one used here. */
  datatype ReloadPolicy = After(date: Instant)

  datatype Timeline = Timeline(entries: seq<SimpleEntry>, policy: ReloadPolicy)

  /** `loadCurrentWeekIntention()`: the stored `currentWeekIntention` value, or "" when the
      suite is unavailable or the key is missing, with whitespace and
      newlines trimmed from both ends. */
  function LoadCurrentWeekIntention(m: Medium): (r: string)
    ensures IsTrimmed(r)
    ensures StringForKey(m, CurrentWeekKey).None? ==> r == ""
    ensures StringForKey(m, CurrentWeekKey).Some? ==> IsTrimOf(StringForKey(m, CurrentWeekKey).value, r)
  {
    var raw := StringForKey(m, CurrentWeekKey).GetOr("");
    var r := Trim(raw);
    r
  }

  /** Trimming the loaded intention again changes nothing. */
  lemma {:induction false} LoadedIntentionIsTrimFixedPoint(m: Medium)
    ensures Trim(LoadCurrentWeekIntention(m)) == LoadCurrentWeekIntention(m)
  {
    TrimFixedPoints(LoadCurrentWeekIntention(m));
  }

  /** `Provider.placeholder(in:)`. */
  function Placeholder(now: Instant): (e: SimpleEntry)
    ensures e.date == now && e.intention == PlaceholderText
  {
    SimpleEntry(now, PlaceholderText)
  }

  /** `Provider.getSnapshot(in:completion:)`: one entry stamped `now`
      carrying the loaded, trimmed intention. */
  function GetSnapshot(m: Medium, now: Instant): (e: SimpleEntry)
    ensures e.date == now
    ensures IsTrimmed(e.intention)
    ensures StringForKey(m, CurrentWeekKey).None? ==> e.intention == ""
    ensures StringForKey(m, CurrentWeekKey).Some? ==> IsTrimOf(StringForKey(m, CurrentWeekKey).value, e.intention)
  {
    SimpleEntry(now, LoadCurrentWeekIntention(m))
  }

  /** `Provider.getTimeline(in:completion:)`. The code reads the clock twice,
      once for the entry (`entryNow`) and once for the refresh date
      (`refreshNow`). */
  function GetTimeline(m: Medium, entryNow: Instant, refreshNow: Instant): (t: Timeline)
    ensures |t.entries| == 1
    ensures t.entries[0].date == entryNow
    ensures t.entries[0].intention == LoadCurrentWeekIntention(m)
    ensures t.policy.date - refreshNow == RefreshInterval
  {
    Timeline([GetSnapshot(m, entryNow)], After(refreshNow + RefreshInterval))
  }

  /** When both clock reads agree, the next refresh is exactly 1800 seconds
      after the single entry; with a clock that does not run backwards it is
      at least that late. */
  lemma TimelineRefreshAfterEntry(m: Medium, entryNow: Instant, refreshNow: Instant)
    requires entryNow <= refreshNow
    ensures var t := GetTimeline(m, entryNow, refreshNow);
      && t.policy.date >= t.entries[0].date + 1800
      && (refreshNow == entryNow ==> t.policy.date == t.entries[0].date + 1800)
  {
  }

  /** The text `WeeklyIntentionWidgetEntryView` shows for an entry: the
      placeholder for an empty intention, the intention itself otherwise. */
  function Shown(e: SimpleEntry): (r: string)
    ensures |r| > 0
    ensures e.intention == "" ==> r == PlaceholderText
    ensures e.intention != "" ==> r == e.intention
  {
    if e.intention == "" then PlaceholderText else e.intention
  }

  /** What a timeline entry shows is never empty and never starts or ends
      with whitespace: either the placeholder or the trimmed intention. */
  lemma {:induction false} ShownTimelineTextIsTrimmed(m: Medium, entryNow: Instant, refreshNow: Instant)
    ensures var shown := Shown(GetTimeline(m, entryNow, refreshNow).entries[0]);
      && |shown| > 0
      && IsTrimmed(shown)
  {
    var c0, cn := PlaceholderText[0], PlaceholderText[|PlaceholderText| - 1];
    assert c0 == 'S' && cn == 'n';
    assert !IsWhitespaceOrNewline(c0) && !IsWhitespaceOrNewline(cn);
  }

  /** The widget reads only `currentWeekIntention`, which the mirror never writes:
      a mirror write leaves what the widget loads, and hence its timeline,
      unchanged. */
  lemma {:induction false} MirrorWriteInvisibleToWidget(
    codec: WidgetSharedStore.DateCodec, s: WidgetSharedStore.Shared,
    weekStart: Instant, text: string, now: Instant, entryNow: Instant, refreshNow: Instant)
    ensures var s' := WidgetSharedStore.WriteCurrentWeekIntention(codec, s, weekStart, text, now);
      && LoadCurrentWeekIntention(s'.medium) == LoadCurrentWeekIntention(s.medium)
      && GetTimeline(s'.medium, entryNow, refreshNow) == GetTimeline(s.medium, entryNow, refreshNow)
  {
    assert CurrentWeekKey !in WidgetSharedStore.MirrorKeys;
  }

  /** The mirror asks WidgetKit to reload a kind other than the one this
      widget registers, so none of the requests a write logs reaches it. */
  lemma {:induction false} MirrorReloadMissesWidget(
    codec: WidgetSharedStore.DateCodec, s: WidgetSharedStore.Shared,
    weekStart: Instant, text: string, now: Instant)
    ensures var s' := WidgetSharedStore.WriteCurrentWeekIntention(codec, s, weekStart, text, now);
      && s.reloads <= s'.reloads
      && WidgetKind !in s'.reloads[|s.reloads|..]
  {
    var s' := WidgetSharedStore.WriteCurrentWeekIntention(codec, s, weekStart, text, now);
    if s.medium.Available? {
      assert s'.reloads[|s.reloads|..] == [WidgetSharedStore.ReloadKind];
    }
  }
}
