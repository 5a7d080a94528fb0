/**
  The app-side mirror of the current week's intention: a single snapshot
  spread over three keys of the shared suite, written by the app and read
  back by `read()`.

  The write is modelled as the ordered list of side effects the Swift code
  performs (three `defaults.set` calls, then one `reloadTimelines`), run
  over a state made of the medium and a log of reload requests. The
  ISO 8601 formatter is abstract: `DateCodec` holds the formatter with
  fractional seconds, its parser, and the parser without fractional seconds.
 */
module WidgetSharedStore {
  import opened Options
  import opened SharedMedium
  import opened IsoWeek

  const KeyWeekStartISO: string := "widget.weekStartISO"
  const KeyIntentionText: string := "widget.intentionText"
  const KeyUpdatedAt: string := "widget.updatedAtISO"

  /** The three keys a write touches. */
  const MirrorKeys: set<string> := {KeyWeekStartISO, KeyIntentionText, KeyUpdatedAt}

  /** The widget kind the write asks WidgetKit to reload. */
  const ReloadKind: string := "WeeklyIntentionWidgetV2"

  /** `ISO8601DateFormatter` configured `[.withInternetDateTime,
      .withFractionalSeconds]` (format and parse), and the parser configured
      `[.withInternetDateTime]` alone. */
  datatype DateCodec = DateCodec(
    formatFractional: Instant -> string,
    parseFractional: string -> Option<Instant>,
    parseInternet: string -> Option<Instant>)

  /** The assumption that formatting with fractional seconds and parsing back
      returns the same instant. It holds of whole-second instants, but it is
      a property of the formatter, not of this code, so lemmas take it as a
      hypothesis. */
  ghost predicate FractionalRoundTrip(codec: DateCodec)
  {
    forall t :: codec.parseFractional(codec.formatFractional(t)) == Some(t)
  }

  datatype Snapshot = Snapshot(weekStart: Instant, text: string, updatedAt: Option<Instant>)

  /** One side effect of the write path. */
  datatype Effect = SetKey(key: string, value: string) | ReloadTimelines(kind: string)

  /** The shared suite plus the reload requests sent to WidgetKit so far. */
  datatype Shared = Shared(medium: Medium, reloads: seq<string>)

  /** `parseISODate`: nothing for nothing; otherwise the fractional-seconds
      parse, falling back to the plain internet date-time parse. */
  function ParseISODate(codec: DateCodec, str: Option<string>): (r: Option<Instant>)
    ensures str.None? ==> r.None?
    ensures str.Some? && codec.parseFractional(str.value).Some? ==> r == codec.parseFractional(str.value)
    ensures str.Some? && codec.parseFractional(str.value).None? ==> r == codec.parseInternet(str.value)
  {
    match str
    case None => None
    case Some(s) =>
      var d := codec.parseFractional(s);
      if d.Some? then d else codec.parseInternet(s)
  }

  /** A formatted instant parses back to itself under the round-trip
      assumption; the plain parser is never consulted. */
  lemma ParseFormattedDate(codec: DateCodec, t: Instant)
    requires FractionalRoundTrip(codec)
    ensures ParseISODate(codec, Some(codec.formatFractional(t))) == Some(t)
  {
  }

  /** Performs one effect. A key can only be set in an open suite; the write
      path never gets that far otherwise. */
  function Perform(s: Shared, e: Effect): Shared
  {
    match e
    case SetKey(k, v) =>
      if s.medium.Available? then s.(medium := SetString(s.medium, k, v)) else s
    case ReloadTimelines(kind) => s.(reloads := s.reloads + [kind])
  }

  /** The kinds of the reload requests among `es`, in order. */
  function ReloadsOf(es: seq<Effect>): seq<string>
  {
    if es == [] then []
    else (if es[0].ReloadTimelines? then [es[0].kind] else []) + ReloadsOf(es[1..])
  }

  /** Performs `es` in order. Availability never changes and the reload log
      only grows by the reloads among `es`. */
  function Run(s: Shared, es: seq<Effect>): (r: Shared)
    ensures r.medium.Available? <==> s.medium.Available?
    ensures s.medium.Unavailable? ==> r.medium == s.medium
    ensures r.reloads == s.reloads + ReloadsOf(es)
    decreases |es|
  {
    if es == [] then s
    else
      var r := Run(Perform(s, es[0]), es[1..]);
      assert s.reloads + ReloadsOf(es) == Perform(s, es[0]).reloads + ReloadsOf(es[1..]);
      r
  }

  /** Running a concatenation is running its parts one after the other. */
  lemma {:induction false} RunAppend(s: Shared, a: seq<Effect>, b: seq<Effect>)
    ensures Run(s, a + b) == Run(Run(s, a), b)
    decreases |a|
  {
    if a == [] {
      assert a + b == b;
    } else {
      assert (a + b)[0] == a[0];
      assert (a + b)[1..] == a[1..] + b;
      RunAppend(Perform(s, a[0]), a[1..], b);
    }
  }

  /** The side effects of `writeCurrentWeekIntention`, in program order. */
  function WriteEffects(codec: DateCodec, weekStart: Instant, text: string, now: Instant): seq<Effect>
  {
    [ SetKey(KeyWeekStartISO, codec.formatFractional(weekStart)),
      SetKey(KeyIntentionText, text),
      SetKey(KeyUpdatedAt, codec.formatFractional(now)),
      ReloadTimelines(ReloadKind) ]
  }

  /** `writeCurrentWeekIntention(weekStart:text:)`, with the wall clock read
      passed in as `now`. An unavailable suite makes it a no-op. Otherwise
      exactly the three mirror keys change, the text is stored as given
      (untrimmed), and exactly one reload request is logged. */
  function WriteCurrentWeekIntention(
    codec: DateCodec, s: Shared, weekStart: Instant, text: string, now: Instant): (s': Shared)
    ensures s.medium.Unavailable? ==> s' == s
    ensures s.medium.Available? ==>
      && s'.medium.Available?
      && s'.medium.defaults.Keys == s.medium.defaults.Keys + MirrorKeys
      && StringForKey(s'.medium, KeyWeekStartISO) == Some(codec.formatFractional(weekStart))
      && StringForKey(s'.medium, KeyIntentionText) == Some(text)
      && StringForKey(s'.medium, KeyUpdatedAt) == Some(codec.formatFractional(now))
      && (forall k :: k !in MirrorKeys ==> StringForKey(s'.medium, k) == StringForKey(s.medium, k))
      && s'.reloads == s.reloads + [ReloadKind]
  {
    if s.medium.Unavailable? then s
    else
      var es := WriteEffects(codec, weekStart, text, now);
      RunUnrolled(s, es);
      Run(s, es)
  }

  /** A run of four effects performs them one by one. */
  lemma RunUnrolled(s: Shared, es: seq<Effect>)
    requires |es| == 4
    ensures Run(s, es) == Perform(Perform(Perform(Perform(s, es[0]), es[1]), es[2]), es[3])
  {
    var s1 := Perform(s, es[0]);
    var s2 := Perform(s1, es[1]);
    var s3 := Perform(s2, es[2]);
    var s4 := Perform(s3, es[3]);
    assert Run(s, es) == Run(s1, es[1..]);
    assert es[1..][0] == es[1] && es[1..][1..] == es[2..];
    assert Run(s1, es[1..]) == Run(s2, es[2..]);
    assert es[2..][0] == es[2] && es[2..][1..] == es[3..];
    assert Run(s2, es[2..]) == Run(s3, es[3..]);
    assert es[3..][0] == es[3] && es[3..][1..] == [];
    assert Run(s3, es[3..]) == Run(s4, []);
  }

  /** `read()`, with the wall clock and the calendar's offset passed in for
      the week-start fallback. Each field falls back on its own: a missing or
      unparseable week start gives the current week's start, a missing text
      gives "", a missing or unparseable update time gives nothing. An
      unavailable suite gives the zero-value snapshot. */
  function Read(codec: DateCodec, m: Medium, now: Instant, zone: int): (r: Snapshot)
    ensures m.Unavailable? ==> r == Snapshot(CurrentISOWeekStart(now, zone), "", None)
    ensures r.text == StringForKey(m, KeyIntentionText).GetOr("")
    ensures r.weekStart == ParseISODate(codec, StringForKey(m, KeyWeekStartISO)).GetOr(CurrentISOWeekStart(now, zone))
    ensures r.updatedAt == ParseISODate(codec, StringForKey(m, KeyUpdatedAt))
  {
    match m
    case Unavailable => Snapshot(CurrentISOWeekStart(now, zone), "", None)
    case Available(_) =>
      var weekStart := ParseISODate(codec, StringForKey(m, KeyWeekStartISO)).GetOr(CurrentISOWeekStart(now, zone));
      var text := StringForKey(m, KeyIntentionText).GetOr("");
      var updatedAt := ParseISODate(codec, StringForKey(m, KeyUpdatedAt));
      Snapshot(weekStart, text, updatedAt)
  }

  /** The reload request is the write's last effect: at every point before
      it no request has been logged, and by the time it is sent the medium
      already holds all three keys in their final form. */
  lemma {:induction false} ReloadFollowsAllKeys(
    codec: DateCodec, s: Shared, weekStart: Instant, text: string, now: Instant, k: int)
    requires s.medium.Available?
    requires 0 <= k <= 3
    ensures Run(s, WriteEffects(codec, weekStart, text, now)[..k]).reloads == s.reloads
    ensures Run(s, WriteEffects(codec, weekStart, text, now)[..3]).medium
         == WriteCurrentWeekIntention(codec, s, weekStart, text, now).medium
  {
    var es := WriteEffects(codec, weekStart, text, now);
    var keys := es[..3];
    assert ReloadsOf(keys[2..]) == [] by {
      assert keys[2..][1..] == [];
    }
    assert ReloadsOf(keys[1..]) == [] by {
      assert keys[1..][1..] == keys[2..];
    }
    assert ReloadsOf(keys) == [];
    assert ReloadsOf(es[..k]) == [] by {
      if k == 3 {
      } else if k == 2 {
        assert es[..2][1..][1..] == [];
      } else if k == 1 {
        assert es[..1][1..] == [];
      }
    }
    RunAppend(s, keys, es[3..]);
    assert keys + es[3..] == es;
    assert es[3..][1..] == [];
  }

  /** Reading back a write returns the text exactly as written, the parsed
      week start and the parsed write time, whatever the reader's clock. */
  lemma ReadAfterWrite(
    codec: DateCodec, s: Shared, weekStart: Instant, text: string, now: Instant, readNow: Instant, zone: int)
    requires s.medium.Available?
    ensures var r := Read(codec, WriteCurrentWeekIntention(codec, s, weekStart, text, now).medium, readNow, zone);
      && r.text == text
      && r.weekStart == ParseISODate(codec, Some(codec.formatFractional(weekStart))).GetOr(CurrentISOWeekStart(readNow, zone))
      && r.updatedAt == ParseISODate(codec, Some(codec.formatFractional(now)))
  {
  }

  /** With a formatter that round-trips, a write is read back verbatim. */
  lemma {:induction false} WriteReadRoundTrip(
    codec: DateCodec, s: Shared, weekStart: Instant, text: string, now: Instant, readNow: Instant, zone: int)
    requires FractionalRoundTrip(codec)
    requires s.medium.Available?
    ensures Read(codec, WriteCurrentWeekIntention(codec, s, weekStart, text, now).medium, readNow, zone)
         == Snapshot(weekStart, text, Some(now))
  {
    ReadAfterWrite(codec, s, weekStart, text, now, readNow, zone);
    ParseFormattedDate(codec, weekStart);
    ParseFormattedDate(codec, now);
  }

  /** The write is a full overwrite: after two writes the suite is exactly
      what the second write alone would have made of it, and each write
      logged its own reload request. */
  lemma {:induction false} SecondWriteWins(
    codec: DateCodec, s: Shared,
    weekStart1: Instant, text1: string, now1: Instant,
    weekStart2: Instant, text2: string, now2: Instant)
    ensures var twice := WriteCurrentWeekIntention(codec,
              WriteCurrentWeekIntention(codec, s, weekStart1, text1, now1), weekStart2, text2, now2);
      && twice.medium == WriteCurrentWeekIntention(codec, s, weekStart2, text2, now2).medium
      && (s.medium.Available? ==> twice.reloads == s.reloads + [ReloadKind, ReloadKind])
      && (s.medium.Unavailable? ==> twice == s)
  {
    if s.medium.Available? {
      var once := WriteCurrentWeekIntention(codec, s, weekStart1, text1, now1);
      var twice := WriteCurrentWeekIntention(codec, once, weekStart2, text2, now2);
      var direct := WriteCurrentWeekIntention(codec, s, weekStart2, text2, now2);
      forall k | k in twice.medium.defaults
        ensures k in direct.medium.defaults && twice.medium.defaults[k] == direct.medium.defaults[k]
      {
        assert StringForKey(twice.medium, k) == StringForKey(direct.medium, k);
      }
      assert twice.medium.defaults == direct.medium.defaults;
    }
  }

  /** A suite the mirror has never written to, whatever other keys it
      holds, reads like an unavailable one: the zero-value snapshot. */
  lemma EmptySuiteReadsZero(codec: DateCodec, d: map<string, string>, now: Instant, zone: int)
    requires forall k :: k in MirrorKeys ==> k !in d
    ensures Read(codec, Available(d), now, zone) == Read(codec, Unavailable, now, zone)
  {
  }
}
