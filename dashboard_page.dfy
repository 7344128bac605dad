/** The dashboard page's client-side state: dose keys, the same-day duplicate guard, the
    optimistic update after logging a dose, the "acted today" filtering of the lists it shows
    and the once-only auto-logging of missed doses. */
module DashboardPage {
  import opened Wrappers
  import opened Seqs
  import opened Text
  import opened DoseLogs
  import opened DashboardSummary

  const RecentShown: nat := 5

  /** Minutes after local midnight, as `getHours() * 60 + getMinutes()` gives them. */
  type MinuteOfDay = m: int | 0 <= m < 24 * 60

  /** The browser's clock: the current instant, the local calendar day of an instant, and the
      local time of day of an instant. */
  datatype LocalClock = LocalClock(now: int, dayOf: int -> int, minuteOfDay: int -> MinuteOfDay)

  /** The summary as the page holds it; `upcomingToday` is `None` when it is not a number. */
  datatype PageSummary = PageSummary(
    upcomingDoses: seq<DoseEntry>,
    missedDoses: seq<DoseEntry>,
    skippedDoses: seq<DoseEntry>,
    recentActivity: seq<DoseLog>,
    adherenceWeekly: int,
    currentStreak: int,
    upcomingToday: Option<int>)

  /** The summary as it arrives from the server. */
  function FromServer(s: Summary): (p: PageSummary)
    ensures p.upcomingDoses == s.upcomingDoses && p.recentActivity == s.recentActivity
    ensures p.upcomingToday == Some(s.kpis.upcomingToday)
  {
    PageSummary(s.upcomingDoses, s.missedDoses, s.skippedDoses, s.recentActivity,
                s.kpis.adherenceWeekly, s.kpis.currentStreak, Some(s.kpis.upcomingToday))
  }

  // ---------------------------------------------------------------------------
  // Dose keys

  /** A time interpolated into a template string: `undefined` when absent. */
  function TimeText(t: Option<string>): string {
    if t.Some? then t.value else "undefined"
  }

  /** `doseKey`: `${String(scheduleId)}-${time}`. */
  function DoseKey(scheduleId: string, time: Option<string>): (k: string)
  {
    scheduleId + "-" + TimeText(time)
  }

  function EntryKey(d: DoseEntry): string {
    DoseKey(d.scheduleId, d.time)
  }

  /** With identifiers free of '-' (as hexadecimal object ids are), two doses get the same key
      exactly when they have the same schedule and the same rendered time. */
  lemma {:induction false} DoseKeyInjective(a: string, t: Option<string>, b: string, u: Option<string>)
    requires '-' !in a && '-' !in b
    ensures DoseKey(a, t) == DoseKey(b, u) <==> a == b && TimeText(t) == TimeText(u)
  {
    var k, l := DoseKey(a, t), DoseKey(b, u);
    if k == l {
      assert k == a + ['-'] + TimeText(t);
      assert l == b + ['-'] + TimeText(u);
      SplitPiece(a, '-', TimeText(t));
      SplitPiece(b, '-', TimeText(u));
      assert Split(k, '-')[0] == a;
      assert Split(l, '-')[0] == b;
      assert TimeText(t) == k[|a| + 1..];
      assert TimeText(u) == l[|b| + 1..];
    }
  }

  /** An identifier containing '-' can collide with another dose's key. */
  lemma {:induction false} DoseKeyCollision()
    ensures DoseKey("a-b", Some("c")) == DoseKey("a", Some("b-c"))
  {
  }

  /** An absent time and the literal time "undefined" share a key. */
  lemma {:induction false} DoseKeyUndefined(a: string)
    ensures DoseKey(a, None) == DoseKey(a, Some("undefined"))
  {
  }

  // ---------------------------------------------------------------------------
  // Clock strings

  /** `toHHmm(dateLike, fallbackTimeStr)`: the fallback when it is a non-empty string,
      otherwise the local "HH:mm" of the instant. */
  function ToHHmm(instant: int, fallback: Option<string>, clock: LocalClock): (r: string)
    ensures fallback.Some? && fallback.value != "" ==> r == fallback.value
    ensures !(fallback.Some? && fallback.value != "") ==>
      IsClockTime(r) && ClockMinutes(r) == clock.minuteOfDay(instant)
  {
    if fallback.Some? && fallback.value != "" then fallback.value
    else ClockTimeOf(clock.minuteOfDay(instant))
  }

  /** `getMinutes(t)`: `parseInt` of the hour times 60 plus `parseInt` of the minute; NaN
      (`None`) when either is not a number. */
  function GetMinutes(t: string): Option<int> {
    var parts := Split(t, ':');
    var h := ParseInt(parts[0]);
    var m := if |parts| >= 2 then ParseInt(parts[1]) else None;
    if h.Some? && m.Some? then Some(h.value * 60 + m.value) else None
  }

  lemma {:induction false} ParseIntTwoDigits(s: string)
    requires |s| == 2 && AllDigits(s)
    ensures ParseInt(s) == Some(10 * DigitValue(s[0]) + DigitValue(s[1]))
  {
    LeadingDigitsOfDigits(s);
    DigitsValueTwo(s);
  }

  /** On a zero-padded clock time, `getMinutes` gives its minutes after midnight. */
  lemma {:induction false} GetMinutesClockTime(t: string)
    requires IsClockTime(t)
    ensures GetMinutes(t) == Some(ClockMinutes(t))
  {
    SplitClockTime(t);
    ParseIntTwoDigits(t[..2]);
    ParseIntTwoDigits(t[3..]);
  }

  /** Without a ':' the minute part is `undefined`, and `parseInt(undefined)` is NaN. */
  lemma {:induction false} GetMinutesNoColon(t: string)
    requires ':' !in t
    ensures GetMinutes(t).None?
  {
    SplitWhole(t, ':');
  }

  /** `getMinutes` undoes the "HH:mm" rendering of an instant. */
  lemma {:induction false} GetMinutesToHHmm(instant: int, clock: LocalClock)
    ensures GetMinutes(ToHHmm(instant, None, clock)) == Some(clock.minuteOfDay(instant))
  {
    GetMinutesClockTime(ToHHmm(instant, None, clock));
  }

  // ---------------------------------------------------------------------------
  // What the page shows

  predicate Today(instant: int, clock: LocalClock) {
    clock.dayOf(instant) == clock.dayOf(clock.now)
  }

  /** The key under which a log marks its dose as acted on: a dose key, with the log's own
      time when it has a non-empty one. */
  function ActedKey(l: DoseLog, clock: LocalClock): (k: string)
    ensures k == DoseKey(l.scheduleId, Some(ToHHmm(l.scheduledTime, l.time, clock)))
    ensures l.time.Some? && l.time.value != "" ==> k == DoseKey(l.scheduleId, l.time)
  {
    l.scheduleId + "-" + ToHHmm(l.scheduledTime, l.time, clock)
  }

  /** `actedTodayKeys`: the keys of today's recorded logs. */
  function ActedTodayKeys(logs: seq<DoseLog>, clock: LocalClock): (keys: set<string>)
    ensures forall k :: k in keys <==>
      exists l: DoseLog :: l in logs && Recorded(l) && Today(l.actionTime, clock) && k == ActedKey(l, clock)
  {
    set l: DoseLog | l in logs && Recorded(l) && Today(l.actionTime, clock) :: ActedKey(l, clock)
  }

  /** A log without a time marks the "HH:mm" of its scheduled instant. */
  lemma {:induction false} ActedKeyWithoutTime(l: DoseLog, clock: LocalClock)
    requires l.time.None? || l.time.value == ""
    ensures ActedKey(l, clock) == l.scheduleId + "-" + ClockTimeOf(clock.minuteOfDay(l.scheduledTime))
  {
  }

  function PageUpcoming(s: Option<PageSummary>): seq<DoseEntry> {
    if s.Some? then s.value.upcomingDoses else []
  }

  function PageRecent(s: Option<PageSummary>): seq<DoseLog> {
    if s.Some? then s.value.recentActivity else []
  }

  /** The upcoming doses shown: those whose key is neither hidden nor acted on today. */
  function ShownUpcoming(s: Option<PageSummary>, hidden: seq<string>, acted: set<string>): (r: seq<DoseEntry>)
    ensures forall d :: d in r <==> d in PageUpcoming(s) && EntryKey(d) !in hidden && EntryKey(d) !in acted
    ensures multiset(r) <= multiset(PageUpcoming(s))
  {
    Filter(PageUpcoming(s), (d: DoseEntry) => EntryKey(d) !in hidden && EntryKey(d) !in acted)
  }

  /** The shown list keeps the server's order: shown upcoming doses of a concatenation are
      those of each part, one after the other. */
  lemma {:induction false} ShownUpcomingOrder(xs: seq<DoseEntry>, ys: seq<DoseEntry>, s: PageSummary, hidden: seq<string>, acted: set<string>)
    requires s.upcomingDoses == xs + ys
    ensures ShownUpcoming(Some(s), hidden, acted)
      == ShownUpcoming(Some(s.(upcomingDoses := xs)), hidden, acted) + ShownUpcoming(Some(s.(upcomingDoses := ys)), hidden, acted)
  {
    FilterAppend(xs, ys, (d: DoseEntry) => EntryKey(d) !in hidden && EntryKey(d) !in acted);
  }

  /** The missed doses shown: today's logs with status Missed. */
  function ShownMissed(logs: seq<DoseLog>, clock: LocalClock): (r: seq<DoseLog>)
    ensures forall l: DoseLog :: l in r <==> l in logs && l.status == Missed && Today(l.actionTime, clock)
    ensures multiset(r) <= multiset(logs)
  {
    Filter(logs, (l: DoseLog) => l.status == Missed && Today(l.actionTime, clock))
  }

  /** The skipped doses shown: today's logs with status Skipped. */
  function ShownSkipped(logs: seq<DoseLog>, clock: LocalClock): (r: seq<DoseLog>)
    ensures forall l: DoseLog :: l in r <==> l in logs && l.status == Skipped && Today(l.actionTime, clock)
    ensures multiset(r) <= multiset(logs)
  {
    Filter(logs, (l: DoseLog) => l.status == Skipped && Today(l.actionTime, clock))
  }

  // ---------------------------------------------------------------------------
  // Logging a dose

  /** The duplicate guard: a log today for the same schedule, time and status. */
  predicate AlreadyLoggedToday(logs: seq<DoseLog>, dose: DoseEntry, status: Status, clock: LocalClock)
    ensures AlreadyLoggedToday(logs, dose, status, clock) ==> dose.scheduleId != "" && dose.time.Some?
  {
    exists l: DoseLog ::
      && l in logs && l.scheduleId != ""
      && l.scheduleId == dose.scheduleId
      && dose.time == Some(l.time.GetOr(""))
      && l.status == status
      && Today(l.actionTime, clock)
  }

  /** Two feed entries for the same dose: same schedule, same time, same local day. */
  predicate SameDose(a: DoseLog, b: DoseLog, dayOf: int -> int) {
    a.scheduleId == b.scheduleId && a.time == b.time && dayOf(a.actionTime) == dayOf(b.actionTime)
  }

  /** Whether an earlier entry of `init` is the same dose as `x`. */
  predicate HasEarlier(init: seq<DoseLog>, x: DoseLog, dayOf: int -> int) {
    exists j :: 0 <= j < |init| && SameDose(init[j], x, dayOf)
  }

  /** `filter((log, idx, arr) => arr.findIndex(same dose) === idx)`: an entry stays exactly when
      no earlier entry is the same dose. */
  function KeepFirst(xs: seq<DoseLog>, dayOf: int -> int): (r: seq<DoseLog>)
    ensures |r| <= |xs|
    ensures forall l: DoseLog :: l in r ==> l in xs
  {
    if |xs| == 0 then []
    else
      var init := xs[..|xs| - 1];
      var x := xs[|xs| - 1];
      assert xs == init + [x];
      if HasEarlier(init, x, dayOf) then KeepFirst(init, dayOf) else KeepFirst(init, dayOf) + [x]
  }

  /** The first entry always stays. */
  lemma {:induction false} KeepFirstHead(xs: seq<DoseLog>, dayOf: int -> int)
    requires |xs| > 0
    ensures |KeepFirst(xs, dayOf)| > 0 && KeepFirst(xs, dayOf)[0] == xs[0]
  {
    if |xs| > 1 {
      var init := xs[..|xs| - 1];
      KeepFirstHead(init, dayOf);
      assert init[0] == xs[0];
    }
  }

  /** No two entries of `r` are the same dose. */
  predicate DistinctDoses(r: seq<DoseLog>, dayOf: int -> int) {
    forall i, j :: 0 <= i < j < |r| ==> !SameDose(r[i], r[j], dayOf)
  }

  /** No two kept entries are the same dose. */
  lemma {:induction false} KeepFirstDistinct(xs: seq<DoseLog>, dayOf: int -> int)
    ensures DistinctDoses(KeepFirst(xs, dayOf), dayOf)
  {
    if |xs| > 0 {
      var init := xs[..|xs| - 1];
      var x := xs[|xs| - 1];
      var rest := KeepFirst(init, dayOf);
      KeepFirstDistinct(init, dayOf);
      if !HasEarlier(init, x, dayOf) {
        forall l: DoseLog | l in rest ensures !SameDose(l, x, dayOf) {
          var j :| 0 <= j < |init| && init[j] == l;
        }
        var r := rest + [x];
        assert KeepFirst(xs, dayOf) == r;
        forall i, j | 0 <= i < j < |r| ensures !SameDose(r[i], r[j], dayOf) {
          if j == |rest| {
            assert r[i] == rest[i] && r[i] in rest && r[j] == x;
          } else {
            assert r[i] == rest[i] && r[j] == rest[j];
          }
        }
      }
    }
  }

  /** Every entry is represented by a kept entry for the same dose. */
  lemma {:induction false} KeepFirstCovers(xs: seq<DoseLog>, dayOf: int -> int, l: DoseLog)
    requires l in xs
    ensures exists m: DoseLog :: m in KeepFirst(xs, dayOf) && SameDose(m, l, dayOf)
  {
    var init := xs[..|xs| - 1];
    var x := xs[|xs| - 1];
    assert xs == init + [x];
    if l in init {
      KeepFirstCovers(init, dayOf, l);
    } else {
      assert l == x;
      if HasEarlier(init, x, dayOf) {
        var j :| 0 <= j < |init| && SameDose(init[j], x, dayOf);
        KeepFirstCovers(init, dayOf, init[j]);
      } else {
        assert x in KeepFirst(xs, dayOf);
      }
    }
  }

  /** The indices of the entries `KeepFirst` keeps, in the same recursion. */
  function KeptIndices(xs: seq<DoseLog>, dayOf: int -> int): (ix: seq<nat>)
    ensures |ix| == |KeepFirst(xs, dayOf)|
    ensures forall k :: 0 <= k < |ix| ==> ix[k] < |xs|
  {
    if |xs| == 0 then []
    else
      var init := xs[..|xs| - 1];
      if HasEarlier(init, xs[|xs| - 1], dayOf) then KeptIndices(init, dayOf)
      else KeptIndices(init, dayOf) + [|xs| - 1]
  }

  /** `ix` lists, in increasing order, exactly the positions `i` whose entry has no earlier
      entry for the same dose, that is, where `findIndex` returns `i` itself. */
  predicate FirstIndices(xs: seq<DoseLog>, ix: seq<nat>, dayOf: int -> int) {
    && (forall k :: 0 <= k < |ix| ==> ix[k] < |xs|)
    && (forall k, m :: 0 <= k < m < |ix| ==> ix[k] < ix[m])
    && (forall i :: 0 <= i < |xs| ==> (i in ix <==> !HasEarlier(xs[..i], xs[i], dayOf)))
  }

  /** Appending an entry adds its position exactly when its dose is new. */
  lemma {:induction false} FirstIndicesSnoc(init: seq<DoseLog>, x: DoseLog, ix: seq<nat>, dayOf: int -> int)
    requires FirstIndices(init, ix, dayOf)
    ensures var ix' := if HasEarlier(init, x, dayOf) then ix else ix + [|init|];
      FirstIndices(init + [x], ix', dayOf)
  {
    var xs := init + [x];
    var n := |init|;
    var ix' := if HasEarlier(init, x, dayOf) then ix else ix + [n];
    assert forall k :: 0 <= k < |ix'| ==> ix'[k] < |xs| by {
      forall k | 0 <= k < |ix'| ensures ix'[k] < |xs| {
        if k < |ix| { assert ix'[k] == ix[k]; }
      }
    }
    assert forall k, m :: 0 <= k < m < |ix'| ==> ix'[k] < ix'[m] by {
      forall k, m | 0 <= k < m < |ix'| ensures ix'[k] < ix'[m] {
        assert ix'[k] == ix[k];
        if m < |ix| { assert ix'[m] == ix[m]; }
      }
    }
    forall i | 0 <= i < |xs| ensures i in ix' <==> !HasEarlier(xs[..i], xs[i], dayOf) {
      if i < n {
        assert xs[..i] == init[..i] && xs[i] == init[i];
        assert i in ix' <==> i in ix;
      } else {
        assert xs[..i] == init && xs[i] == x;
        assert n !in ix;
      }
    }
  }

  /** `KeepFirst` is the subsequence of the first occurrences: its k-th entry is the entry at
      the k-th position whose dose does not occur earlier, in input order. */
  lemma {:induction false} KeepFirstIndices(xs: seq<DoseLog>, dayOf: int -> int)
    ensures FirstIndices(xs, KeptIndices(xs, dayOf), dayOf)
    ensures forall k :: 0 <= k < |KeptIndices(xs, dayOf)| ==>
      KeepFirst(xs, dayOf)[k] == xs[KeptIndices(xs, dayOf)[k]]
  {
    if |xs| > 0 {
      var n := |xs| - 1;
      var init := xs[..n];
      var x := xs[n];
      assert xs == init + [x];
      KeepFirstIndices(init, dayOf);
      FirstIndicesSnoc(init, x, KeptIndices(init, dayOf), dayOf);
      var ix0 := KeptIndices(init, dayOf);
      var r0 := KeepFirst(init, dayOf);
      var ix := KeptIndices(xs, dayOf);
      var r := KeepFirst(xs, dayOf);
      forall k | 0 <= k < |ix| ensures r[k] == xs[ix[k]] {
        if k < |ix0| {
          assert r[k] == r0[k] && ix[k] == ix0[k] && init[ix0[k]] == xs[ix0[k]];
        }
      }
    }
  }

  /** `upcomingToday - 1`, never below 0. */
  function DecrementUpcoming(n: Option<int>): (r: Option<int>)
    ensures n.None? ==> r.None?
    ensures n.Some? ==> r.Some? && r.value >= 0 && r.value == (if n.value >= 1 then n.value - 1 else 0)
  {
    if n.None? then None else if n.value - 1 < 0 then Some(0) else Some(n.value - 1)
  }

  /** The `setSummary` update after the server created `created` for `dose`. */
  function ApplyCreated(prev: Option<PageSummary>, dose: DoseEntry, created: DoseLog, clock: LocalClock): (r: Option<PageSummary>)
    ensures prev.None? <==> r.None?
  {
    if prev.None? then None
    else
      var p := prev.value;
      var upcoming := Filter(p.upcomingDoses, (u: DoseEntry) => EntryKey(u) != EntryKey(dose));
      var recent := Take(KeepFirst([created] + p.recentActivity, clock.dayOf), RecentShown);
      Some(p.(upcomingDoses := upcoming, recentActivity := recent, upcomingToday := DecrementUpcoming(p.upcomingToday)))
  }

  /** After a create the upcoming list loses every entry with the dose's key and keeps the
      others, the counter drops as `DecrementUpcoming` says, and nothing else but the feed
      changes. */
  lemma {:induction false} ApplyCreatedUpcoming(p: PageSummary, dose: DoseEntry, created: DoseLog, clock: LocalClock)
    ensures var r := ApplyCreated(Some(p), dose, created, clock).value;
      && (forall u :: u in r.upcomingDoses <==> u in p.upcomingDoses && EntryKey(u) != EntryKey(dose))
      && multiset(r.upcomingDoses) <= multiset(p.upcomingDoses)
      && r.missedDoses == p.missedDoses && r.skippedDoses == p.skippedDoses
      && r.adherenceWeekly == p.adherenceWeekly && r.currentStreak == p.currentStreak
      && r.upcomingToday == DecrementUpcoming(p.upcomingToday)
    ensures var r := ApplyCreated(Some(p), dose, created, clock).value;
      forall u :: multiset(r.upcomingDoses)[u] == if EntryKey(u) != EntryKey(dose) then multiset(p.upcomingDoses)[u] else 0
  {
    forall u ensures multiset(ApplyCreated(Some(p), dose, created, clock).value.upcomingDoses)[u]
                     == if EntryKey(u) != EntryKey(dose) then multiset(p.upcomingDoses)[u] else 0 {
      FilterCount(p.upcomingDoses, (u: DoseEntry) => EntryKey(u) != EntryKey(dose), u);
    }
  }

  /** The remaining upcoming doses keep their order: those of a concatenation are those of
      each part, one after the other. */
  lemma {:induction false} ApplyCreatedUpcomingOrder(xs: seq<DoseEntry>, ys: seq<DoseEntry>, p: PageSummary, dose: DoseEntry, created: DoseLog, clock: LocalClock)
    requires p.upcomingDoses == xs + ys
    ensures ApplyCreated(Some(p), dose, created, clock).value.upcomingDoses
      == ApplyCreated(Some(p.(upcomingDoses := xs)), dose, created, clock).value.upcomingDoses
       + ApplyCreated(Some(p.(upcomingDoses := ys)), dose, created, clock).value.upcomingDoses
  {
    FilterAppend(xs, ys, (u: DoseEntry) => EntryKey(u) != EntryKey(dose));
  }

  /** The new feed starts with the created log, has at most five entries, no two for the same
      dose, and only entries that were in the feed or just created. Its entries are the first
      occurrences of their doses in the created log followed by the old feed, in that order:
      the first five positions `ix` lists. */
  lemma {:induction false} ApplyCreatedRecent(p: PageSummary, dose: DoseEntry, created: DoseLog, clock: LocalClock)
    ensures var r := ApplyCreated(Some(p), dose, created, clock).value.recentActivity;
      && 0 < |r| <= RecentShown && r[0] == created
      && DistinctDoses(r, clock.dayOf)
      && (forall l :: l in r ==> l == created || l in p.recentActivity)
    ensures var r := ApplyCreated(Some(p), dose, created, clock).value.recentActivity;
      var all := [created] + p.recentActivity;
      var ix := KeptIndices(all, clock.dayOf);
      && FirstIndices(all, ix, clock.dayOf)
      && |r| == (if |ix| < RecentShown then |ix| else RecentShown)
      && forall k :: 0 <= k < |r| ==> r[k] == all[ix[k]]
  {
    var all := [created] + p.recentActivity;
    var kept := KeepFirst(all, clock.dayOf);
    KeepFirstHead(all, clock.dayOf);
    KeepFirstDistinct(all, clock.dayOf);
    KeepFirstIndices(all, clock.dayOf);
    var r := Take(kept, RecentShown);
    assert forall k :: 0 <= k < |r| ==> r[k] == kept[k];
    assert forall l :: l in r ==> l in kept;
    forall i, j | 0 <= i < j < |r| ensures !SameDose(r[i], r[j], clock.dayOf) {
      assert r[i] == kept[i] && r[j] == kept[j];
    }
  }

  /** The request body sent to create a log (the scheduled instant is parsed by the browser
      from today's date and the time; it is not modelled). */
  datatype LogRequest = LogRequest(scheduleId: string, medicationName: string, time: Option<string>, actionTime: int, status: Status)

  /** What `handleLogDose` does after hiding the dose: stop at the duplicate guard, throw
      while building the request, or send it. */
  datatype LogOutcome = Duplicate | Threw | Sent(request: LogRequest)

  /** Whether `new Date(<today's date> + ' ' + time)` is a valid date, so that its
      `toISOString()` does not throw. An absent time is interpolated as "undefined" and never
      gives a valid date; how the browser parses a present time is the parameter
      `dateParses`. */
  predicate ScheduledParses(time: Option<string>, dateParses: string -> bool)
    ensures time.None? ==> !ScheduledParses(time, dateParses)
  {
    time.Some? && dateParses(time.value)
  }

  /** The log a missed-dose log is re-submitted as. */
  function AsEntry(l: DoseLog): DoseEntry {
    DoseEntry(l.scheduleId, l.medicationName, l.time)
  }

  /** The auto-log key: `${dose.scheduleId}-${dose.time}`. */
  function LogKey(l: DoseLog): string {
    DoseKey(l.scheduleId, l.time)
  }

  /** Whether the feed already holds a recorded log for the same schedule and time. */
  predicate InRecent(d: DoseLog, recent: seq<DoseLog>) {
    exists l: DoseLog :: l in recent && l.scheduleId == d.scheduleId && l.time == d.time && Recorded(l)
  }

  /** The result of one pass of the auto-log effect: the doses it submits and the marked keys
      afterwards. */
  datatype Pass = Pass(queued: seq<DoseLog>, marked: set<string>)

  /** One pass of the auto-log effect over the shown missed doses. A dose is submitted when it
      is not in the feed and its key is not marked; its key is marked before it is submitted. */
  function AutoLogPass(missed: seq<DoseLog>, recent: seq<DoseLog>, marked: set<string>): (r: Pass)
    ensures |r.queued| <= |missed|
  {
    if |missed| == 0 then Pass([], marked)
    else
      var d := missed[0];
      var key := LogKey(d);
      if !InRecent(d, recent) && key !in marked then
        var rest := AutoLogPass(missed[1..], recent, marked + {key});
        Pass([d] + rest.queued, rest.marked)
      else
        AutoLogPass(missed[1..], recent, marked)
  }

  function KeysOf(q: seq<DoseLog>): set<string> {
    set d | d in q :: LogKey(d)
  }

  /** Every submitted dose is a shown missed dose that is not in the feed and whose key was not
      marked before the pass. */
  lemma {:induction false} AutoLogPassMembers(missed: seq<DoseLog>, recent: seq<DoseLog>, marked: set<string>)
    ensures forall d :: d in AutoLogPass(missed, recent, marked).queued ==>
      d in missed && !InRecent(d, recent) && LogKey(d) !in marked
  {
    if |missed| > 0 {
      var d := missed[0];
      if !InRecent(d, recent) && LogKey(d) !in marked {
        AutoLogPassMembers(missed[1..], recent, marked + {LogKey(d)});
      } else {
        AutoLogPassMembers(missed[1..], recent, marked);
      }
    }
  }

  /** Afterwards exactly the keys of the submitted doses are newly marked. */
  lemma {:induction false} AutoLogPassMarks(missed: seq<DoseLog>, recent: seq<DoseLog>, marked: set<string>)
    ensures AutoLogPass(missed, recent, marked).marked == marked + KeysOf(AutoLogPass(missed, recent, marked).queued)
  {
    if |missed| > 0 {
      var d := missed[0];
      if !InRecent(d, recent) && LogKey(d) !in marked {
        var rest := AutoLogPass(missed[1..], recent, marked + {LogKey(d)});
        AutoLogPassMarks(missed[1..], recent, marked + {LogKey(d)});
        assert KeysOf([d] + rest.queued) == {LogKey(d)} + KeysOf(rest.queued);
      } else {
        AutoLogPassMarks(missed[1..], recent, marked);
      }
    }
  }

  predicate DistinctKeys(q: seq<DoseLog>) {
    forall i, j :: 0 <= i < j < |q| ==> LogKey(q[i]) != LogKey(q[j])
  }

  /** No key is submitted twice. */
  lemma {:induction false} AutoLogPassOnce(missed: seq<DoseLog>, recent: seq<DoseLog>, marked: set<string>)
    ensures DistinctKeys(AutoLogPass(missed, recent, marked).queued)
  {
    if |missed| > 0 {
      var d := missed[0];
      if !InRecent(d, recent) && LogKey(d) !in marked {
        var rest := AutoLogPass(missed[1..], recent, marked + {LogKey(d)}).queued;
        AutoLogPassOnce(missed[1..], recent, marked + {LogKey(d)});
        AutoLogPassMembers(missed[1..], recent, marked + {LogKey(d)});
        var q := [d] + rest;
        forall i, j | 0 <= i < j < |q| ensures LogKey(q[i]) != LogKey(q[j]) {
          if i == 0 {
            assert q[j] == rest[j - 1] && q[j] in rest;
          } else {
            assert q[i] == rest[i - 1] && q[j] == rest[j - 1];
          }
        }
      } else {
        AutoLogPassOnce(missed[1..], recent, marked);
      }
    }
  }

  /** The loop invariant of `AutoLogMissed`: what is queued so far, followed by the pass over
      the rest, is the whole pass. */
  predicate PassSoFar(goal: Pass, missed: seq<DoseLog>, i: nat, recent: seq<DoseLog>, marked: set<string>, queued: seq<DoseLog>)
    requires i <= |missed|
  {
    goal == Pass(queued + AutoLogPass(missed[i..], recent, marked).queued, AutoLogPass(missed[i..], recent, marked).marked)
  }

  lemma {:induction false} PassSoFarStart(missed: seq<DoseLog>, recent: seq<DoseLog>, marked: set<string>)
    ensures PassSoFar(AutoLogPass(missed, recent, marked), missed, 0, recent, marked, [])
  {
    assert missed[0..] == missed;
    assert [] + AutoLogPass(missed, recent, marked).queued == AutoLogPass(missed, recent, marked).queued;
  }

  lemma {:induction false} PassSoFarStep(goal: Pass, missed: seq<DoseLog>, i: nat, recent: seq<DoseLog>, marked: set<string>, queued: seq<DoseLog>)
    requires i < |missed| && PassSoFar(goal, missed, i, recent, marked, queued)
    ensures var d := missed[i];
      if !InRecent(d, recent) && LogKey(d) !in marked
      then PassSoFar(goal, missed, i + 1, recent, marked + {LogKey(d)}, queued + [d])
      else PassSoFar(goal, missed, i + 1, recent, marked, queued)
  {
    var d := missed[i];
    assert missed[i..][0] == d && missed[i..][1..] == missed[i + 1..];
    if !InRecent(d, recent) && LogKey(d) !in marked {
      var rest := AutoLogPass(missed[i + 1..], recent, marked + {LogKey(d)}).queued;
      assert queued + ([d] + rest) == (queued + [d]) + rest;
    }
  }

  lemma {:induction false} PassSoFarEnd(goal: Pass, missed: seq<DoseLog>, recent: seq<DoseLog>, marked: set<string>, queued: seq<DoseLog>)
    requires PassSoFar(goal, missed, |missed|, recent, marked, queued)
    ensures goal == Pass(queued, marked)
  {
    assert missed[|missed|..] == [];
    assert queued + [] == queued;
  }

  /** Submitting a shown missed log that carries a time always hits the duplicate guard:
      the log itself matches. */
  lemma {:induction false} AutoLogHitsGuard(logs: seq<DoseLog>, d: DoseLog, clock: LocalClock)
    requires d in ShownMissed(logs, clock) && d.time.Some? && d.scheduleId != ""
    ensures AlreadyLoggedToday(logs, AsEntry(d), Missed, clock)
  {
    assert d in logs;
  }

  class DashboardView {
    var summary: Option<PageSummary>
    var doseLogsData: seq<DoseLog>
    var hiddenUpcoming: seq<string>
    var missedLogged: set<string>

    constructor()
      ensures summary.None? && doseLogsData == [] && hiddenUpcoming == [] && missedLogged == {}
    {
      summary := None;
      doseLogsData := [];
      hiddenUpcoming := [];
      missedLogged := {};
    }

    /** A successful fetch: the summary and the logs (a missing list becomes empty). */
    method Loaded(s: Summary, logs: Option<seq<DoseLog>>)
      modifies this
      ensures summary == Some(FromServer(s)) && doseLogsData == logs.GetOr([])
      ensures hiddenUpcoming == old(hiddenUpcoming) && missedLogged == old(missedLogged)
    {
      summary := Some(FromServer(s));
      doseLogsData := logs.GetOr([]);
    }

    /** `handleLogDose(dose, status)`. `created` is the server's answer to the create request,
        `None` when the request fails; `dateParses` is the browser's verdict on the scheduled
        date string. */
    method HandleLogDose(dose: DoseEntry, status: Status, created: Option<DoseLog>, clock: LocalClock,
                         dateParses: string -> bool)
      returns (outcome: LogOutcome)
      modifies this
      ensures hiddenUpcoming == old(hiddenUpcoming) + [EntryKey(dose)]
      ensures doseLogsData == old(doseLogsData) && missedLogged == old(missedLogged)
      ensures outcome.Duplicate? <==> AlreadyLoggedToday(old(doseLogsData), dose, status, clock)
      ensures outcome.Threw? <==>
        !AlreadyLoggedToday(old(doseLogsData), dose, status, clock) && !ScheduledParses(dose.time, dateParses)
      ensures dose.time.None? ==> outcome.Threw?
      ensures outcome.Sent? ==>
        outcome.request == LogRequest(dose.scheduleId, dose.medicationName, dose.time, clock.now, status)
      ensures (!outcome.Sent? || created.None?) ==> summary == old(summary)
      ensures outcome.Sent? && created.Some? ==> summary == ApplyCreated(old(summary), dose, created.value, clock)
    {
      hiddenUpcoming := hiddenUpcoming + [EntryKey(dose)];
      if AlreadyLoggedToday(doseLogsData, dose, status, clock) {
        return Duplicate;
      }
      if !ScheduledParses(dose.time, dateParses) {
        return Threw;
      }
      outcome := Sent(LogRequest(dose.scheduleId, dose.medicationName, dose.time, clock.now, status));
      if created.None? {
        return;
      }
      summary := ApplyCreated(summary, dose, created.value, clock);
    }

    /** The auto-log effect: walks the shown missed doses, marks each key it submits before
        submitting it, and returns the doses to submit as Missed. */
    method AutoLogMissed(clock: LocalClock) returns (toLog: seq<DoseLog>)
      modifies this`missedLogged
      ensures Pass(toLog, missedLogged) == AutoLogPass(ShownMissed(doseLogsData, clock), PageRecent(summary), old(missedLogged))
    {
      var missed := ShownMissed(doseLogsData, clock);
      var recent := PageRecent(summary);
      var marked := missedLogged;
      ghost var goal := AutoLogPass(missed, recent, marked);
      PassSoFarStart(missed, recent, marked);
      toLog := [];
      var i := 0;
      while i < |missed|
        invariant 0 <= i <= |missed|
        invariant PassSoFar(goal, missed, i, recent, marked, toLog)
      {
        var dose := missed[i];
        var key := LogKey(dose);
        PassSoFarStep(goal, missed, i, recent, marked, toLog);
        var alreadyLogged := InRecent(dose, recent);
        if !alreadyLogged && key !in marked {
          marked := marked + {key};
          toLog := toLog + [dose];
        }
        i := i + 1;
      }
      PassSoFarEnd(goal, missed, recent, marked, toLog);
      missedLogged := marked;
    }
  }
}
