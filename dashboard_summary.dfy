/** The `/summary` handler of the dashboard routes: from the user's schedules, dose logs and
    the current instant it computes today's upcoming, missed and skipped doses, the recent
    activity feed, the seven-day adherence and the current streak. */
module DashboardSummary {
  import opened Wrappers
  import opened Seqs
  import opened Text
  import opened DoseLogs

  const MinuteMs: int := 60000
  /** The streak loop looks back over at most this many days. */
  const StreakWindow: nat := 30
  /** The recent-activity feed holds at most this many logs. */
  const RecentLimit: nat := 5

  /** A medication schedule: its dose times are the strings the form produced. */
  datatype Schedule = Schedule(
    id: string,
    name: string,
    dosage: string,
    times: seq<string>,
    startDate: int,
    isActive: bool)

  /** The server's reading of the clock. `now` is the request instant and `startOfToday`
      its local midnight; `weekStart` is a second reading of the clock moved back seven
      days; `dayOf` numbers local calendar days (consecutive days get consecutive numbers). */
  datatype Clock = Clock(now: int, startOfToday: int, weekStart: int, dayOf: int -> int)

  /** An entry of the upcoming, missed or skipped lists. */
  datatype DoseEntry = DoseEntry(scheduleId: string, medicationName: string, time: Option<string>)

  datatype Kpis = Kpis(adherenceWeekly: nat, currentStreak: nat, upcomingToday: nat)

  /** The response body. */
  datatype Summary = Summary(
    kpis: Kpis,
    upcomingDoses: seq<DoseEntry>,
    missedDoses: seq<DoseEntry>,
    skippedDoses: seq<DoseEntry>,
    recentActivity: seq<DoseLog>)

  /** One dose time of one schedule. */
  datatype Slot = Slot(schedule: Schedule, time: string)

  // ---------------------------------------------------------------------------
  // Eligible schedules and their dose times

  /** An active schedule whose start date, taken to its local midnight, is not after today's. */
  predicate Eligible(s: Schedule, clock: Clock) {
    s.isActive && clock.dayOf(s.startDate) <= clock.dayOf(clock.now)
  }

  function EligibleSchedules(schedules: seq<Schedule>, clock: Clock): (r: seq<Schedule>)
    ensures forall s: Schedule :: s in r <==> s in schedules && Eligible(s, clock)
  {
    Filter(schedules, (s: Schedule) => Eligible(s, clock))
  }

  function ScheduleSlots(s: Schedule): (r: seq<Slot>)
    ensures forall sl: Slot :: sl in r <==> sl.schedule == s && sl.time in s.times
  {
    var r := seq(|s.times|, i requires 0 <= i < |s.times| => Slot(s, s.times[i]));
    assert forall sl: Slot :: sl.schedule == s && sl.time in s.times ==> sl in r by {
      forall sl: Slot | sl.schedule == s && sl.time in s.times ensures sl in r {
        var i :| 0 <= i < |s.times| && s.times[i] == sl.time;
        assert r[i] == sl;
      }
    }
    r
  }

  /** The `flatMap` over schedules of their times, in schedule order and then time order. */
  function Slots(ss: seq<Schedule>): (r: seq<Slot>)
    ensures forall sl: Slot :: sl in r <==> sl.schedule in ss && sl.time in sl.schedule.times
  {
    if |ss| == 0 then []
    else
      assert ss == [ss[0]] + ss[1..];
      ScheduleSlots(ss[0]) + Slots(ss[1..])
  }

  /** The medication name shown with a dose: `${name} ${dosage}`. */
  function Label(s: Schedule): string {
    s.name + " " + s.dosage
  }

  /** `time.split(':').map(Number)` fed to `setHours(hour, minute, 0, 0)` on today's midnight;
      `None` is the Invalid Date a NaN hour or minute produces. */
  function DoseInstant(time: string, clock: Clock): (r: Option<int>)
    ensures r.Some? <==>
      var parts := Split(time, ':');
      NumberOf(parts[0]).Some? && |parts| >= 2 && NumberOf(parts[1]).Some?
  {
    var parts := Split(time, ':');
    var hour := NumberOf(parts[0]);
    var minute := if |parts| >= 2 then NumberOf(parts[1]) else None;
    if hour.Some? && minute.Some? then
      Some(clock.startOfToday + (hour.value * 60 + minute.value) * MinuteMs)
    else None
  }
  /** On a zero-padded "HH:mm" time, the instant is today's midnight plus the time's minutes. */
  lemma {:induction false} DoseInstantOfClockTime(t: string, clock: Clock)
    requires IsClockTime(t)
    ensures DoseInstant(t, clock) == Some(clock.startOfToday + ClockMinutes(t) * MinuteMs)
  {
    SplitClockTime(t);
    DigitsValueTwo(t[..2]);
    DigitsValueTwo(t[3..]);
  }


  /** Kept by the upcoming filter: `doseTime <= now` is false (an Invalid Date compares false). */
  predicate IsUpcoming(time: string, clock: Clock) {
    var d := DoseInstant(time, clock);
    !(d.Some? && d.value <= clock.now)
  }

  /** Kept by the missed filter: `doseTime > now` is false. */
  predicate IsPast(time: string, clock: Clock) {
    var d := DoseInstant(time, clock);
    !(d.Some? && d.value > clock.now)
  }

  /** A well-formed dose time is on exactly one side of now; an instant equal to now is past. */
  lemma {:induction false} UpcomingOrPast(time: string, clock: Clock)
    requires DoseInstant(time, clock).Some?
    ensures IsUpcoming(time, clock) <==> !IsPast(time, clock)
    ensures IsUpcoming(time, clock) <==> DoseInstant(time, clock).value > clock.now
  {
  }

  /** A time without a colon gives an Invalid Date, which both filters keep. */
  lemma {:induction false} MalformedTimeOnBothSides(clock: Clock)
    ensures IsUpcoming("8", clock) && IsPast("8", clock)
  {
    SplitWhole("8", ':');
  }

  // ---------------------------------------------------------------------------
  // padTime and the "already logged" check

  /** `padTime`: "" for a missing or empty time, otherwise both halves padded to two
      characters (a missing minute renders as "undefined"). */
  function PadTime(t: Option<string>): (r: string)
    ensures t.None? || t.value == "" ==> r == ""
  {
    if t.None? || t.value == "" then ""
    else
      var parts := Split(t.value, ':');
      Pad2(parts[0]) + ":" + (if |parts| >= 2 then Pad2(parts[1]) else "undefined")
  }

  /** Padding a dose time never changes the instant it denotes. */
  lemma {:induction false} DoseInstantPadTime(time: string, clock: Clock)
    ensures DoseInstant(PadTime(Some(time)), clock) == DoseInstant(time, clock)
  {
    if time != "" {
      PadTimeParts(time);
      var parts := Split(time, ':');
      NumberOfPad2(parts[0]);
      if |parts| >= 2 {
        NumberOfPad2(parts[1]);
      } else {
        assert !IsDigit("undefined"[0]);
      }
    } else {
      assert Split("", ':') == [""];
    }
  }

  /** The padded time splits into the padded hour and the padded minute (or "undefined"). */
  lemma {:induction false} PadTimeParts(time: string)
    requires time != ""
    ensures var parts := Split(time, ':');
      Split(PadTime(Some(time)), ':') == [Pad2(parts[0]), if |parts| >= 2 then Pad2(parts[1]) else "undefined"]
  {
    var parts := Split(time, ':');
    var h := Pad2(parts[0]);
    var rest := if |parts| >= 2 then Pad2(parts[1]) else "undefined";
    assert forall i :: 0 <= i < |h| ==> h[i] != ':';
    assert forall i :: 0 <= i < |rest| ==> rest[i] != ':';
    SplitPiece(h, ':', rest);
    SplitWhole(rest, ':');
    assert PadTime(Some(time)) == h + [':'] + rest;
  }


  predicate SameDay(a: int, b: int, dayOf: int -> int) {
    dayOf(a) == dayOf(b)
  }

  /** `wasLogged`: some log today has the schedule's id and, after padding, the same time. */
  predicate WasLogged(logs: seq<DoseLog>, id: string, time: string, clock: Clock) {
    exists l: DoseLog ::
      && l in logs && l.scheduleId == id && PadTime(l.time) == PadTime(Some(time))
      && Recorded(l) && SameDay(l.actionTime, clock.now, clock.dayOf)
  }

  // ---------------------------------------------------------------------------
  // Sorting by time (stable, as Array.prototype.sort is)

  function TimeKey(e: DoseEntry): string {
    e.time.GetOr("")
  }

  predicate SortedByTime(xs: seq<DoseEntry>) {
    forall i :: 0 < i < |xs| ==> StrLe(TimeKey(xs[i - 1]), TimeKey(xs[i]))
  }

  /** Insert `x` after every entry whose time is not after its own. */
  function InsertByTime(xs: seq<DoseEntry>, x: DoseEntry): (r: seq<DoseEntry>)
    ensures multiset(r) == multiset(xs) + multiset{x}
    ensures |r| == |xs| + 1
    ensures r[|r| - 1] == x || (|xs| > 0 && r[|r| - 1] == xs[|xs| - 1])
    ensures SortedByTime(xs) ==> SortedByTime(r)
  {
    if |xs| == 0 then [x]
    else
      var last := xs[|xs| - 1];
      var init := xs[..|xs| - 1];
      assert xs == init + [last];
      if StrLe(TimeKey(last), TimeKey(x)) then xs + [x]
      else
        StrLeTotal(TimeKey(last), TimeKey(x));
        InsertByTime(init, x) + [last]
  }

  function SortByTime(xs: seq<DoseEntry>): (r: seq<DoseEntry>)
    ensures multiset(r) == multiset(xs) && |r| == |xs|
    ensures SortedByTime(r)
  {
    if |xs| == 0 then []
    else
      assert xs == xs[..|xs| - 1] + [xs[|xs| - 1]];
      InsertByTime(SortByTime(xs[..|xs| - 1]), xs[|xs| - 1])
  }

  /** The entries whose time key is `t`. */
  function AtTime(t: string): DoseEntry -> bool {
    (e: DoseEntry) => TimeKey(e) == t
  }

  /** An entry later than `x` goes after it, which the entries at one time do not notice. */
  lemma {:induction false} InsertByTimePasses(init: seq<DoseEntry>, last: DoseEntry, x: DoseEntry, t: string)
    requires !StrLe(TimeKey(last), TimeKey(x))
    requires Filter(InsertByTime(init, x), AtTime(t)) == Filter(init, AtTime(t)) + Filter([x], AtTime(t))
    ensures Filter(InsertByTime(init + [last], x), AtTime(t)) == Filter(init + [last], AtTime(t)) + Filter([x], AtTime(t))
  {
    var xs := init + [last];
    assert xs[..|xs| - 1] == init && xs[|xs| - 1] == last;
    StrLeTotal(TimeKey(x), TimeKey(x));
    assert InsertByTime(xs, x) == InsertByTime(init, x) + [last];
    FilterPassLast(InsertByTime(init, x), init, x, last, AtTime(t));
  }

  /** An entry not later than `x` stays before it. */
  lemma {:induction false} InsertByTimeAppends(xs: seq<DoseEntry>, x: DoseEntry, t: string)
    requires |xs| > 0 && StrLe(TimeKey(xs[|xs| - 1]), TimeKey(x))
    ensures Filter(InsertByTime(xs, x), AtTime(t)) == Filter(xs, AtTime(t)) + Filter([x], AtTime(t))
  {
    assert InsertByTime(xs, x) == xs + [x];
    FilterAppend(xs, [x], AtTime(t));
  }

  /** The insertion passes every entry with the same time as `x`. */
  lemma {:induction false} InsertByTimeStable(xs: seq<DoseEntry>, x: DoseEntry, t: string)
    ensures Filter(InsertByTime(xs, x), AtTime(t)) == Filter(xs, AtTime(t)) + Filter([x], AtTime(t))
  {
    if |xs| > 0 {
      var last := xs[|xs| - 1];
      var init := xs[..|xs| - 1];
      assert xs == init + [last];
      if StrLe(TimeKey(last), TimeKey(x)) {
        InsertByTimeAppends(xs, x, t);
      } else {
        InsertByTimeStable(init, x, t);
        InsertByTimePasses(init, last, x, t);
      }
    }
  }

  /** The sort is stable: entries with equal times keep their input order. */
  lemma {:induction false} SortByTimeStable(xs: seq<DoseEntry>, t: string)
    ensures Filter(SortByTime(xs), AtTime(t)) == Filter(xs, AtTime(t))
  {
    if |xs| > 0 {
      SortByTimeStable(xs[..|xs| - 1], t);
      InsertByTimeStep(xs, SortByTime(xs[..|xs| - 1]), t);
    }
  }

  /** Inserting the last entry into a list whose equal-time entries are in the order of the
      others gives one whose equal-time entries are in the order of the whole list. */
  lemma {:induction false} InsertByTimeStep(xs: seq<DoseEntry>, sorted: seq<DoseEntry>, t: string)
    requires |xs| > 0
    requires Filter(sorted, AtTime(t)) == Filter(xs[..|xs| - 1], AtTime(t))
    ensures Filter(InsertByTime(sorted, xs[|xs| - 1]), AtTime(t)) == Filter(xs, AtTime(t))
  {
    var init, x := xs[..|xs| - 1], xs[|xs| - 1];
    assert xs == init + [x];
    InsertByTimeStable(sorted, x, t);
    FilterAppend(init, [x], AtTime(t));
  }



  lemma {:induction false} SortedByTimePairwise(xs: seq<DoseEntry>, i: nat, j: nat)
    requires SortedByTime(xs) && i <= j < |xs|
    ensures StrLe(TimeKey(xs[i]), TimeKey(xs[j]))
  {
    var keys := Map(xs, TimeKey);
    assert Ascending(keys);
    AscendingPairwise(keys, i, j);
  }

  // ---------------------------------------------------------------------------
  // Upcoming and missed doses

  function UpcomingEntry(sl: Slot): DoseEntry {
    DoseEntry(sl.schedule.id, Label(sl.schedule), Some(sl.time))
  }

  function MissedEntry(sl: Slot): DoseEntry {
    DoseEntry(sl.schedule.id, Label(sl.schedule), Some(PadTime(Some(sl.time))))
  }

  function UpcomingSlots(schedules: seq<Schedule>, clock: Clock): (r: seq<Slot>)
    ensures forall sl: Slot :: sl in r <==>
      sl.schedule in schedules && Eligible(sl.schedule, clock) && sl.time in sl.schedule.times
      && IsUpcoming(sl.time, clock)
  {
    Filter(Slots(EligibleSchedules(schedules, clock)), (sl: Slot) => IsUpcoming(sl.time, clock))
  }

  function MissedSlots(schedules: seq<Schedule>, logs: seq<DoseLog>, clock: Clock): (r: seq<Slot>)
    ensures forall sl: Slot :: sl in r <==>
      sl.schedule in schedules && Eligible(sl.schedule, clock) && sl.time in sl.schedule.times
      && IsPast(sl.time, clock) && !WasLogged(logs, sl.schedule.id, sl.time, clock)
  {
    Filter(Slots(EligibleSchedules(schedules, clock)),
           (sl: Slot) => IsPast(sl.time, clock) && !WasLogged(logs, sl.schedule.id, sl.time, clock))
  }

  function UpcomingDoses(schedules: seq<Schedule>, clock: Clock): (r: seq<DoseEntry>)
    ensures SortedByTime(r)
    ensures multiset(r) == multiset(Map(UpcomingSlots(schedules, clock), UpcomingEntry))
  {
    SortByTime(Map(UpcomingSlots(schedules, clock), UpcomingEntry))
  }

  function MissedDoses(schedules: seq<Schedule>, logs: seq<DoseLog>, clock: Clock): (r: seq<DoseEntry>)
    ensures SortedByTime(r)
    ensures multiset(r) == multiset(Map(MissedSlots(schedules, logs, clock), MissedEntry))
  {
    SortByTime(Map(MissedSlots(schedules, logs, clock), MissedEntry))
  }

  lemma {:induction false} InMap<T, U>(xs: seq<T>, f: T -> U, y: U)
    ensures y in Map(xs, f) <==> exists x: T :: x in xs && y == f(x)
  {
    var m := Map(xs, f);
    if y in m {
      var i :| 0 <= i < |m| && m[i] == y;
      assert xs[i] in xs;
    }
    if exists x: T :: x in xs && y == f(x) {
      var x :| x in xs && y == f(x);
      var i :| 0 <= i < |xs| && xs[i] == x;
      assert m[i] == y;
    }
  }

  /** The upcoming list holds exactly the dose times of eligible schedules that are not at or
      before now, with the raw time; it is not checked against the logs. */
  lemma {:induction false} UpcomingMembers(schedules: seq<Schedule>, clock: Clock, e: DoseEntry)
    ensures e in UpcomingDoses(schedules, clock) <==>
      exists sl: Slot :: sl in UpcomingSlots(schedules, clock) && e == UpcomingEntry(sl)
  {
    var m := Map(UpcomingSlots(schedules, clock), UpcomingEntry);
    assert e in UpcomingDoses(schedules, clock) <==> e in multiset(m);
    InMap(UpcomingSlots(schedules, clock), UpcomingEntry, e);
  }

  /** Every upcoming entry comes from an eligible schedule's time strictly after now
      (or from a time that is not a valid clock value). */
  lemma {:induction false} UpcomingAfterNow(schedules: seq<Schedule>, clock: Clock, e: DoseEntry)
    requires e in UpcomingDoses(schedules, clock)
    ensures exists s: Schedule ::
              && s in schedules && Eligible(s, clock) && e.scheduleId == s.id
              && e.medicationName == Label(s) && e.time.Some? && e.time.value in s.times
              && (DoseInstant(e.time.value, clock).None? || DoseInstant(e.time.value, clock).value > clock.now)
  {
    UpcomingMembers(schedules, clock, e);
    var sl :| sl in UpcomingSlots(schedules, clock) && e == UpcomingEntry(sl);
    assert sl.schedule in schedules;
  }

  /** A dose time at or before now is listed as missed, with its padded time, exactly when no
      recorded log today matches its schedule and padded time. */
  lemma {:induction false} MissedIff(schedules: seq<Schedule>, logs: seq<DoseLog>, clock: Clock, s: Schedule, t: string)
    requires s in schedules && Eligible(s, clock) && t in s.times && IsPast(t, clock)
    ensures MissedEntry(Slot(s, t)) in MissedDoses(schedules, logs, clock) <==> !WasLogged(logs, s.id, t, clock)
  {
    var slots := MissedSlots(schedules, logs, clock);
    var e := MissedEntry(Slot(s, t));
    var m := Map(slots, MissedEntry);
    assert e in MissedDoses(schedules, logs, clock) <==> e in multiset(m);
    InMap(slots, MissedEntry, e);
    if e in m {
      var sl :| sl in slots && e == MissedEntry(sl);
      assert sl.schedule.id == s.id && PadTime(Some(sl.time)) == PadTime(Some(t));
    }
  }

  /** Every missed entry carries a padded time of an eligible schedule, at or before now, with
      no matching log today. */
  lemma {:induction false} MissedMembers(schedules: seq<Schedule>, logs: seq<DoseLog>, clock: Clock, e: DoseEntry)
    requires e in MissedDoses(schedules, logs, clock)
    ensures exists sl: Slot :: sl in MissedSlots(schedules, logs, clock) && e == MissedEntry(sl)
  {
    var m := Map(MissedSlots(schedules, logs, clock), MissedEntry);
    assert e in multiset(m);
    InMap(MissedSlots(schedules, logs, clock), MissedEntry, e);
  }

  /** No dose time with a valid instant is both upcoming and missed. */
  lemma {:induction false} UpcomingMissedDisjoint(schedules: seq<Schedule>, logs: seq<DoseLog>, clock: Clock, sl: Slot)
    requires DoseInstant(sl.time, clock).Some?
    ensures !(sl in UpcomingSlots(schedules, clock) && sl in MissedSlots(schedules, logs, clock))
  {
    UpcomingOrPast(sl.time, clock);
  }

  // ---------------------------------------------------------------------------
  // Skipped doses and recent activity

  function SkippedEntry(l: DoseLog): DoseEntry {
    DoseEntry(l.scheduleId, l.medicationName, l.time)
  }

  /** Logs with status Skipped whose action falls on today's local date, in log order. */
  function SkippedToday(logs: seq<DoseLog>, clock: Clock): (r: seq<DoseLog>)
    ensures forall l: DoseLog :: l in r <==> l in logs && l.status == Skipped && SameDay(l.actionTime, clock.now, clock.dayOf)
  {
    Filter(logs, (l: DoseLog) => l.status == Skipped && SameDay(l.actionTime, clock.now, clock.dayOf))
  }

  function SkippedDoses(logs: seq<DoseLog>, clock: Clock): (r: seq<DoseEntry>)
    ensures |r| == |SkippedToday(logs, clock)|
    ensures forall i :: 0 <= i < |r| ==> r[i] == SkippedEntry(SkippedToday(logs, clock)[i])
  {
    Map(SkippedToday(logs, clock), SkippedEntry)
  }

  /** The skipped list is built from logs: each entry projects a skipped log of today, and the
      list keeps one entry per such log, in log order. */
  lemma {:induction false} SkippedFromLogs(logs: seq<DoseLog>, clock: Clock, i: nat)
    requires i < |SkippedDoses(logs, clock)|
    ensures exists l: DoseLog ::
              && l in logs && l.status == Skipped && SameDay(l.actionTime, clock.now, clock.dayOf)
              && SkippedDoses(logs, clock)[i] == DoseEntry(l.scheduleId, l.medicationName, l.time)
  {
    var l := SkippedToday(logs, clock)[i];
    assert l in SkippedToday(logs, clock);
  }

  predicate ActionDescending(xs: seq<DoseLog>) {
    forall i :: 0 < i < |xs| ==> xs[i - 1].actionTime >= xs[i].actionTime
  }

  /** Insert `x` after every log whose action is not earlier than its own. */
  function InsertByAction(xs: seq<DoseLog>, x: DoseLog): (r: seq<DoseLog>)
    ensures multiset(r) == multiset(xs) + multiset{x}
    ensures |r| == |xs| + 1
    ensures r[|r| - 1] == x || (|xs| > 0 && r[|r| - 1] == xs[|xs| - 1])
    ensures ActionDescending(xs) ==> ActionDescending(r)
  {
    if |xs| == 0 then [x]
    else
      var last := xs[|xs| - 1];
      var init := xs[..|xs| - 1];
      assert xs == init + [last];
      if last.actionTime >= x.actionTime then xs + [x]
      else InsertByAction(init, x) + [last]
  }

  /** `sort((a, b) => b.actionTime - a.actionTime)`: newest first, ties in input order. */
  function SortByActionDesc(xs: seq<DoseLog>): (r: seq<DoseLog>)
    ensures multiset(r) == multiset(xs) && |r| == |xs|
    ensures ActionDescending(r)
  {
    if |xs| == 0 then []
    else
      assert xs == xs[..|xs| - 1] + [xs[|xs| - 1]];
      InsertByAction(SortByActionDesc(xs[..|xs| - 1]), xs[|xs| - 1])
  }

  /** The logs acted on at instant `t`. */
  function ActedAt(t: int): DoseLog -> bool {
    (l: DoseLog) => l.actionTime == t
  }

  /** A log not newer than `x` stays before it. */
  lemma {:induction false} InsertByActionAppends(xs: seq<DoseLog>, x: DoseLog, t: int)
    requires |xs| > 0 && xs[|xs| - 1].actionTime >= x.actionTime
    ensures Filter(InsertByAction(xs, x), ActedAt(t)) == Filter(xs, ActedAt(t)) + Filter([x], ActedAt(t))
  {
    assert InsertByAction(xs, x) == xs + [x];
    FilterAppend(xs, [x], ActedAt(t));
  }

  /** A log newer than `x` goes after it, which the logs of one instant do not notice. */
  lemma {:induction false} InsertByActionPasses(init: seq<DoseLog>, last: DoseLog, x: DoseLog, t: int)
    requires last.actionTime < x.actionTime
    requires Filter(InsertByAction(init, x), ActedAt(t)) == Filter(init, ActedAt(t)) + Filter([x], ActedAt(t))
    ensures Filter(InsertByAction(init + [last], x), ActedAt(t)) == Filter(init + [last], ActedAt(t)) + Filter([x], ActedAt(t))
  {
    var xs := init + [last];
    assert xs[..|xs| - 1] == init && xs[|xs| - 1] == last;
    assert InsertByAction(xs, x) == InsertByAction(init, x) + [last];
    FilterPassLast(InsertByAction(init, x), init, x, last, ActedAt(t));
  }

  /** The insertion passes every log acted on at the same instant as `x`. */
  lemma {:induction false} InsertByActionStable(xs: seq<DoseLog>, x: DoseLog, t: int)
    ensures Filter(InsertByAction(xs, x), ActedAt(t)) == Filter(xs, ActedAt(t)) + Filter([x], ActedAt(t))
  {
    if |xs| > 0 {
      var last := xs[|xs| - 1];
      var init := xs[..|xs| - 1];
      assert xs == init + [last];
      if last.actionTime >= x.actionTime {
        InsertByActionAppends(xs, x, t);
      } else {
        InsertByActionStable(init, x, t);
        InsertByActionPasses(init, last, x, t);
      }
    }
  }

  /** The sort is stable: logs acted on at the same instant keep their input order. */
  lemma {:induction false} SortByActionDescStable(xs: seq<DoseLog>, t: int)
    ensures Filter(SortByActionDesc(xs), ActedAt(t)) == Filter(xs, ActedAt(t))
  {
    if |xs| > 0 {
      SortByActionDescStable(xs[..|xs| - 1], t);
      InsertByActionStep(xs, SortByActionDesc(xs[..|xs| - 1]), t);
    }
  }

  /** Inserting the last log into a list whose equal-time logs are in the order of the others
      gives one whose equal-time logs are in the order of the whole list. */
  lemma {:induction false} InsertByActionStep(xs: seq<DoseLog>, sorted: seq<DoseLog>, t: int)
    requires |xs| > 0
    requires Filter(sorted, ActedAt(t)) == Filter(xs[..|xs| - 1], ActedAt(t))
    ensures Filter(InsertByAction(sorted, xs[|xs| - 1]), ActedAt(t)) == Filter(xs, ActedAt(t))
  {
    var init, x := xs[..|xs| - 1], xs[|xs| - 1];
    assert xs == init + [x];
    InsertByActionStable(sorted, x, t);
    FilterAppend(init, [x], ActedAt(t));
  }



  /** The five most recent recorded logs. */
  function RecentActivity(logs: seq<DoseLog>): (r: seq<DoseLog>)
    ensures |r| <= RecentLimit
    ensures |r| == if |logs| < RecentLimit then |logs| else RecentLimit
    ensures ActionDescending(r)
    ensures forall l: DoseLog :: l in r ==> l in logs && Recorded(l)
    ensures multiset(r) <= multiset(logs)
  {
    var recorded := Filter(logs, Recorded);
    var sorted := SortByActionDesc(recorded);
    var r := Take(sorted, RecentLimit);
    RecordedAll(logs);
    TakeMembers(sorted, RecentLimit);
    RecentMultiset(logs);
    r
  }

  lemma {:induction false} RecordedAll(logs: seq<DoseLog>)
    ensures Filter(logs, Recorded) == logs
  {
    forall l: DoseLog | l in logs ensures Recorded(l) { AllRecorded(l); }
    FilterAll(logs, Recorded);
  }

  lemma {:induction false} RecentMultiset(logs: seq<DoseLog>)
    ensures multiset(Take(SortByActionDesc(Filter(logs, Recorded)), RecentLimit)) <= multiset(logs)
  {
    TakeMultiset(SortByActionDesc(Filter(logs, Recorded)), RecentLimit);
  }

  lemma {:induction false} TakeMultiset(xs: seq<DoseLog>, n: nat)
    ensures multiset(Take(xs, n)) <= multiset(xs)
  {
    if n < |xs| {
      assert xs == xs[..n] + xs[n..];
    }
  }

  lemma {:induction false} TakeMembers(xs: seq<DoseLog>, n: nat)
    ensures forall l: DoseLog :: l in Take(xs, n) ==> l in multiset(xs)
  {
  }

  /** Nothing left out of the feed is newer than what it shows. */
  lemma {:induction false} RecentIsNewest(logs: seq<DoseLog>, l: DoseLog)
    requires l in logs && |RecentActivity(logs)| == RecentLimit
    ensures l in RecentActivity(logs) || l.actionTime <= RecentActivity(logs)[RecentLimit - 1].actionTime
  {
    RecordedAll(logs);
    var sorted := SortByActionDesc(logs);
    assert RecentActivity(logs) == Take(sorted, RecentLimit);
    assert l in multiset(sorted);
    TakeIsNewest(sorted, l);
  }

  /** The first five of a descending sequence are at least as recent as any other element. */
  lemma {:induction false} TakeIsNewest(sorted: seq<DoseLog>, l: DoseLog)
    requires ActionDescending(sorted) && l in sorted && |sorted| >= RecentLimit
    ensures l in Take(sorted, RecentLimit) || l.actionTime <= sorted[RecentLimit - 1].actionTime
  {
    var recent := Take(sorted, RecentLimit);
    var j :| 0 <= j < |sorted| && sorted[j] == l;
    if j < RecentLimit {
      assert recent[j] == l;
    } else {
      DescendingPairwise(sorted, RecentLimit - 1, j);
    }
  }

  lemma {:induction false} DescendingPairwise(xs: seq<DoseLog>, i: nat, j: nat)
    requires ActionDescending(xs) && i <= j < |xs|
    ensures xs[i].actionTime >= xs[j].actionTime
    decreases j - i
  {
    if i < j {
      DescendingPairwise(xs, i, j - 1);
    }
  }

  // ---------------------------------------------------------------------------
  // Seven-day adherence

  /** Recorded logs whose action is after `weekStart`; no upper bound is applied. */
  function WeekLogs(logs: seq<DoseLog>, clock: Clock): (r: seq<DoseLog>)
    ensures forall l: DoseLog :: l in r <==> l in logs && l.actionTime > clock.weekStart && Recorded(l)
  {
    Filter(logs, (l: DoseLog) => l.actionTime > clock.weekStart && Recorded(l))
  }

  /** `filter(l => l.status === 'Taken').length` */
  function TakenCount(logs: seq<DoseLog>): (n: nat)
    ensures n <= |logs|
    ensures n == 0 <==> forall l :: l in logs ==> l.status != Taken
    ensures n == |logs| <==> forall l :: l in logs ==> l.status == Taken
  {
    FilterKeepsAll(logs, (l: DoseLog) => l.status == Taken);
    Count(logs, (l: DoseLog) => l.status == Taken)
  }

  /** 0 without logs this week, else the rounded percentage of them that are Taken. */
  function WeeklyAdherence(logs: seq<DoseLog>, clock: Clock): (r: nat)
    ensures r <= 100
    ensures |WeekLogs(logs, clock)| == 0 ==> r == 0
    ensures |WeekLogs(logs, clock)| > 0 ==> IsRoundedPercent(TakenCount(WeekLogs(logs, clock)), |WeekLogs(logs, clock)|, r)
  {
    var w := WeekLogs(logs, clock);
    if |w| > 0 then RoundPercent(TakenCount(w), |w|) else 0
  }

  /** Only Taken logs within the window count towards adherence, so with none it is 0 and
      when all are Taken it is 100. */
  lemma {:induction false} WeeklyAdherenceExtremes(logs: seq<DoseLog>, clock: Clock)
    ensures TakenCount(WeekLogs(logs, clock)) == 0 ==> WeeklyAdherence(logs, clock) == 0
    ensures |WeekLogs(logs, clock)| > 0 && TakenCount(WeekLogs(logs, clock)) == |WeekLogs(logs, clock)| ==>
      WeeklyAdherence(logs, clock) == 100
  {
    var w := WeekLogs(logs, clock);
    if |w| > 0 {
      RoundPercentExtremes(|w|);
    }
  }

  // ---------------------------------------------------------------------------
  // Current streak

  /** Logs whose action falls on local day `d` (between its first and last millisecond). */
  function DayLogs(logs: seq<DoseLog>, dayOf: int -> int, d: int): (r: seq<DoseLog>)
    ensures forall l: DoseLog :: l in r <==> l in logs && dayOf(l.actionTime) == d
  {
    Filter(logs, (l: DoseLog) => dayOf(l.actionTime) == d)
  }

  /** `logsForDay.some(log => log.status === 'Taken')` */
  predicate TakenOn(logs: seq<DoseLog>, dayOf: int -> int, d: int) {
    exists l: DoseLog :: l in logs && dayOf(l.actionTime) == d && l.status == Taken
  }

  predicate HasTaken(dayLogs: seq<DoseLog>) {
    exists l: DoseLog :: l in dayLogs && l.status == Taken
  }

  lemma {:induction false} DayLogsTaken(logs: seq<DoseLog>, dayOf: int -> int, d: int)
    ensures HasTaken(DayLogs(logs, dayOf, d)) <==> TakenOn(logs, dayOf, d)
  {
  }

  /** The number of consecutive days, from `d` backwards and at most `n` of them, each with a
      Taken log. */
  function StreakFrom(logs: seq<DoseLog>, dayOf: int -> int, d: int, n: nat): nat
    decreases n
  {
    if n == 0 || !TakenOn(logs, dayOf, d) then 0 else 1 + StreakFrom(logs, dayOf, d - 1, n - 1)
  }

  /** The streak is at most the window, every day it covers has a Taken log, and the day just
      before it (if inside the window) has none. */
  lemma {:induction false} StreakFromMeaning(logs: seq<DoseLog>, dayOf: int -> int, d: int, n: nat)
    ensures StreakFrom(logs, dayOf, d, n) <= n
    ensures forall day: int :: d - StreakFrom(logs, dayOf, d, n) < day <= d ==> TakenOn(logs, dayOf, day)
    ensures StreakFrom(logs, dayOf, d, n) < n ==> !TakenOn(logs, dayOf, d - StreakFrom(logs, dayOf, d, n))
    decreases n
  {
    if n > 0 && TakenOn(logs, dayOf, d) {
      StreakFromMeaning(logs, dayOf, d - 1, n - 1);
    }
  }

  /** Any run of `k` consecutive days with Taken logs, starting today, is counted in full. */
  lemma {:induction false} StreakCountsRun(logs: seq<DoseLog>, dayOf: int -> int, d: int, n: nat, k: nat)
    requires k <= n
    requires forall day: int :: d - k < day <= d ==> TakenOn(logs, dayOf, day)
    ensures StreakFrom(logs, dayOf, d, n) >= k
    decreases n
  {
    if k > 0 {
      assert TakenOn(logs, dayOf, d);
      StreakCountsRun(logs, dayOf, d - 1, n - 1, k - 1);
    }
  }

  /** A run of exactly `k` days with Taken logs, ending today, is the streak: either the run
      fills the window or the day before it has no Taken log. */
  lemma {:induction false} StreakOfRun(logs: seq<DoseLog>, dayOf: int -> int, d: int, n: nat, k: nat)
    requires k <= n
    requires forall day: int :: d - k < day <= d ==> TakenOn(logs, dayOf, day)
    requires k == n || !TakenOn(logs, dayOf, d - k)
    ensures StreakFrom(logs, dayOf, d, n) == k
  {
    StreakCountsRun(logs, dayOf, d, n, k);
    StreakFromMeaning(logs, dayOf, d, n);
  }

  /** The streak loop over a window of `window` days ending with day `today`. */
  method CountStreak(logs: seq<DoseLog>, dayOf: int -> int, today: int, window: nat) returns (streak: nat)
    ensures streak == StreakFrom(logs, dayOf, today, window)
  {
    streak := 0;
    var i := 0;
    while i < window
      invariant 0 <= i <= window && streak == i
      invariant forall day: int :: today - i < day <= today ==> TakenOn(logs, dayOf, day)
    {
      var logsForDay := DayLogs(logs, dayOf, today - i);
      DayLogsTaken(logs, dayOf, today - i);
      if HasTaken(logsForDay) {
        streak := streak + 1;
      } else {
        break;
      }
      i := i + 1;
    }
    StreakOfRun(logs, dayOf, today, window, i);
  }




  /** The current streak: today and the 29 days before it. */
  method CurrentStreak(logs: seq<DoseLog>, clock: Clock) returns (streak: nat)
    ensures streak == StreakFrom(logs, clock.dayOf, clock.dayOf(clock.now), StreakWindow)
  {
    streak := CountStreak(logs, clock.dayOf, clock.dayOf(clock.now), StreakWindow);
  }

  // ---------------------------------------------------------------------------
  // The whole summary

  function SummaryOf(schedules: seq<Schedule>, logs: seq<DoseLog>, clock: Clock): (r: Summary)
    ensures r.kpis.upcomingToday == |r.upcomingDoses|
    ensures r.kpis.adherenceWeekly <= 100 && r.kpis.currentStreak <= StreakWindow
  {
    var upcoming := UpcomingDoses(schedules, clock);
    StreakFromMeaning(logs, clock.dayOf, clock.dayOf(clock.now), StreakWindow);
    Summary(
      Kpis(WeeklyAdherence(logs, clock),
           StreakFrom(logs, clock.dayOf, clock.dayOf(clock.now), StreakWindow),
           |upcoming|),
      upcoming,
      MissedDoses(schedules, logs, clock),
      SkippedDoses(logs, clock),
      RecentActivity(logs))
  }

  /** The handler body, with the database reads replaced by its inputs. */
  method Summarize(schedules: seq<Schedule>, logs: seq<DoseLog>, clock: Clock) returns (r: Summary)
    ensures r == SummaryOf(schedules, logs, clock)
  {
    var upcoming := UpcomingDoses(schedules, clock);
    var missed := MissedDoses(schedules, logs, clock);
    var skipped := SkippedDoses(logs, clock);
    var recent := RecentActivity(logs);
    var weekly := WeeklyAdherence(logs, clock);
    var streak := CurrentStreak(logs, clock);
    r := Summary(Kpis(weekly, streak, |upcoming|), upcoming, missed, skipped, recent);
  }
}
