/** The dose-log record the server stores for every taken, skipped or missed dose
    (`Backend/server/models/DoseLog.js`), and the adherence percentage computed from logs. */
module DoseLogs {
  import opened Wrappers

  /** The three statuses the schema's enum admits. */
  datatype Status = Taken | Skipped | Missed

  /** The string stored for a status. */
  function StatusName(s: Status): string {
    match s
    case Taken => "Taken"
    case Skipped => "Skipped"
    case Missed => "Missed"
  }

  /** The enum check: the status a stored string denotes, if any. */
  function ParseStatus(t: string): (r: Option<Status>)
    ensures r.Some? <==> t in {"Taken", "Skipped", "Missed"}
  {
    if t == "Taken" then Some(Taken)
    else if t == "Skipped" then Some(Skipped)
    else if t == "Missed" then Some(Missed)
    else None
  }

  /** The enum check accepts exactly the three names, each naming its own status. */
  lemma {:induction false} ParseStatusName(t: string, s: Status)
    ensures ParseStatus(t) == Some(s) <==> t == StatusName(s)
  {
  }

  /** A stored dose log (identifiers as their hexadecimal text, dates as milliseconds). */
  datatype DoseLog = DoseLog(
    user: string,
    scheduleId: string,
    medicationName: string,
    scheduledTime: int,
    time: Option<string>,
    actionTime: int,
    status: Status,
    createdAt: int,
    updatedAt: int)

  /** The fields a create request supplies; `None` is a missing (undefined or null) value. */
  datatype LogInput = LogInput(
    user: Option<string>,
    scheduleId: Option<string>,
    medicationName: Option<string>,
    scheduledTime: Option<int>,
    time: Option<string>,
    actionTime: Option<int>,
    status: Option<string>)

  /** A `required` string path fails when the value is missing or empty. */
  predicate MissingText(v: Option<string>) {
    v.None? || v.value == ""
  }

  /** The paths that fail schema validation. */
  function Failures(d: LogInput): (paths: set<string>)
    ensures "user" in paths <==> d.user.None?
    ensures "scheduleId" in paths <==> d.scheduleId.None?
    ensures "medicationName" in paths <==> MissingText(d.medicationName)
    ensures "scheduledTime" in paths <==> d.scheduledTime.None?
    ensures "actionTime" in paths <==> d.actionTime.None?
    ensures "status" in paths <==> d.status.None? || ParseStatus(d.status.value).None?
    ensures paths <= {"user", "scheduleId", "medicationName", "scheduledTime", "actionTime", "status"}
  {
    (if d.user.None? then {"user"} else {})
    + (if d.scheduleId.None? then {"scheduleId"} else {})
    + (if MissingText(d.medicationName) then {"medicationName"} else {})
    + (if d.scheduledTime.None? then {"scheduledTime"} else {})
    + (if d.actionTime.None? then {"actionTime"} else {})
    + (if d.status.None? || ParseStatus(d.status.value).None? then {"status"} else {})
  }

  /** Saving a new log: schema validation, then the record with both timestamps set to `now`. */
  function Create(d: LogInput, now: int): (r: Result<DoseLog, set<string>>)
    ensures r.Err? <==> Failures(d) != {}
    ensures r.Err? ==> r.error == Failures(d)
    ensures r.Ok? ==>
      && Some(r.value.user) == d.user
      && Some(r.value.scheduleId) == d.scheduleId
      && Some(r.value.medicationName) == d.medicationName && r.value.medicationName != ""
      && Some(r.value.scheduledTime) == d.scheduledTime
      && r.value.time == d.time
      && Some(r.value.actionTime) == d.actionTime
      && Some(StatusName(r.value.status)) == d.status
      && r.value.createdAt == now && r.value.updatedAt == now
  {
    var failures := Failures(d);
    if failures != {} then Err(failures)
    else
      var status := ParseStatus(d.status.value).value;
      ParseStatusName(d.status.value, status);
      Ok(DoseLog(d.user.value, d.scheduleId.value, d.medicationName.value, d.scheduledTime.value,
                 d.time, d.actionTime.value, status, now, now))
  }

  /** A log whose status is one of Taken, Skipped and Missed (the filters `['Taken', 'Skipped', 'Missed'].includes(status)`). */
  predicate Recorded(l: DoseLog) {
    l.status in {Taken, Skipped, Missed}
  }

  /** The enum leaves no other status, so the `includes` filters keep every log. */
  lemma {:induction false} AllRecorded(l: DoseLog)
    ensures Recorded(l)
  {
    match l.status
    case Taken =>
    case Skipped =>
    case Missed =>
  }

  /** `r` is `part / whole * 100` rounded half up: `r - 1/2 <= 100 * part / whole < r + 1/2`. */
  predicate IsRoundedPercent(part: nat, whole: nat, r: nat) {
    2 * whole * r <= 200 * part + whole < 2 * whole * (r + 1)
  }

  /** `Math.round(part / whole * 100)` on exact rationals: round half up. */
  function RoundPercent(part: nat, whole: nat): (r: nat)
    requires 0 < whole && part <= whole
    ensures r <= 100
    ensures IsRoundedPercent(part, whole, r)
  {
    var n, d := 200 * part + whole, 2 * whole;
    var r := n / d;
    DivBounds(n, d);
    assert n < d * 101;
    QuotientBound(n, d, 101);
    r
  }

  /** The rounding bracket leaves one value: a contract stating it fixes the result. */
  lemma {:induction false} RoundedPercentUnique(part: nat, whole: nat, r1: nat, r2: nat)
    requires whole > 0 && IsRoundedPercent(part, whole, r1) && IsRoundedPercent(part, whole, r2)
    ensures r1 == r2
  {
    if r1 < r2 {
      MulMonotone(2 * whole, r1 + 1, r2);
    } else if r2 < r1 {
      MulMonotone(2 * whole, r2 + 1, r1);
    }
  }

  /** A dividend below d * k has a quotient below k. */
  lemma {:induction false} QuotientBound(n: nat, d: nat, k: int)
    requires d > 0 && n < d * k
    ensures n / d < k
  {
    DivBounds(n, d);
    if n / d >= k {
      MulMonotone(d, k, n / d);
    }
  }

  /** The quotient of Euclidean division brackets the dividend. */
  lemma {:induction false} DivBounds(n: nat, d: nat)
    requires d > 0
    ensures d * (n / d) <= n < d * (n / d + 1)
  {
    var q, m := n / d, n % d;
    assert n == d * q + m && m < d;
    assert d * (q + 1) == d * q + d;
  }

  lemma {:induction false} MulMonotone(d: nat, a: int, b: int)
    requires a <= b
    ensures d * a <= d * b
  {
    var k := b - a;
    assert d * b == d * a + d * k;
  }

  /** None Taken rounds to 0 percent, all Taken to 100. */
  lemma {:induction false} RoundPercentExtremes(whole: nat)
    requires whole > 0
    ensures RoundPercent(0, whole) == 0 && RoundPercent(whole, whole) == 100
  {
    assert whole / (2 * whole) == 0;
    assert 201 * whole == 100 * (2 * whole) + whole;
    assert (200 * whole + whole) / (2 * whole) == 100;
  }
}
