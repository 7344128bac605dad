/** The analytics page's aggregation of dose logs: totals per status, overall adherence, seven
    daily buckets ending today, today's missed doses and the weekly average. */
module Analytics {
  import opened Wrappers
  import opened Seqs
  import opened DoseLogs

  const DayMs: int := 24 * 60 * 60 * 1000
  const BucketCount: nat := 7

  /** The date of an instant as `toISOString().slice(0, 10)` gives it: the UTC day number. */
  function UtcDay(t: int): (d: int)
    ensures d * DayMs <= t < (d + 1) * DayMs
  {
    t / DayMs
  }

  /** Going back k whole days from an instant goes back k UTC dates. */
  lemma {:induction false} UtcDayBack(t: int, k: int)
    ensures UtcDay(t - k * DayMs) == UtcDay(t) - k
  {
    var q, r := t / DayMs, t % DayMs;
    assert t == q * DayMs + r && 0 <= r < DayMs;
    assert t - k * DayMs == (q - k) * DayMs + r;
  }

  /** `logs.filter(l => l.status === s).length` */
  function CountStatus(logs: seq<DoseLog>, s: Status): (n: nat)
    ensures n <= |logs|
    ensures n == 0 <==> forall l :: l in logs ==> l.status != s
  {
    var p := (l: DoseLog) => l.status == s;
    assert |Filter(logs, p)| > 0 ==> Filter(logs, p)[0] in Filter(logs, p);
    Count(logs, p)
  }

  lemma {:induction false} CountStatusFirst(logs: seq<DoseLog>, s: Status)
    requires |logs| > 0
    ensures CountStatus(logs, s) == (if logs[0].status == s then 1 else 0) + CountStatus(logs[1..], s)
  {
  }

  /** Every log has exactly one of the three statuses, so the three counts add up to the
      number of logs. */
  lemma {:induction false} StatusCountsSum(logs: seq<DoseLog>)
    ensures CountStatus(logs, Taken) + CountStatus(logs, Missed) + CountStatus(logs, Skipped) == |logs|
  {
    if |logs| > 0 {
      StatusCountsSum(logs[1..]);
      CountStatusFirst(logs, Taken);
      CountStatusFirst(logs, Missed);
      CountStatusFirst(logs, Skipped);
    } else {
      assert CountStatus(logs, Taken) == 0 && CountStatus(logs, Missed) == 0 && CountStatus(logs, Skipped) == 0;
    }
  }

  /** `total === 0 ? 0 : Math.round((taken / total) * 100)`. */
  function Adherence(taken: nat, total: nat): (r: nat)
    requires taken <= total
    ensures r <= 100
    ensures total == 0 ==> r == 0
    ensures total > 0 ==> IsRoundedPercent(taken, total, r)
  {
    if total == 0 then 0 else RoundPercent(taken, total)
  }

  datatype Stats = Stats(overallAdherence: nat, totalTaken: nat, totalMissed: nat, totalSkipped: nat)

  /** One day of the chart: its date, adherence and counts. */
  datatype DayBucket = DayBucket(date: int, adherence: nat, takenCount: nat, missedCount: nat, skippedCount: nat)

  datatype AnalyticsData = AnalyticsData(stats: Stats, weeklyAdherence: seq<DayBucket>, missedDosesToday: seq<DoseLog>)

  /** The logs whose action date is `date`. */
  function LogsOn(logs: seq<DoseLog>, date: int): (r: seq<DoseLog>)
    ensures forall l: DoseLog :: l in r <==> l in logs && UtcDay(l.actionTime) == date
  {
    Filter(logs, (l: DoseLog) => UtcDay(l.actionTime) == date)
  }

  function StatsOf(logs: seq<DoseLog>): (s: Stats)
    ensures s.totalTaken + s.totalMissed + s.totalSkipped == |logs|
    ensures s.overallAdherence == Adherence(s.totalTaken, |logs|)
    ensures s.totalTaken == CountStatus(logs, Taken) && s.totalMissed == CountStatus(logs, Missed)
      && s.totalSkipped == CountStatus(logs, Skipped)
  {
    var taken := CountStatus(logs, Taken);
    var missed := CountStatus(logs, Missed);
    var skipped := CountStatus(logs, Skipped);
    var total := |logs|;
    StatusCountsSum(logs);
    assert taken + missed + skipped == total;
    Stats(Adherence(taken, total), taken, missed, skipped)
  }

  /** The instant of bucket i: `setDate(today.getDate() - (6 - i))`. */
  function BucketInstant(now: int, i: int): (t: int)
    ensures UtcDay(t) == UtcDay(now) - (BucketCount - 1 - i)
    ensures i == BucketCount - 1 ==> t == now
  {
    UtcDayBack(now, BucketCount - 1 - i);
    now - (BucketCount - 1 - i) * DayMs
  }

  function BucketOf(logs: seq<DoseLog>, date: int): (b: DayBucket)
    ensures b.date == date
    ensures b.takenCount == CountStatus(LogsOn(logs, date), Taken)
    ensures b.missedCount == CountStatus(LogsOn(logs, date), Missed)
    ensures b.skippedCount == CountStatus(LogsOn(logs, date), Skipped)
    ensures b.takenCount + b.missedCount + b.skippedCount == |LogsOn(logs, date)|
    ensures b.adherence <= 100
    ensures |LogsOn(logs, date)| == 0 ==> b.adherence == 0
  {
    var s := StatsOf(LogsOn(logs, date));
    DayBucket(date, s.overallAdherence, s.totalTaken, s.totalMissed, s.totalSkipped)
  }

  /** The seven buckets, oldest first. */
  function WeeklyBuckets(logs: seq<DoseLog>, now: int): (bs: seq<DayBucket>)
    ensures |bs| == BucketCount
    ensures forall i :: 0 <= i < |bs| ==> bs[i] == BucketOf(logs, UtcDay(BucketInstant(now, i)))
  {
    seq(BucketCount, (i: int) => BucketOf(logs, UtcDay(BucketInstant(now, i))))
  }

  lemma {:induction false} BucketDate(now: int, i: int)
    ensures UtcDay(BucketInstant(now, i)) == UtcDay(now) - (BucketCount - 1 - i)
  {
    UtcDayBack(now, BucketCount - 1 - i);
  }

  /** Bucket i holds the date i - 6 days from today: the last bucket is today, the dates are
      increasing, hence distinct, and a log is counted in at most one bucket. */
  lemma {:induction false} WeeklyBucketDates(logs: seq<DoseLog>, now: int)
    ensures var bs := WeeklyBuckets(logs, now);
      && (forall i :: 0 <= i < |bs| ==> bs[i].date == UtcDay(now) - (BucketCount - 1 - i))
      && bs[BucketCount - 1].date == UtcDay(now)
      && (forall i, j :: 0 <= i < j < |bs| ==> bs[i].date < bs[j].date)
  {
    var bs := WeeklyBuckets(logs, now);
    forall i | 0 <= i < |bs| ensures bs[i].date == UtcDay(now) - (BucketCount - 1 - i) {
      BucketDate(now, i);
      assert bs[i].date == UtcDay(BucketInstant(now, i));
    }
  }

  /** A log is counted in the bucket of its own date and in no other. */
  lemma {:induction false} LogInOneBucket(logs: seq<DoseLog>, now: int, l: DoseLog, i: int, j: int)
    requires l in logs && 0 <= i < BucketCount && 0 <= j < BucketCount
    requires l in LogsOn(logs, WeeklyBuckets(logs, now)[i].date)
    requires l in LogsOn(logs, WeeklyBuckets(logs, now)[j].date)
    ensures i == j
  {
    WeeklyBucketDates(logs, now);
  }

  /** The logs with status Missed whose action date is today. */
  function MissedToday(logs: seq<DoseLog>, now: int): (r: seq<DoseLog>)
    ensures forall l: DoseLog :: l in r <==> l in logs && l.status == Missed && UtcDay(l.actionTime) == UtcDay(now)
    ensures multiset(r) <= multiset(logs)
  {
    Filter(logs, (l: DoseLog) => l.status == Missed && UtcDay(l.actionTime) == UtcDay(now))
  }

  /** `fetchData`: nothing without logs (the page then shows "Not Enough Data"). */
  function Compute(logs: seq<DoseLog>, now: int): (r: Option<AnalyticsData>)
    ensures r.None? <==> |logs| == 0
    ensures r.Some? ==>
      && r.value.stats == StatsOf(logs)
      && r.value.weeklyAdherence == WeeklyBuckets(logs, now)
      && r.value.missedDosesToday == MissedToday(logs, now)
  {
    if |logs| == 0 then None
    else Some(AnalyticsData(StatsOf(logs), WeeklyBuckets(logs, now), MissedToday(logs, now)))
  }

  /** The adherence values of the buckets added up. */
  function AdherenceSum(bs: seq<DayBucket>): (s: nat)
    ensures (forall i :: 0 <= i < |bs| ==> bs[i].adherence <= 100) ==> s <= 100 * |bs|
  {
    if |bs| == 0 then 0 else bs[0].adherence + AdherenceSum(bs[1..])
  }

  /** `Math.round(sum / length)` on integers: half rounds up. */
  function RoundedMean(sum: nat, n: nat): (r: nat)
    requires n > 0
    ensures 2 * n * r <= 2 * sum + n < 2 * n * (r + 1)
    ensures sum <= 100 * n ==> r <= 100
  {
    var r := (2 * sum + n) / (2 * n);
    assert sum <= 100 * n ==> 2 * sum + n < 2 * n * 101;
    r
  }

  /** The weekly average shown under the table: a rounded mean of the seven buckets, in [0, 100]. */
  function WeeklyAverage(bs: seq<DayBucket>): (r: nat)
    requires |bs| > 0
    ensures 2 * |bs| * r <= 2 * AdherenceSum(bs) + |bs| < 2 * |bs| * (r + 1)
  {
    RoundedMean(AdherenceSum(bs), |bs|)
  }

  lemma {:induction false} WeeklyAverageBound(logs: seq<DoseLog>, now: int)
    ensures WeeklyAverage(WeeklyBuckets(logs, now)) <= 100
  {
    var bs := WeeklyBuckets(logs, now);
    assert AdherenceSum(bs) <= 100 * |bs|;
  }
}
