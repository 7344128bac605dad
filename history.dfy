/** The history page's grouping of dose logs by the formatted date of their action. */
module History {
  import opened Seqs
  import opened DoseLogs

  /** `new Date(t).toLocaleDateString('en-US', { year, month: 'long', day })`: the date label
      of an instant, a parameter of the model. */
  type DateLabel = int -> string

  /** The logs labelled `key`, in input order. */
  function OnDate(logs: seq<DoseLog>, key: string, dateOf: DateLabel): (r: seq<DoseLog>)
    ensures forall l: DoseLog :: l in r <==> l in logs && dateOf(l.actionTime) == key
    ensures multiset(r) <= multiset(logs)
  {
    Filter(logs, (l: DoseLog) => dateOf(l.actionTime) == key)
  }

  /** A group of a concatenation is the group of the first part followed by that of the second:
      the logs in a group keep their input order. */
  lemma {:induction false} OnDateAppend(xs: seq<DoseLog>, ys: seq<DoseLog>, key: string, dateOf: DateLabel)
    ensures OnDate(xs + ys, key, dateOf) == OnDate(xs, key, dateOf) + OnDate(ys, key, dateOf)
  {
    FilterAppend(xs, ys, (l: DoseLog) => dateOf(l.actionTime) == key);
  }

  lemma {:induction false} OnDateSnoc(logs: seq<DoseLog>, i: nat, key: string, dateOf: DateLabel)
    requires i < |logs|
    ensures OnDate(logs[..i + 1], key, dateOf)
      == OnDate(logs[..i], key, dateOf) + (if dateOf(logs[i].actionTime) == key then [logs[i]] else [])
  {
    FilterSnoc(logs, i, (l: DoseLog) => dateOf(l.actionTime) == key);
  }

  /** The keys of the grouping object, in insertion order: each date once, where it first
      appears. */
  function DateKeys(logs: seq<DoseLog>, dateOf: DateLabel): (keys: seq<string>)
    ensures |keys| <= |logs|
  {
    if |logs| == 0 then []
    else
      var init := logs[..|logs| - 1];
      var last := logs[|logs| - 1];
      var keys := DateKeys(init, dateOf);
      if dateOf(last.actionTime) in keys then keys else keys + [dateOf(last.actionTime)]
  }

  /** The keys are exactly the dates of the logs. */
  lemma {:induction false} DateKeysMembers(logs: seq<DoseLog>, dateOf: DateLabel)
    ensures forall k :: k in DateKeys(logs, dateOf) <==> exists l: DoseLog :: l in logs && dateOf(l.actionTime) == k
  {
    if |logs| > 0 {
      var init := logs[..|logs| - 1];
      assert logs == init + [logs[|logs| - 1]];
      DateKeysMembers(init, dateOf);
    }
  }

  /** Each date is a key once. */
  lemma {:induction false} DateKeysDistinct(logs: seq<DoseLog>, dateOf: DateLabel)
    ensures Distinct(DateKeys(logs, dateOf))
  {
    if |logs| > 0 {
      DateKeysDistinct(logs[..|logs| - 1], dateOf);
    }
  }

  lemma {:induction false} DateKeysSnoc(logs: seq<DoseLog>, i: nat, dateOf: DateLabel)
    requires i < |logs|
    ensures var keys := DateKeys(logs[..i], dateOf);
      var d := dateOf(logs[i].actionTime);
      DateKeys(logs[..i + 1], dateOf) == if d in keys then keys else keys + [d]
  {
    assert logs[..i + 1][..i] == logs[..i];
  }

  /** A date that is not a key has no logs. */
  lemma {:induction false} NewKeyEmpty(logs: seq<DoseLog>, k: string, dateOf: DateLabel)
    requires k !in DateKeys(logs, dateOf)
    ensures OnDate(logs, k, dateOf) == []
  {
    DateKeysMembers(logs, dateOf);
  }

  /** The keys found in the first n logs come first, in the same order: groups are listed in
      order of first appearance. */
  lemma {:induction false} DateKeysPrefix(logs: seq<DoseLog>, n: nat, dateOf: DateLabel)
    requires n <= |logs|
    ensures DateKeys(logs[..n], dateOf) <= DateKeys(logs, dateOf)
    decreases |logs| - n
  {
    if n < |logs| {
      DateKeysPrefix(logs, n + 1, dateOf);
      assert logs[..n + 1][..n] == logs[..n];
    } else {
      assert logs[..n] == logs;
    }
  }

  /** The sizes of the groups of `keys`, added up. */
  function SizeSum(logs: seq<DoseLog>, keys: seq<string>, dateOf: DateLabel): nat {
    if |keys| == 0 then 0 else |OnDate(logs, keys[0], dateOf)| + SizeSum(logs, keys[1..], dateOf)
  }

  lemma {:induction false} SizeSumSnocLog(logs: seq<DoseLog>, i: nat, keys: seq<string>, dateOf: DateLabel)
    requires i < |logs| && Distinct(keys)
    ensures SizeSum(logs[..i + 1], keys, dateOf)
      == SizeSum(logs[..i], keys, dateOf) + (if dateOf(logs[i].actionTime) in keys then 1 else 0)
  {
    if |keys| > 0 {
      OnDateSnoc(logs, i, keys[0], dateOf);
      SizeSumSnocLog(logs, i, keys[1..], dateOf);
      assert keys == [keys[0]] + keys[1..];
    }
  }

  lemma {:induction false} SizeSumSnocKey(logs: seq<DoseLog>, keys: seq<string>, k: string, dateOf: DateLabel)
    ensures SizeSum(logs, keys + [k], dateOf) == SizeSum(logs, keys, dateOf) + |OnDate(logs, k, dateOf)|
  {
    if |keys| > 0 {
      assert (keys + [k])[1..] == keys[1..] + [k];
      SizeSumSnocKey(logs, keys[1..], k, dateOf);
    } else {
      assert keys + [k] == [k];
    }
  }

  /** Every log lands in exactly one group, so the groups hold as many logs as the input. */
  lemma {:induction false} GroupSizesTotal(logs: seq<DoseLog>, dateOf: DateLabel)
    ensures SizeSum(logs, DateKeys(logs, dateOf), dateOf) == |logs|
  {
    if |logs| > 0 {
      var n := |logs| - 1;
      var keys := DateKeys(logs[..n], dateOf);
      var k := dateOf(logs[n].actionTime);
      GroupSizesTotal(logs[..n], dateOf);
      DateKeysDistinct(logs[..n], dateOf);
      SizeSumSnocLog(logs, n, keys, dateOf);
      DateKeysSnoc(logs, n, dateOf);
      assert logs[..n + 1] == logs;
      if k !in keys {
        SizeSumSnocKey(logs, keys, k, dateOf);
        NewKeyEmpty(logs[..n], k, dateOf);
        OnDateSnoc(logs, n, k, dateOf);
      }
    }
  }

  /** The grouping object as a value: each date's logs, in input order. */
  function Groups(logs: seq<DoseLog>, dateOf: DateLabel): (groups: map<string, seq<DoseLog>>)
    ensures forall k :: k in groups ==> |groups[k]| > 0
  {
    if |logs| == 0 then map[]
    else
      var init := logs[..|logs| - 1];
      var last := logs[|logs| - 1];
      var date := dateOf(last.actionTime);
      var g := Groups(init, dateOf);
      if date in g then g[date := g[date] + [last]] else g[date := [last]]
  }

  /** The groups are those of the keys. */
  lemma {:induction false} GroupsDomain(logs: seq<DoseLog>, dateOf: DateLabel)
    ensures forall k :: k in Groups(logs, dateOf) <==> k in DateKeys(logs, dateOf)
  {
    if |logs| > 0 {
      GroupsDomain(logs[..|logs| - 1], dateOf);
    }
  }

  /** Each group holds exactly the logs of its date, in input order. */
  lemma {:induction false} GroupsOnDate(logs: seq<DoseLog>, dateOf: DateLabel, k: string)
    requires k in Groups(logs, dateOf)
    ensures Groups(logs, dateOf)[k] == OnDate(logs, k, dateOf)
  {
    var n := |logs| - 1;
    var init := logs[..n];
    var date := dateOf(logs[n].actionTime);
    var g := Groups(init, dateOf);
    OnDateSnoc(logs, n, k, dateOf);
    assert logs[..n + 1] == logs;
    if k in g {
      GroupsOnDate(init, dateOf, k);
    } else {
      assert k == date;
      GroupsDomain(init, dateOf);
      NewKeyEmpty(init, k, dateOf);
    }
  }

  /** Every log lands in exactly one group: the one keyed by its own date. */
  lemma {:induction false} LogInOneGroup(logs: seq<DoseLog>, dateOf: DateLabel, l: DoseLog)
    requires l in logs
    ensures dateOf(l.actionTime) in Groups(logs, dateOf)
    ensures l in Groups(logs, dateOf)[dateOf(l.actionTime)]
    ensures forall k :: k in Groups(logs, dateOf) && l in Groups(logs, dateOf)[k] ==> k == dateOf(l.actionTime)
  {
    GroupsDomain(logs, dateOf);
    DateKeysMembers(logs, dateOf);
    GroupsOnDate(logs, dateOf, dateOf(l.actionTime));
    forall k | k in Groups(logs, dateOf) && l in Groups(logs, dateOf)[k] ensures k == dateOf(l.actionTime) {
      GroupsOnDate(logs, dateOf, k);
    }
  }

  /** The `reduce` that builds the grouping object: for each log, creates its date's group when
      missing and appends the log to it. `keys` is the object's key order. */
  method GroupByDate(logs: seq<DoseLog>, dateOf: DateLabel) returns (keys: seq<string>, groups: map<string, seq<DoseLog>>)
    ensures keys == DateKeys(logs, dateOf)
    ensures groups == Groups(logs, dateOf)
  {
    keys := [];
    groups := map[];
    var i := 0;
    while i < |logs|
      invariant 0 <= i <= |logs|
      invariant keys == DateKeys(logs[..i], dateOf)
      invariant groups == Groups(logs[..i], dateOf)
    {
      var log := logs[i];
      var date := dateOf(log.actionTime);
      assert logs[..i + 1][..i] == logs[..i];
      GroupsDomain(logs[..i], dateOf);
      ghost var before := groups;
      if date !in groups {
        groups := groups[date := []];
        keys := keys + [date];
      }
      assert groups[date] + [log] == if date in before then before[date] + [log] else [log];
      groups := groups[date := groups[date] + [log]];
      assert groups == if date in before then before[date := before[date] + [log]] else before[date := [log]];
      i := i + 1;
    }
    assert logs[..i] == logs;
  }
}
