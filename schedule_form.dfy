/** The schedule form's state: its fields and the editing of its list of dose times, which is
    kept sorted as `Array.prototype.sort()` sorts strings. */
module ScheduleForms {
  import opened Text

  const DefaultTime: string := "09:00"
  const AddedTime: string := "17:00"

  /** The text inputs the generic change handler serves, by their `name` attribute. */
  datatype Field = Name | Dosage | StartDate

  /** Swaps the times at positions j - 1 and j. */
  method SwapDown(a: array<string>, j: int)
    requires 0 < j < a.Length
    modifies a
    ensures a[j - 1] == old(a[j]) && a[j] == old(a[j - 1])
    ensures forall k :: 0 <= k < a.Length && k != j - 1 && k != j ==> a[k] == old(a[k])
    ensures multiset(a[..]) == old(multiset(a[..]))
  {
    a[j - 1], a[j] := a[j], a[j - 1];
  }

  /** One insertion step: moves a[i] down until the prefix up to i is ascending. */
  method InsertDown(a: array<string>, i: int)
    requires 0 <= i < a.Length
    requires forall k :: 0 < k < i ==> StrLe(a[k - 1], a[k])
    modifies a
    ensures forall k :: 0 < k <= i ==> StrLe(a[k - 1], a[k])
    ensures multiset(a[..]) == old(multiset(a[..]))
  {
    var j := i;
    while j > 0 && !StrLe(a[j - 1], a[j])
      invariant 0 <= j <= i
      invariant forall k :: 0 < k <= i && k != j ==> StrLe(a[k - 1], a[k])
      invariant 0 < j < i ==> StrLe(a[j - 1], a[j + 1])
      invariant multiset(a[..]) == old(multiset(a[..]))
    {
      StrLeTotal(a[j - 1], a[j]);
      SwapDown(a, j);
      j := j - 1;
    }
  }

  /** `newTimes.sort()`: sorts the array in place by code-point order. */
  method SortTimes(a: array<string>)
    modifies a
    ensures Ascending(a[..])
    ensures multiset(a[..]) == old(multiset(a[..]))
  {
    var i := 0;
    while i < a.Length
      invariant 0 <= i <= a.Length
      invariant forall k :: 0 < k < i ==> StrLe(a[k - 1], a[k])
      invariant multiset(a[..]) == old(multiset(a[..]))
    {
      InsertDown(a, i);
      i := i + 1;
    }
  }

  /** `times.filter((_, i) => i !== index)`; an index past the end removes nothing. */
  function RemoveAt(times: seq<string>, index: nat): (r: seq<string>)
    ensures index < |times| ==> |r| == |times| - 1
    ensures index >= |times| ==> r == times
    ensures forall i :: 0 <= i < |r| ==> r[i] == (if i < index then times[i] else times[i + 1])
    ensures index < |times| ==> multiset(r) + multiset{times[index]} == multiset(times)
  {
    if index < |times| then
      assert times == times[..index] + [times[index]] + times[index + 1..];
      times[..index] + times[index + 1..]
    else times
  }

  /** Removal keeps the relative order of the other times, so a sorted list stays sorted. */
  lemma {:induction false} RemoveAtAscending(times: seq<string>, index: nat)
    requires Ascending(times)
    ensures Ascending(RemoveAt(times, index))
  {
    var r := RemoveAt(times, index);
    forall i | 0 < i < |r| ensures StrLe(r[i - 1], r[i]) {
      if index < |times| && i == index {
        AscendingPairwise(times, i - 1, i + 1);
      }
    }
  }

  /** The remove button is shown only when there is more than one time. */
  predicate CanRemove(times: seq<string>) {
    |times| > 1
  }

  /** So removing through the form never empties the list. */
  lemma {:induction false} RemoveKeepsOne(times: seq<string>, index: nat)
    requires CanRemove(times)
    ensures |RemoveAt(times, index)| >= 1
  {
  }

  class ScheduleForm {
    var name: string
    var dosage: string
    var times: seq<string>
    var startDate: string

    /** A new form: empty name and dosage, one time at 09:00, starting today (`today` is the
        formatted current date). */
    constructor(today: string)
      ensures name == "" && dosage == "" && times == [DefaultTime] && startDate == today
    {
      name := "";
      dosage := "";
      times := [DefaultTime];
      startDate := today;
    }

    /** Editing an existing schedule replaces every field (`start` is its formatted date). */
    method LoadExisting(n: string, d: string, ts: seq<string>, start: string)
      modifies this
      ensures name == n && dosage == d && times == ts && startDate == start
    {
      name, dosage, times, startDate := n, d, ts, start;
    }

    /** `handleInputChange`: only the named field changes. */
    method HandleInputChange(field: Field, value: string)
      modifies this
      ensures times == old(times)
      ensures name == (if field == Name then value else old(name))
      ensures dosage == (if field == Dosage then value else old(dosage))
      ensures startDate == (if field == StartDate then value else old(startDate))
    {
      match field
      case Name => name := value;
      case Dosage => dosage := value;
      case StartDate => startDate := value;
    }

    /** `handleTimeChange(index, value)`: the time at the index becomes `value`, then the list
        is sorted. The index is that of a rendered time. */
    method HandleTimeChange(index: nat, value: string)
      requires index < |times|
      modifies this
      ensures |times| == old(|times|)
      ensures multiset(times) == multiset(old(times)[index := value])
      ensures Ascending(times)
      ensures name == old(name) && dosage == old(dosage) && startDate == old(startDate)
    {
      var current := times;
      var a := new string[|current|](i requires 0 <= i < |current| => current[i]);
      assert a[..] == current;
      a[index] := value;
      assert a[..] == old(times)[index := value];
      SortTimes(a);
      times := a[..];
    }

    /** `addTime`: appends 17:00, then sorts. */
    method AddTime()
      modifies this
      ensures |times| == old(|times|) + 1
      ensures multiset(times) == multiset(old(times)) + multiset{AddedTime}
      ensures AddedTime in times
      ensures Ascending(times)
      ensures name == old(name) && dosage == old(dosage) && startDate == old(startDate)
    {
      var extended := times + [AddedTime];
      var a := new string[|extended|](i requires 0 <= i < |extended| => extended[i]);
      assert a[..] == extended;
      SortTimes(a);
      times := a[..];
      assert AddedTime in multiset(times);
    }

    /** `removeTime(index)`. */
    method RemoveTime(index: nat)
      modifies this
      ensures times == RemoveAt(old(times), index)
      ensures name == old(name) && dosage == old(dosage) && startDate == old(startDate)
    {
      times := RemoveAt(times, index);
    }
  }
}
