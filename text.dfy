/** The JavaScript string operations the application relies on, over `seq<char>`:
    `trim`, `split`, `padStart`, `startsWith`, `toUpperCase`, `replace(/\s+/g, ' ')`,
    and the conversions `Number(...)`, `parseInt(...)` and `String(n)`. */
module Text {
  import opened Wrappers

  // ---------------------------------------------------------------------------
  // Characters

  /** JavaScript's white space and line terminators: the set shared by `trim()` and the regular-expression class `\s`. */
  predicate IsSpace(c: char) {
    c == ' ' || c == '\t' || c == '\n' || c == '\U{B}' || c == '\U{C}' || c == '\r'
    || c == '\U{A0}' || c == '\U{1680}' || ('\U{2000}' <= c <= '\U{200A}')
    || c == '\U{2028}' || c == '\U{2029}' || c == '\U{202F}' || c == '\U{205F}'
    || c == '\U{3000}' || c == '\U{FEFF}'
  }

  predicate IsDigit(c: char) {
    '0' <= c <= '9'
  }

  predicate AllDigits(s: string) {
    forall i :: 0 <= i < |s| ==> IsDigit(s[i])
  }

  predicate NoSpace(s: string) {
    forall i :: 0 <= i < |s| ==> !IsSpace(s[i])
  }

  /** `toUpperCase` on one character, for the ASCII letters. */
  function Upper(c: char): (u: char)
    ensures 'a' <= c <= 'z' ==> 'A' <= u <= 'Z' && u as int == c as int - 32
    ensures !('a' <= c <= 'z') ==> u == c
  {
    if 'a' <= c <= 'z' then (c as int - 32) as char else c
  }

  /** `s.toUpperCase()`, character by character. */
  function ToUpper(s: string): (r: string)
    ensures |r| == |s|
    ensures forall i :: 0 <= i < |s| ==> r[i] == Upper(s[i])
  {
    seq(|s|, i requires 0 <= i < |s| => Upper(s[i]))
  }

  /** `s.startsWith(p)` */
  predicate StartsWith(s: string, p: string) {
    |p| <= |s| && s[..|p|] == p
  }

  // ---------------------------------------------------------------------------
  // Decimal numbers

  function DigitValue(c: char): nat
    requires IsDigit(c)
  {
    c as int - '0' as int
  }

  function DigitChar(d: nat): (c: char)
    requires d < 10
    ensures IsDigit(c) && DigitValue(c) == d
  {
    ('0' as int + d) as char
  }

  /** The value of a string of decimal digits (0 for the empty string). */
  function DigitsValue(s: string): nat
    requires AllDigits(s)
  {
    if |s| == 0 then 0 else DigitsValue(s[..|s| - 1]) * 10 + DigitValue(s[|s| - 1])
  }

  /** A leading zero does not change the value of a digit string. */
  lemma {:induction false} DigitsValueLeadingZero(s: string)
    requires AllDigits(s)
    ensures AllDigits(['0'] + s) && DigitsValue(['0'] + s) == DigitsValue(s)
  {
    var z := ['0'] + s;
    if |s| > 0 {
      assert z[..|z| - 1] == ['0'] + s[..|s| - 1];
      assert z[|z| - 1] == s[|s| - 1];
      DigitsValueLeadingZero(s[..|s| - 1]);
    } else {
      assert z[..|z| - 1] == [];
    }
  }

  /** Values of two-character digit strings. */
  lemma {:induction false} DigitsValueTwo(s: string)
    requires |s| == 2 && AllDigits(s)
    ensures DigitsValue(s) == 10 * DigitValue(s[0]) + DigitValue(s[1])
  {
    var p := s[..1];
    assert p[..0] == [] && p[0] == s[0];
    assert DigitsValue(p) == DigitValue(s[0]);
    assert s[..|s| - 1] == p;
  }

  /** `String(n)` for a natural number: its decimal digits, no leading zero. */
  function NatToDecimal(n: nat): (r: string)
    ensures 1 <= |r| && AllDigits(r) && DigitsValue(r) == n
    ensures n < 10 ==> |r| == 1
    ensures n < 100 ==> |r| <= 2
  {
    if n < 10 then [DigitChar(n)]
    else
      var r := NatToDecimal(n / 10) + [DigitChar(n % 10)];
      assert r[..|r| - 1] == NatToDecimal(n / 10);
      r
  }

  /** `Number(s)` on a string: the empty string is 0, a string of ASCII digits is its value,
      anything else is NaN (`None`). */
  function NumberOf(s: string): (r: Option<nat>)
    ensures s == "" ==> r == Some(0)
  {
    if AllDigits(s) then Some(DigitsValue(s)) else None
  }

  /** The longest prefix of `s` made of digits. */
  function LeadingDigits(s: string): (r: string)
    ensures AllDigits(r) && r <= s
    ensures |r| < |s| ==> !IsDigit(s[|r|])
  {
    if |s| > 0 && IsDigit(s[0]) then [s[0]] + LeadingDigits(s[1..]) else ""
  }

  /** `parseInt(s)`: the value of the leading digits, NaN (`None`) when there are none. */
  function ParseInt(s: string): (r: Option<nat>)
    ensures r.None? <==> |s| == 0 || !IsDigit(s[0])
  {
    var d := LeadingDigits(s);
    if |d| == 0 then None else Some(DigitsValue(d))
  }

  lemma {:induction false} LeadingDigitsOfDigits(s: string)
    requires AllDigits(s)
    ensures LeadingDigits(s) == s
  {
  }

  /** `s.padStart(2, '0')` */
  function Pad2(s: string): (r: string)
    ensures |s| >= 2 ==> r == s
    ensures |s| < 2 ==> |r| == 2 && r[2 - |s|..] == s && forall i :: 0 <= i < 2 - |s| ==> r[i] == '0'
  {
    if |s| >= 2 then s else if |s| == 1 then ['0'] + s else "00"
  }

  /** Zero padding keeps the value `Number` gives a string, numeric or NaN. */
  lemma {:induction false} NumberOfPad2(s: string)
    ensures NumberOf(Pad2(s)) == NumberOf(s)
  {
    if |s| == 1 {
      if AllDigits(s) { DigitsValueLeadingZero(s); }
      else { assert !IsDigit(Pad2(s)[1]); }
    } else if |s| == 0 {
      assert DigitsValue("00") == DigitsValue("0") == DigitsValue("") by {
        DigitsValueLeadingZero("");
        DigitsValueLeadingZero("0");
      }
    }
  }

  /** A two-digit rendering of a number below 100 (`String(n).padStart(2, '0')`). */
  function TwoDigits(n: nat): (r: string)
    requires n < 100
    ensures |r| == 2 && AllDigits(r) && DigitsValue(r) == n
  {
    var d := NatToDecimal(n);
    if |d| == 1 then DigitsValueLeadingZero(d); Pad2(d) else d
  }

  // ---------------------------------------------------------------------------
  // split and join

  /** `s.split(sep)` for a one-character separator. */
  function Split(s: string, sep: char): (parts: seq<string>)
    ensures |parts| >= 1
    ensures forall i :: 0 <= i < |parts| ==> sep !in parts[i]
    decreases |s|
  {
    if |s| == 0 then [""]
    else if s[0] == sep then [""] + Split(s[1..], sep)
    else
      var rest := Split(s[1..], sep);
      [[s[0]] + rest[0]] + rest[1..]
  }

  /** `parts.join(sep)` */
  function Join(parts: seq<string>, sep: char): string
    requires |parts| >= 1
  {
    if |parts| == 1 then parts[0] else parts[0] + [sep] + Join(parts[1..], sep)
  }

  /** Splitting and joining again gives back the original string. */
  lemma {:induction false} JoinSplit(s: string, sep: char)
    ensures Join(Split(s, sep), sep) == s
    decreases |s|
  {
    if |s| > 0 {
      var rest := Split(s[1..], sep);
      JoinSplit(s[1..], sep);
      if s[0] == sep {
        assert Split(s, sep)[1..] == rest;
      } else {
        var parts := Split(s, sep);
        assert parts[1..] == rest[1..];
        if |rest| == 1 {
          assert Join(parts, sep) == [s[0]] + rest[0];
        } else {
          assert Join(parts, sep) == [s[0]] + rest[0] + [sep] + Join(rest[1..], sep);
        }
      }
    }
  }

  /** A piece without the separator, followed by the separator, becomes the first part. */
  lemma {:induction false} SplitPiece(x: string, sep: char, y: string)
    requires sep !in x
    ensures Split(x + [sep] + y, sep) == [x] + Split(y, sep)
    decreases |x|
  {
    var s := x + [sep] + y;
    if |x| == 0 {
      assert s == [sep] + y;
      assert s[1..] == y;
    } else {
      assert s[1..] == x[1..] + [sep] + y;
      SplitPiece(x[1..], sep, y);
      assert s[0] == x[0] && [x[0]] + x[1..] == x;
    }
  }

  /** A string without the separator splits into itself. */
  lemma {:induction false} SplitWhole(x: string, sep: char)
    requires sep !in x
    ensures Split(x, sep) == [x]
    decreases |x|
  {
    if |x| > 0 {
      SplitWhole(x[1..], sep);
      assert [x[0]] + x[1..] == x;
    }
  }

  // ---------------------------------------------------------------------------
  // Lexicographic order

  /** Code-point lexicographic order, the order of `Array.prototype.sort` on strings. */
  predicate StrLe(a: string, b: string)
    ensures a <= b ==> StrLe(a, b)
    decreases |a|
  {
    |a| == 0 || (|b| > 0 && (a[0] < b[0] || (a[0] == b[0] && StrLe(a[1..], b[1..]))))
  }

  lemma {:induction false} StrLeTotal(a: string, b: string)
    ensures StrLe(a, b) || StrLe(b, a)
    decreases |a|
  {
    if |a| > 0 && |b| > 0 && a[0] == b[0] {
      StrLeTotal(a[1..], b[1..]);
    }
  }

  lemma {:induction false} StrLeTrans(a: string, b: string, c: string)
    requires StrLe(a, b) && StrLe(b, c)
    ensures StrLe(a, c)
    decreases |a|
  {
    if |a| > 0 && a[0] == b[0] && b[0] == c[0] {
      StrLeTrans(a[1..], b[1..], c[1..]);
    }
  }

  lemma {:induction false} StrLeAntisym(a: string, b: string)
    requires StrLe(a, b) && StrLe(b, a)
    ensures a == b
    decreases |a|
  {
    if |a| > 0 {
      StrLeAntisym(a[1..], b[1..]);
      assert a == [a[0]] + a[1..] && b == [b[0]] + b[1..];
    }
  }

  lemma {:induction false} StrLeRefl(a: string)
    ensures StrLe(a, a)
    decreases |a|
  {
    if |a| > 0 {
      StrLeRefl(a[1..]);
    }
  }

  /** Each string is `StrLe` its successor: what `Array.prototype.sort()` yields on strings. */
  predicate Ascending(ss: seq<string>) {
    forall i :: 0 < i < |ss| ==> StrLe(ss[i - 1], ss[i])
  }

  /** In an ascending sequence every earlier string is `StrLe` every later one. */
  lemma {:induction false} AscendingPairwise(ss: seq<string>, i: nat, j: nat)
    requires Ascending(ss) && i <= j < |ss|
    ensures StrLe(ss[i], ss[j])
    decreases j - i
  {
    if i == j {
      StrLeRefl(ss[i]);
    } else {
      AscendingPairwise(ss, i, j - 1);
      StrLeTrans(ss[i], ss[j - 1], ss[j]);
    }
  }

  // ---------------------------------------------------------------------------
  // White space: trim, collapse, split(/\s+/)

  /** `s.trimStart()` */
  function TrimStart(s: string): (r: string)
    ensures |r| <= |s| && r == s[|s| - |r|..]
    ensures |r| > 0 ==> !IsSpace(r[0])
    ensures forall i :: 0 <= i < |s| - |r| ==> IsSpace(s[i])
  {
    if |s| > 0 && IsSpace(s[0]) then TrimStart(s[1..]) else s
  }

  /** `s.trimEnd()` */
  function TrimEnd(s: string): (r: string)
    ensures |r| <= |s| && r == s[..|r|]
    ensures |r| > 0 ==> !IsSpace(r[|r| - 1])
    ensures forall i :: |r| <= i < |s| ==> IsSpace(s[i])
  {
    if |s| > 0 && IsSpace(s[|s| - 1]) then TrimEnd(s[..|s| - 1]) else s
  }

  lemma {:induction false} SliceOfSuffix(s: string, k: nat, n: nat)
    requires k + n <= |s|
    ensures s[k..][..n] == s[k..k + n]
  {
  }

  /** `s.trim()`: the contiguous piece of `s` left after removing white space at both ends. */
  function Trim(s: string): (r: string)
    ensures |r| > 0 ==> !IsSpace(r[0]) && !IsSpace(r[|r| - 1])
    ensures var k := |s| - |TrimStart(s)|;
            k + |r| <= |s| && r == s[k..k + |r|]
  {
    var t := TrimStart(s);
    var r := TrimEnd(t);
    SliceOfSuffix(s, |s| - |t|, |r|);
    r
  }

  /** A string that neither starts nor ends with white space is its own trim. */
  lemma {:induction false} TrimUntrimmed(s: string)
    requires |s| > 0 ==> !IsSpace(s[0]) && !IsSpace(s[|s| - 1])
    ensures Trim(s) == s
  {
  }

  /** `s.replace(/\s+/g, ' ')`: every maximal run of white space becomes one space. */
  function Collapse(s: string): (r: string)
    ensures |r| <= |s|
    decreases |s|
  {
    if |s| == 0 then ""
    else if IsSpace(s[0]) then " " + Collapse(TrimStart(s[1..]))
    else [s[0]] + Collapse(s[1..])
  }

  /** Collapsing keeps the string empty or not, and the white space at its start. */
  lemma {:induction false} CollapseStart(s: string)
    ensures |Collapse(s)| == 0 <==> |s| == 0
    ensures |s| > 0 ==> (IsSpace(Collapse(s)[0]) <==> IsSpace(s[0]))
  {
  }

  /** Collapsing keeps the white space at the end. */
  lemma {:induction false} CollapseEnd(s: string)
    ensures |s| > 0 ==> (IsSpace(Collapse(s)[|Collapse(s)| - 1]) <==> IsSpace(s[|s| - 1]))
    decreases |s|
  {
    if |s| > 0 {
      var r := Collapse(s);
      if IsSpace(s[0]) {
        var t := TrimStart(s[1..]);
        assert r == " " + Collapse(t);
        if |t| == 0 {
          assert forall i :: 1 <= i < |s| ==> IsSpace(s[i]);
        } else {
          assert t[|t| - 1] == s[|s| - 1];
          CollapseStart(t);
          CollapseEnd(t);
        }
      } else if |s| > 1 {
        assert r == [s[0]] + Collapse(s[1..]);
        CollapseStart(s[1..]);
        CollapseEnd(s[1..]);
      }
    }
  }

  /** The only white space collapsing leaves is the plain space. */
  lemma {:induction false} CollapsePlainSpaces(s: string)
    ensures forall i :: 0 <= i < |Collapse(s)| && IsSpace(Collapse(s)[i]) ==> Collapse(s)[i] == ' '
    decreases |s|
  {
    if |s| > 0 {
      var r := Collapse(s);
      var tail := if IsSpace(s[0]) then TrimStart(s[1..]) else s[1..];
      CollapsePlainSpaces(tail);
      assert r == (if IsSpace(s[0]) then " " else [s[0]]) + Collapse(tail);
      forall i | 0 < i < |r| ensures r[i] == Collapse(tail)[i - 1] {
      }
    }
  }

  /** Collapsing leaves no two adjacent white-space characters. */
  lemma {:induction false} CollapseNoDouble(s: string)
    ensures forall i :: 0 < i < |Collapse(s)| ==> !(IsSpace(Collapse(s)[i - 1]) && IsSpace(Collapse(s)[i]))
    decreases |s|
  {
    if |s| > 0 {
      var tail := if IsSpace(s[0]) then TrimStart(s[1..]) else s[1..];
      var c := if IsSpace(s[0]) then ' ' else s[0];
      CollapseNoDouble(tail);
      CollapseStart(tail);
      assert Collapse(s) == [c] + Collapse(tail);
      NoDoubleCons(c, Collapse(tail));
    }
  }

  lemma {:induction false} NoDoubleCons(c: char, rest: string)
    requires |rest| > 0 && IsSpace(c) ==> !IsSpace(rest[0])
    requires forall i :: 0 < i < |rest| ==> !(IsSpace(rest[i - 1]) && IsSpace(rest[i]))
    ensures forall i :: 0 < i < |[c] + rest| ==> !(IsSpace(([c] + rest)[i - 1]) && IsSpace(([c] + rest)[i]))
  {
    var r := [c] + rest;
    forall i | 0 < i < |r| ensures !(IsSpace(r[i - 1]) && IsSpace(r[i])) {
      if i > 1 {
        assert r[i - 1] == rest[i - 2] && r[i] == rest[i - 1];
      } else {
        assert r[0] == c && r[1] == rest[0];
      }
    }
  }

  /** Trimming a string whose only white space is single plain spaces keeps that form. */
  lemma {:induction false} TrimKeepsSpacing(c: string)
    requires forall i :: 0 <= i < |c| && IsSpace(c[i]) ==> c[i] == ' '
    requires forall i :: 0 < i < |c| ==> !(IsSpace(c[i - 1]) && IsSpace(c[i]))
    ensures var n := Trim(c);
      && (forall i :: 0 <= i < |n| && IsSpace(n[i]) ==> n[i] == ' ')
      && (forall i :: 0 < i < |n| ==> !(IsSpace(n[i - 1]) && IsSpace(n[i])))
  {
    var n := Trim(c);
    var k := |c| - |TrimStart(c)|;
    assert n == c[k..k + |n|];
    forall i | 0 < i < |n| ensures !(IsSpace(n[i - 1]) && IsSpace(n[i])) {
      assert n[i - 1] == c[k + i - 1] && n[i] == c[k + i];
    }
    forall i | 0 <= i < |n| && IsSpace(n[i]) ensures n[i] == ' ' {
      assert n[i] == c[k + i];
    }
  }

  /** A string without white space is unchanged by collapsing. */
  lemma {:induction false} CollapseNoSpace(x: string)
    requires NoSpace(x)
    ensures Collapse(x) == x
  {
    if |x| > 0 {
      CollapseNoSpace(x[1..]);
    }
  }

  /** Collapsing a word followed by anything keeps the word and collapses the rest. */
  lemma {:induction false} CollapseWordThen(x: string, y: string)
    requires NoSpace(x)
    ensures Collapse(x + y) == x + Collapse(y)
  {
    if |x| > 0 {
      var s := x + y;
      assert s[1..] == x[1..] + y;
      assert s[0] == x[0] && !IsSpace(s[0]);
      assert Collapse(s) == [s[0]] + Collapse(s[1..]);
      CollapseWordThen(x[1..], y);
      assert [x[0]] + (x[1..] + Collapse(y)) == x + Collapse(y);
    } else {
      assert x + y == y;
    }
  }

  /** `s.split(/\s+/)`: the pieces between maximal runs of white space (a leading or trailing
      run gives an empty first or last piece). */
  function SplitOnSpaces(s: string): (parts: seq<string>)
    ensures |parts| >= 1
    decreases |s|
  {
    if |s| == 0 then [""]
    else if IsSpace(s[0]) then [""] + SplitOnSpaces(TrimStart(s[1..]))
    else
      var rest := SplitOnSpaces(s[1..]);
      [[s[0]] + rest[0]] + rest[1..]
  }

  /** The longest prefix of `s` without white space. */
  function WordPrefix(s: string): (w: string)
    ensures w <= s && NoSpace(w)
    ensures |w| < |s| ==> IsSpace(s[|w|])
  {
    if |s| > 0 && !IsSpace(s[0]) then [s[0]] + WordPrefix(s[1..]) else ""
  }

  /** The words of `s`: its maximal runs of non-white-space characters, in order. */
  function Words(s: string): (ws: seq<string>)
    decreases |s|
  {
    var t := TrimStart(s);
    if |t| == 0 then []
    else
      var w := WordPrefix(t);
      [w] + Words(t[|w|..])
  }

  /** Every word is non-empty and holds no white space. */
  lemma {:induction false} WordsAreWords(s: string)
    ensures forall i :: 0 <= i < |Words(s)| ==> |Words(s)[i]| > 0 && NoSpace(Words(s)[i])
    decreases |s|
  {
    var t := TrimStart(s);
    if |t| > 0 {
      var w := WordPrefix(t);
      var rest := Words(t[|w|..]);
      WordsAreWords(t[|w|..]);
      assert Words(s) == [w] + rest;
      forall i | 0 < i < |Words(s)| ensures Words(s)[i] == rest[i - 1] {
      }
    }
  }

  /** A word followed by anything: its characters go to the first piece. */
  lemma {:induction false} SplitOnSpacesWordThen(w: string, y: string)
    requires NoSpace(w)
    ensures var rest := SplitOnSpaces(y);
            SplitOnSpaces(w + y) == [w + rest[0]] + rest[1..]
    decreases |w|
  {
    if |w| > 0 {
      var s := w + y;
      var rest := SplitOnSpaces(y);
      assert s[1..] == w[1..] + y;
      assert s[0] == w[0] && !IsSpace(s[0]);
      SplitOnSpacesWordThen(w[1..], y);
      var inner := SplitOnSpaces(s[1..]);
      assert inner == [w[1..] + rest[0]] + rest[1..];
      assert SplitOnSpaces(s) == [[s[0]] + inner[0]] + inner[1..];
      assert [w[0]] + (w[1..] + rest[0]) == w + rest[0];
    } else {
      var rest := SplitOnSpaces(y);
      assert w + y == y;
      assert w + rest[0] == rest[0];
      assert [rest[0]] + rest[1..] == rest;
    }
  }

  lemma {:induction false} WordsOfWordStart(s: string)
    requires |s| > 0 && !IsSpace(s[0])
    ensures Words(s) == [WordPrefix(s)] + Words(s[|WordPrefix(s)|..])
  {
    assert TrimStart(s) == s;
  }

  lemma {:induction false} WordsAfterSpace(y: string)
    requires |y| > 0 && IsSpace(y[0])
    ensures TrimStart(y) == TrimStart(y[1..])
    ensures Words(y) == Words(TrimStart(y[1..]))
  {
    WordsTrimStart(y[1..]);
  }

  lemma {:induction false} SplitOnSpacesAfterSpace(y: string)
    requires |y| > 0 && IsSpace(y[0])
    ensures SplitOnSpaces(y) == [""] + SplitOnSpaces(TrimStart(y[1..]))
  {
  }

  /** Trimming the start of a string that ends in a non-space keeps that last character. */
  lemma {:induction false} TrimStartKeepsLast(y: string)
    requires |y| > 0 && !IsSpace(y[|y| - 1])
    ensures |TrimStart(y)| > 0 && TrimStart(y)[|TrimStart(y)| - 1] == y[|y| - 1]
  {
  }

  /** The string after the first word of `s` and the white space that follows it. */
  function AfterFirstWord(s: string): (t: string)
    ensures |t| < |s| || |s| == 0
  {
    var w := WordPrefix(s);
    if |w| < |s| then TrimStart(s[|w| + 1..]) else ""
  }

  lemma {:induction false} SplitOnSpacesSingleWord(s: string)
    requires |s| > 0 && WordPrefix(s) == s
    ensures SplitOnSpaces(s) == [s] && Words(s) == [s]
  {
    var w := WordPrefix(s);
    assert s == w + "";
    SplitOnSpacesWordThen(w, "");
    WordsOfWordStart(s);
    assert s[|w|..] == "";
  }

  lemma {:induction false} SplitOnSpacesWordStep(s: string)
    requires |s| > 0 && !IsSpace(s[0]) && |WordPrefix(s)| < |s|
    ensures SplitOnSpaces(s) == [WordPrefix(s)] + SplitOnSpaces(AfterFirstWord(s))
    ensures Words(s) == [WordPrefix(s)] + Words(AfterFirstWord(s))
  {
    var w := WordPrefix(s);
    var y := s[|w|..];
    assert s == w + y;
    SplitOnSpacesWordThen(w, y);
    WordsOfWordStart(s);
    assert y[1..] == s[|w| + 1..];
    SplitOnSpacesAfterSpace(y);
    WordsAfterSpace(y);
    assert w + "" == w;
  }

  lemma {:induction false} AfterFirstWordEnd(s: string)
    requires |s| > 0 && !IsSpace(s[|s| - 1]) && |WordPrefix(s)| < |s|
    ensures |AfterFirstWord(s)| > 0
    ensures !IsSpace(AfterFirstWord(s)[0])
    ensures AfterFirstWord(s)[|AfterFirstWord(s)| - 1] == s[|s| - 1]
  {
    var n := |WordPrefix(s)|;
    assert IsSpace(s[n]);
    var y1 := s[n + 1..];
    assert |y1| > 0 && y1[|y1| - 1] == s[|s| - 1];
    TrimStartKeepsLast(y1);
    assert AfterFirstWord(s) == TrimStart(y1);
  }

  /** On a string that neither starts nor ends with white space, `split(/\s+/)` gives exactly its words. */
  lemma {:induction false} SplitOnSpacesIsWords(s: string)
    requires |s| > 0 && !IsSpace(s[0]) && !IsSpace(s[|s| - 1])
    ensures SplitOnSpaces(s) == Words(s)
    decreases |s|
  {
    if |WordPrefix(s)| == |s| {
      assert WordPrefix(s) == s;
      SplitOnSpacesSingleWord(s);
    } else {
      AfterFirstWordEnd(s);
      SplitOnSpacesWordStep(s);
      SplitOnSpacesIsWords(AfterFirstWord(s));
    }
  }

  /** Removing leading white space does not change the words. */
  lemma {:induction false} WordsTrimStart(s: string)
    ensures Words(TrimStart(s)) == Words(s)
  {
    assert TrimStart(TrimStart(s)) == TrimStart(s);
  }

  lemma {:induction false} WordPrefixSnocSpace(t: string, c: char)
    requires IsSpace(c)
    ensures WordPrefix(t + [c]) == WordPrefix(t)
    decreases |t|
  {
    if |t| == 0 {
      assert t + [c] == [c];
    } else if !IsSpace(t[0]) {
      assert (t + [c])[1..] == t[1..] + [c];
      WordPrefixSnocSpace(t[1..], c);
    }
  }

  lemma {:induction false} TrimStartSnoc(t: string, c: char)
    ensures |TrimStart(t)| > 0 ==> TrimStart(t + [c]) == TrimStart(t) + [c]
    ensures |TrimStart(t)| == 0 && IsSpace(c) ==> |TrimStart(t + [c])| == 0
    decreases |t|
  {
    if |t| == 0 {
      assert t + [c] == [c];
      assert [c][1..] == [];
    } else if IsSpace(t[0]) {
      assert (t + [c])[1..] == t[1..] + [c];
      TrimStartSnoc(t[1..], c);
    }
  }

  /** A trailing white-space character does not change the words. */
  lemma {:induction false} WordsSnocSpace(t: string, c: char)
    requires IsSpace(c)
    ensures Words(t + [c]) == Words(t)
    decreases |t|
  {
    var T := TrimStart(t);
    TrimStartSnoc(t, c);
    if |T| > 0 {
      var w := WordPrefix(T);
      WordPrefixSnocSpace(T, c);
      assert TrimStart(t + [c]) == T + [c];
      assert (T + [c])[|w|..] == T[|w|..] + [c];
      WordsSnocSpace(T[|w|..], c);
    }
  }

  /** Removing trailing white space does not change the words. */
  lemma {:induction false} WordsTrimEnd(s: string)
    ensures Words(TrimEnd(s)) == Words(s)
    decreases |s|
  {
    if |s| > 0 && IsSpace(s[|s| - 1]) {
      var p := s[..|s| - 1];
      assert s == p + [s[|s| - 1]];
      WordsSnocSpace(p, s[|s| - 1]);
      WordsTrimEnd(p);
    }
  }

  /** The words of `s` are the words of its trim. */
  lemma {:induction false} WordsTrim(s: string)
    ensures Words(Trim(s)) == Words(s)
  {
    WordsTrimEnd(TrimStart(s));
    WordsTrimStart(s);
  }

  // ---------------------------------------------------------------------------
  // Clock times "HH:mm"

  /** A zero-padded 24-hour clock time, as `<input type="time">` produces. */
  predicate IsClockTime(t: string) {
    |t| == 5 && t[2] == ':' && IsDigit(t[0]) && IsDigit(t[1]) && IsDigit(t[3]) && IsDigit(t[4])
    && 10 * DigitValue(t[0]) + DigitValue(t[1]) <= 23
    && 10 * DigitValue(t[3]) + DigitValue(t[4]) <= 59
  }

  /** Minutes after midnight denoted by a clock time. */
  function ClockMinutes(t: string): (m: nat)
    requires IsClockTime(t)
    ensures m < 24 * 60
  {
    (10 * DigitValue(t[0]) + DigitValue(t[1])) * 60 + 10 * DigitValue(t[3]) + DigitValue(t[4])
  }

  /** A clock time splits at its colon into the hour and minute digits. */
  lemma {:induction false} SplitClockTime(t: string)
    requires IsClockTime(t)
    ensures Split(t, ':') == [t[..2], t[3..]]
  {
    assert t == t[..2] + [':'] + t[3..];
    SplitPiece(t[..2], ':', t[3..]);
    SplitWhole(t[3..], ':');
  }

  /** The clock time "hh:mm" for minutes after midnight. */
  function ClockTimeOf(m: nat): (t: string)
    requires m < 24 * 60
    ensures IsClockTime(t) && ClockMinutes(t) == m
  {
    var hh := TwoDigits(m / 60);
    var mm := TwoDigits(m % 60);
    DigitsValueTwo(hh);
    DigitsValueTwo(mm);
    hh + ":" + mm
  }
}
