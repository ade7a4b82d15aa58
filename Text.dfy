/**
 * The string operations the pipeline relies on: decimal rendering and parsing of integers,
 * Python's `str.strip`, `str.lower`, `str.endswith`, `str.replace`, `str.join`, `str.split`,
 * and JavaScript's `String.prototype.trim`.
 */
module Text {
  import opened Wrappers

  predicate IsDigit(c: char)
  {
    '0' <= c <= '9'
  }

  predicate AllDigits(s: string)
  {
    forall i :: 0 <= i < |s| ==> IsDigit(s[i])
  }

  function DigitChar(d: nat): (c: char)
    requires d < 10
    ensures IsDigit(c)
  {
    (48 + d) as char
  }

  function DigitValue(c: char): (d: nat)
    requires IsDigit(c)
    ensures d < 10 && DigitChar(d) == c
  {
    c as int - 48
  }

  /** The decimal digits of `n`, without leading zeros, as Python prints a non-negative int. */
  function NatToString(n: nat): (s: string)
    ensures 1 <= |s| && AllDigits(s)
    ensures n < 10 <==> |s| == 1
    decreases n
  {
    if n < 10 then [DigitChar(n)] else NatToString(n / 10) + [DigitChar(n % 10)]
  }

  /** The number a string of decimal digits denotes (0 for the empty string). */
  function DigitsValue(s: string): nat
    requires AllDigits(s)
  {
    if s == [] then 0 else DigitsValue(s[..|s| - 1]) * 10 + DigitValue(s[|s| - 1])
  }

  lemma {:induction false} DigitsValueOfNatToString(n: nat)
    ensures DigitsValue(NatToString(n)) == n
    decreases n
  {
    if n >= 10 {
      var s := NatToString(n);
      assert s[..|s| - 1] == NatToString(n / 10);
      DigitsValueOfNatToString(n / 10);
    }
  }

  /** Python's `str(x)` of an int: a minus sign before the digits of a negative number. */
  function IntToString(x: int): string
  {
    if x < 0 then "-" + NatToString(-x) else NatToString(x)
  }

  /** Python's `int(s)` restricted to an optional minus sign followed by decimal digits. */
  function ParseInt(s: string): Option<int>
  {
    if 2 <= |s| && s[0] == '-' && AllDigits(s[1..]) then Some(0 - DigitsValue(s[1..]))
    else if 1 <= |s| && AllDigits(s) then Some(DigitsValue(s))
    else None
  }

  lemma ParseIntOfIntToString(x: int)
    ensures ParseInt(IntToString(x)) == Some(x)
  {
    if x < 0 {
      var d := NatToString(-x);
      var s := "-" + d;
      assert s[1..] == d;
      DigitsValueOfNatToString(-x);
      assert ParseInt(s) == Some(0 - DigitsValue(d));
    } else {
      var s := NatToString(x);
      assert IsDigit(s[0]);
      DigitsValueOfNatToString(x);
      assert ParseInt(s) == Some(DigitsValue(s));
    }
  }

  /** Python's `format(n, "02d")` for a non-negative `n`: at least two digits, zero-padded. */
  function Pad2(n: nat): string
  {
    var d := NatToString(n);
    if |d| < 2 then "0" + d else d
  }

  lemma Pad2Digits(n: nat)
    requires n < 100
    ensures |Pad2(n)| == 2 && AllDigits(Pad2(n)) && DigitsValue(Pad2(n)) == n
  {
    DigitsValueOfNatToString(n);
    if n < 10 {
      var p := Pad2(n);
      assert p[..1] == "0";
      assert DigitsValue(p[..1]) == DigitsValue([]) * 10 + 0;
    } else {
      assert NatToString(n) == NatToString(n / 10) + [DigitChar(n % 10)];
    }
  }

  /** The position of the first `c` in `s`, if there is one. */
  function IndexOf(s: string, c: char): (r: Option<nat>)
    ensures r.Some? ==> r.value < |s| && s[r.value] == c && c !in s[..r.value]
    ensures r.None? ==> c !in s
  {
    if s == [] then None
    else if s[0] == c then Some(0)
    else match IndexOf(s[1..], c)
      case None => None
      case Some(i) => assert s[..i + 1] == [s[0]] + s[1..][..i]; Some(i + 1)
  }

  /** The code points Python's `str.isspace` accepts, and so `str.strip()` removes. */
  predicate PyIsSpace(c: char)
  {
    var n := c as int;
    n == 0x20 || 0x09 <= n <= 0x0D || 0x1C <= n <= 0x1F || n == 0x85 || n == 0xA0
    || n == 0x1680 || 0x2000 <= n <= 0x200A || n == 0x2028 || n == 0x2029
    || n == 0x202F || n == 0x205F || n == 0x3000
  }

  /** The code points JavaScript's `String.prototype.trim` removes (WhiteSpace and LineTerminator). */
  predicate JsIsSpace(c: char)
  {
    var n := c as int;
    n == 0x20 || 0x09 <= n <= 0x0D || n == 0xA0 || n == 0x1680 || 0x2000 <= n <= 0x200A
    || n == 0x2028 || n == 0x2029 || n == 0x202F || n == 0x205F || n == 0x3000 || n == 0xFEFF
  }

  /** Where the stripped text begins: the first character that is not a space. */
  function StripStart(s: string, isSpace: char -> bool): (i: nat)
    ensures i <= |s|
    ensures forall k :: 0 <= k < i ==> isSpace(s[k])
    ensures i < |s| ==> !isSpace(s[i])
  {
    if s == [] || !isSpace(s[0]) then 0 else 1 + StripStart(s[1..], isSpace)
  }

  /** Where the stripped text ends: just after the last character that is not a space. */
  function StripEnd(s: string, isSpace: char -> bool): (j: nat)
    ensures j <= |s|
    ensures forall k :: j <= k < |s| ==> isSpace(s[k])
    ensures 0 < j ==> !isSpace(s[j - 1])
  {
    if s == [] || !isSpace(s[|s| - 1]) then |s| else StripEnd(s[..|s| - 1], isSpace)
  }

  /** `s` without its leading and trailing spaces (Python's `str.strip()`, JavaScript's `trim()`). */
  function Strip(s: string, isSpace: char -> bool): (r: string)
    ensures |r| <= |s|
    ensures r == [] <==> forall k :: 0 <= k < |s| ==> isSpace(s[k])
    ensures r != [] ==> !isSpace(r[0]) && !isSpace(r[|r| - 1])
    ensures r != [] ==> r == s[StripStart(s, isSpace)..StripEnd(s, isSpace)]
  {
    var i := StripStart(s, isSpace);
    var j := StripEnd(s, isSpace);
    if j <= i then
      assert forall k :: 0 <= k < |s| ==> isSpace(s[k]) by {
        forall k | 0 <= k < |s| ensures isSpace(s[k]) {
          if k >= i { assert k >= j; }
        }
      }
      assert s[0..0] == [];
      []
    else s[i..j]
  }

  lemma {:induction false} StripStartAt(s: string, isSpace: char -> bool, i: nat)
    requires i < |s| && (forall k :: 0 <= k < i ==> isSpace(s[k])) && !isSpace(s[i])
    ensures StripStart(s, isSpace) == i
    decreases i
  {
    if i > 0 {
      StripStartAt(s[1..], isSpace, i - 1);
    }
  }

  lemma {:induction false} StripEndAt(s: string, isSpace: char -> bool, j: nat)
    requires 0 < j <= |s| && (forall k :: j <= k < |s| ==> isSpace(s[k])) && !isSpace(s[j - 1])
    ensures StripEnd(s, isSpace) == j
    decreases |s| - j
  {
    if j < |s| {
      var t := s[..|s| - 1];
      assert forall k :: j <= k < |t| ==> t[k] == s[k];
      StripEndAt(t, isSpace, j);
    }
  }

  /** Stripping a word padded with spaces on both sides gives the word. */
  lemma StripPadded(a: string, w: string, b: string, isSpace: char -> bool)
    requires (forall k :: 0 <= k < |a| ==> isSpace(a[k])) && (forall k :: 0 <= k < |b| ==> isSpace(b[k]))
    requires w != [] && !isSpace(w[0]) && !isSpace(w[|w| - 1])
    ensures Strip(a + w + b, isSpace) == w
  {
    var s := a + w + b;
    assert forall k :: 0 <= k < |a| ==> s[k] == a[k];
    assert forall k :: |a| + |w| <= k < |s| ==> s[k] == b[k - |a| - |w|];
    assert s[|a|] == w[0] && s[|a| + |w| - 1] == w[|w| - 1];
    StripStartAt(s, isSpace, |a|);
    StripEndAt(s, isSpace, |a| + |w|);
    assert s[|a|..|a| + |w|] == w;
  }

  /** ASCII case folding, as Python's `str.lower()` does it for ASCII letters. */
  function LowerChar(c: char): char
  {
    if 'A' <= c <= 'Z' then (c as int + 32) as char else c
  }

  function Lower(s: string): (r: string)
    ensures |r| == |s| && forall i :: 0 <= i < |s| ==> r[i] == LowerChar(s[i])
  {
    seq(|s|, i requires 0 <= i < |s| => LowerChar(s[i]))
  }

  /** Python's `str.endswith`. */
  predicate EndsWith(s: string, suffix: string)
  {
    |suffix| <= |s| && s[|s| - |suffix|..] == suffix
  }

  /** `pat` occurs in `s` starting at position `i`. */
  predicate OccursAt(s: string, pat: string, i: nat)
  {
    i + |pat| <= |s| && s[i..i + |pat|] == pat
  }

  /** Python's `s.replace(pat, rep)`: every non-overlapping occurrence, scanning left to right. */
  function ReplaceAll(s: string, pat: string, rep: string): string
    requires pat != []
    decreases |s|
  {
    if |s| < |pat| then s
    else if s[..|pat|] == pat then rep + ReplaceAll(s[|pat|..], pat, rep)
    else [s[0]] + ReplaceAll(s[1..], pat, rep)
  }

  lemma {:induction false} ReplaceAllAbsent(s: string, pat: string, rep: string)
    requires pat != []
    requires forall i :: 0 <= i <= |s| ==> !OccursAt(s, pat, i)
    ensures ReplaceAll(s, pat, rep) == s
    decreases |s|
  {
    if |pat| <= |s| {
      assert !OccursAt(s, pat, 0);
      assert s[0..|pat|] == s[..|pat|];
      forall i | 0 <= i <= |s[1..]| ensures !OccursAt(s[1..], pat, i) {
        if i + |pat| <= |s| - 1 {
          assert s[1..][i..i + |pat|] == s[i + 1..i + 1 + |pat|];
          assert !OccursAt(s, pat, i + 1);
        }
      }
      ReplaceAllAbsent(s[1..], pat, rep);
      assert s == [s[0]] + s[1..];
    }
  }

  /** Python's `sep.join(parts)`. */
  function Join(parts: seq<string>, sep: string): string
  {
    if parts == [] then ""
    else if |parts| == 1 then parts[0]
    else parts[0] + sep + Join(parts[1..], sep)
  }

  /** Python's `s.split(c)` for a one-character separator. */
  function Split(s: string, c: char): (r: seq<string>)
    ensures |r| >= 1
    decreases |s|
  {
    match IndexOf(s, c)
    case None => [s]
    case Some(i) => [s[..i]] + Split(s[i + 1..], c)
  }

  /** Splitting a join on the separator gives the parts back when no part holds the separator. */
  lemma {:induction false} SplitJoin(parts: seq<string>, c: char)
    requires |parts| >= 1
    requires forall i :: 0 <= i < |parts| ==> c !in parts[i]
    ensures Split(Join(parts, [c]), c) == parts
    decreases |parts|
  {
    if |parts| == 1 {
      assert Join(parts, [c]) == parts[0];
    } else {
      var p := parts[0];
      var rest := Join(parts[1..], [c]);
      var s := Join(parts, [c]);
      assert s == p + [c] + rest;
      assert s[..|p|] == p;
      assert s[|p|] == c;
      assert IndexOf(s, c) == Some(|p|);
      assert s[|p| + 1..] == rest;
      SplitJoin(parts[1..], c);
      assert parts == [p] + parts[1..];
    }
  }

  /** Joining after appending one part adds the separator and that part. */
  lemma {:induction false} JoinSnoc(parts: seq<string>, last: string, sep: string)
    requires parts != []
    ensures Join(parts + [last], sep) == Join(parts, sep) + sep + last
    decreases |parts|
  {
    if |parts| == 1 {
      assert (parts + [last])[1..] == [last];
    } else {
      assert (parts + [last])[1..] == parts[1..] + [last];
      JoinSnoc(parts[1..], last, sep);
    }
  }
}
