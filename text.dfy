/**
 * The string operations the score display relies on: the decimal text of an
 * integer number, replacing the first occurrence of a token, and splitting on
 * newlines.
 */
module Text {
  import opened Wrappers

  predicate IsDigit(c: char) { '0' <= c <= '9' }

  predicate IsDigits(s: string) { forall i :: 0 <= i < |s| ==> IsDigit(s[i]) }

  function DigitChar(d: int): (c: char)
    requires 0 <= d < 10
    ensures IsDigit(c)
  {
    ('0' as int + d) as char
  }

  function DigitValue(c: char): (d: int)
    requires IsDigit(c)
    ensures 0 <= d < 10 && DigitChar(d) == c
  {
    c as int - '0' as int
  }

  /** The shortest decimal numeral of a natural number. */
  function NatToDecimal(n: nat): (s: string)
    ensures |s| >= 1 && IsDigits(s)
    ensures s[0] == '0' ==> n == 0 && s == "0"
  {
    if n < 10 then [DigitChar(n)] else NatToDecimal(n / 10) + [DigitChar(n % 10)]
  }

  /**
   * The text JavaScript gives an integer number when it is converted to a
   * string: an optional minus sign followed by the shortest decimal numeral.
   */
  function DecimalString(n: int): (s: string)
    ensures |s| >= 1
    ensures s[0] == '-' <==> n < 0
    ensures n < 0 ==> IsDigits(s[1..])
    ensures n >= 0 ==> IsDigits(s)
    ensures n >= 0 ==> (s[0] == '0' ==> s == "0")
    ensures n < 0 ==> |s| >= 2 && s[1] != '0'
  {
    if n < 0 then "-" + NatToDecimal(-n) else NatToDecimal(n)
  }

  /** The value of a numeral. */
  function ParseNat(s: string): nat
    requires IsDigits(s)
  {
    if s == [] then 0 else 10 * ParseNat(s[..|s| - 1]) + DigitValue(s[|s| - 1])
  }

  /** The value of an optionally signed numeral. */
  function ParseInt(s: string): int
    requires |s| >= 1
    requires s[0] == '-' ==> IsDigits(s[1..])
    requires s[0] != '-' ==> IsDigits(s)
  {
    if s[0] == '-' then 0 - ParseNat(s[1..]) as int else ParseNat(s)
  }

  lemma {:induction false} NatRoundTrip(n: nat)
    ensures ParseNat(NatToDecimal(n)) == n
  {
    if n >= 10 {
      var s := NatToDecimal(n);
      assert s[..|s| - 1] == NatToDecimal(n / 10);
      NatRoundTrip(n / 10);
    }
  }

  /** Reading back the decimal text of an integer gives the integer. */
  lemma DecimalRoundTrip(n: int)
    ensures ParseInt(DecimalString(n)) == n
  {
    if n < 0 {
      assert DecimalString(n)[1..] == NatToDecimal(-n);
      NatRoundTrip(-n);
    } else {
      NatRoundTrip(n);
    }
  }

  /** Whether `t` occurs in `s` starting at index `i`. */
  predicate OccursAt(s: string, t: string, i: int) {
    0 <= i && i + |t| <= |s| && s[i..i + |t|] == t
  }

  /** The first index at or after `from` where `t` occurs in `s` (`indexOf`). */
  function IndexOf(s: string, t: string, from: nat): (r: Option<nat>)
    requires from <= |s|
    ensures r.Some? ==> from <= r.value && OccursAt(s, t, r.value)
    ensures r.Some? ==> forall j :: from <= j < r.value ==> !OccursAt(s, t, j)
    ensures r.None? ==> forall j :: from <= j ==> !OccursAt(s, t, j)
    decreases |s| - from
  {
    if OccursAt(s, t, from) then Some(from)
    else if from + |t| >= |s| then None
    else IndexOf(s, t, from + 1)
  }

  /** `t` occurs in `s` at `i` and nowhere before `i`. */
  predicate FirstOccurrence(s: string, t: string, i: int) {
    OccursAt(s, t, i) && forall j :: 0 <= j < i ==> !OccursAt(s, t, j)
  }

  /**
   * `replace` with a string pattern: the first occurrence of `t`, if there is
   * one, is replaced by `r`; any later occurrence is kept.
   */
  function ReplaceFirst(s: string, t: string, r: string): (out: string)
    ensures (forall j :: !OccursAt(s, t, j)) ==> out == s
    ensures forall i :: FirstOccurrence(s, t, i) ==> out == s[..i] + r + s[i + |t|..]
  {
    FirstOccurrenceUnique(s, t);
    match IndexOf(s, t, 0)
    case None => s
    case Some(i) => s[..i] + r + s[i + |t|..]
  }

  /** There is at most one first occurrence, and `IndexOf` from 0 finds it. */
  lemma FirstOccurrenceUnique(s: string, t: string)
    ensures forall i :: FirstOccurrence(s, t, i) ==> IndexOf(s, t, 0) == Some(i)
  {
    forall i | FirstOccurrence(s, t, i) ensures IndexOf(s, t, 0) == Some(i) {
      var k := IndexOf(s, t, 0);
      assert k.Some?;
      assert k.value == i;
    }
  }

  /** Without an occurrence of the token, the replacement leaves the string as it is. */
  lemma ReplaceFirstAbsent(s: string, t: string, r: string)
    requires forall j :: !OccursAt(s, t, j)
    ensures ReplaceFirst(s, t, r) == s
  {
  }

  /** With a first occurrence at `i`, exactly that occurrence is replaced. */
  lemma ReplaceFirstAt(s: string, t: string, r: string, i: int)
    requires OccursAt(s, t, i)
    requires forall j :: 0 <= j < i ==> !OccursAt(s, t, j)
    ensures ReplaceFirst(s, t, r) == s[..i] + r + s[i + |t|..]
  {
    assert FirstOccurrence(s, t, i);
  }

  /** The number of newline characters in `s`. */
  function Newlines(s: string): nat {
    if s == [] then 0 else (if s[0] == '\n' then 1 else 0) + Newlines(s[1..])
  }

  /** `s.split(/\n/)`: the newline-separated segments of `s`, in order. */
  function Split(s: string): (lines: seq<string>)
    ensures |lines| == Newlines(s) + 1
    ensures forall k :: 0 <= k < |lines| ==> '\n' !in lines[k]
  {
    if s == [] then [""]
    else
      var rest := Split(s[1..]);
      if s[0] == '\n' then [""] + rest
      else [[s[0]] + rest[0]] + rest[1..]
  }

  /** The segments joined back together with a newline between consecutive ones. */
  function Join(lines: seq<string>): string {
    if |lines| <= 1 then (if lines == [] then "" else lines[0])
    else lines[0] + "\n" + Join(lines[1..])
  }

  /** Splitting and joining again gives back the string. */
  lemma {:induction false} JoinSplit(s: string)
    ensures Join(Split(s)) == s
  {
    if s != [] {
      var rest := Split(s[1..]);
      JoinSplit(s[1..]);
      if s[0] == '\n' {
        assert Split(s) == [""] + rest;
        assert Split(s)[1..] == rest;
      } else {
        var lines := Split(s);
        assert lines[0] == [s[0]] + rest[0];
        if |rest| == 1 {
          assert Join(lines) == [s[0]] + rest[0];
        } else {
          assert lines[1..] == rest[1..];
          assert Join(rest) == rest[0] + "\n" + Join(rest[1..]);
        }
      }
    }
  }

  /** Joining newline-free segments and splitting again gives back the segments. */
  lemma {:induction false} SplitJoin(lines: seq<string>)
    requires |lines| >= 1
    requires forall k :: 0 <= k < |lines| ==> '\n' !in lines[k]
    ensures Split(Join(lines)) == lines
  {
    if |lines| == 1 {
      SplitNoNewline(lines[0]);
    } else {
      SplitJoin(lines[1..]);
      SplitAfterNewline(lines[0], Join(lines[1..]));
    }
  }

  /** A string without a newline is a single segment. */
  lemma {:induction false} SplitNoNewline(s: string)
    requires '\n' !in s
    ensures Split(s) == [s]
  {
    if s != [] {
      assert '\n' !in s[1..];
      SplitNoNewline(s[1..]);
      assert s == [s[0]] + s[1..];
    }
  }

  /** A newline-free prefix followed by a newline becomes the first segment. */
  lemma {:induction false} SplitAfterNewline(a: string, b: string)
    requires '\n' !in a
    ensures Split(a + "\n" + b) == [a] + Split(b)
  {
    if a == [] {
      assert a + "\n" + b == "\n" + b;
      assert ("\n" + b)[1..] == b;
    } else {
      var whole := a + "\n" + b;
      assert whole[0] == a[0] && whole[1..] == a[1..] + "\n" + b;
      assert '\n' !in a[1..];
      SplitAfterNewline(a[1..], b);
      assert a == [a[0]] + a[1..];
    }
  }
}
