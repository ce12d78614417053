/**
  Decimal rendering of integers and comma joining, as `to_string()` and
  `join(",")` produce them for chunk ids and tuple ids (src/segment.rs), with
  parsers that invert them.
 */
module Decimal {

  predicate IsDigit(c: char)
  {
    '0' <= c <= '9'
  }

  function DigitChar(d: nat): (c: char)
    requires d < 10
    ensures IsDigit(c)
  {
    (('0' as int) + d) as char
  }

  /** The value of a digit character; other characters read as 0. */
  function DigitValue(c: char): nat
  {
    if IsDigit(c) then (c as int) - ('0' as int) else 0
  }

  /** `usize::to_string()`: the digits of `n`, most significant first. */
  function NatToString(n: nat): (s: string)
    ensures |s| > 0 && forall i :: 0 <= i < |s| ==> IsDigit(s[i])
    ensures s[0] == '0' <==> n == 0
    decreases n
  {
    if n < 10 then [DigitChar(n)] else NatToString(n / 10) + [DigitChar(n % 10)]
  }

  /** `i32::to_string()`: a minus sign before the digits of a negative value. */
  function IntToString(i: int): (s: string)
    ensures |s| > 0 && forall k :: 0 <= k < |s| ==> IsDigit(s[k]) || s[k] == '-'
    ensures s[0] == '-' <==> i < 0
    ensures forall k :: 1 <= k < |s| ==> IsDigit(s[k])
    ensures s[0] == '-' ==> |s| > 1 && s[1] != '0'
  {
    if i < 0 then "-" + NatToString(-i) else NatToString(i)
  }

  function ParseNat(s: string): nat
    decreases |s|
  {
    if |s| == 0 then 0 else ParseNat(s[..|s| - 1]) * 10 + DigitValue(s[|s| - 1])
  }

  function ParseInt(s: string): int
  {
    if |s| > 0 && s[0] == '-' then -(ParseNat(s[1..]) as int) else ParseNat(s)
  }

  /** `join(sep)`: the parts with `sep` between each two. */
  function Join(parts: seq<string>, sep: string): string
    decreases |parts|
  {
    if |parts| == 0 then ""
    else if |parts| == 1 then parts[0]
    else parts[0] + sep + Join(parts[1..], sep)
  }

  /** The pieces of `s` between occurrences of `c`. */
  function Split(s: string, c: char): (r: seq<string>)
    ensures |r| > 0
    decreases |s|
  {
    if |s| == 0 then [""]
    else
      var rest := Split(s[1..], c);
      if s[0] == c then [""] + rest else [[s[0]] + rest[0]] + rest[1..]
  }

  function ParseInts(parts: seq<string>): seq<int>
    decreases |parts|
  {
    if |parts| == 0 then [] else [ParseInt(parts[0])] + ParseInts(parts[1..])
  }

  /** The decimal strings of a sequence of integers. */
  function IntStrings(xs: seq<int>): (r: seq<string>)
    ensures |r| == |xs|
    ensures forall i :: 0 <= i < |xs| ==> r[i] == IntToString(xs[i])
    decreases |xs|
  {
    if |xs| == 0 then [] else [IntToString(xs[0])] + IntStrings(xs[1..])
  }

  /** Comma-separated decimal integers, as an id string. */
  function IdOf(xs: seq<int>): string
  {
    Join(IntStrings(xs), ",")
  }

  /** Reads an id string back into its integers. */
  function ParseId(id: string): seq<int>
  {
    ParseInts(Split(id, ','))
  }

  // ----- Round trips -----

  lemma DigitRoundTrip(d: nat)
    requires d < 10
    ensures DigitValue(DigitChar(d)) == d
  {
  }

  lemma {:induction false} ParseNatToString(n: nat)
    ensures ParseNat(NatToString(n)) == n
    decreases n
  {
    if n >= 10 {
      var s := NatToString(n);
      assert s[..|s| - 1] == NatToString(n / 10);
      ParseNatToString(n / 10);
      DigitRoundTrip(n % 10);
    } else {
      DigitRoundTrip(n);
    }
  }

  /** A negative value renders as a minus sign before the digits of its
      magnitude, and reads back. */
  lemma ParseIntNegative(i: int)
    requires i < 0
    ensures ParseInt(IntToString(i)) == i
  {
    var digits := NatToString(-i);
    var s := "-" + digits;
    assert s[0] == '-' && s[1..] == digits;
    ParseNatToString(-i);
    assert ParseInt(s) == i;
    assert IntToString(i) == s;
  }

  /** A value that is not negative renders as its digits alone, and reads
      back. */
  lemma ParseIntNonNegative(i: int)
    requires i >= 0
    ensures ParseInt(IntToString(i)) == i
  {
    assert IsDigit(IntToString(i)[0]);
    ParseNatToString(i);
  }

  lemma ParseIntToString(i: int)
    ensures ParseInt(IntToString(i)) == i
  {
    if i < 0 {
      ParseIntNegative(i);
    } else {
      ParseIntNonNegative(i);
    }
  }

  /** A string without `c` is one piece. */
  lemma {:induction false} SplitNoSeparator(p: string, c: char)
    requires c !in p
    ensures Split(p, c) == [p]
    decreases |p|
  {
    if |p| > 0 {
      SplitNoSeparator(p[1..], c);
      assert [p[0]] + p[1..] == p;
    }
  }

  /** A piece without `c`, then `c`, then the rest: the piece comes first. */
  lemma {:induction false} SplitAtSeparator(p: string, t: string, c: char)
    requires c !in p
    ensures Split(p + [c] + t, c) == [p] + Split(t, c)
    decreases |p|
  {
    if |p| == 0 {
      assert p + [c] + t == [c] + t;
      assert ([c] + t)[1..] == t;
    } else {
      var s := p + [c] + t;
      assert s[1..] == p[1..] + [c] + t;
      SplitAtSeparator(p[1..], t, c);
      assert [p[0]] + p[1..] == p;
    }
  }

  /** Joining pieces free of `c` with `c` and splitting at `c` gives the
      pieces back. */
  lemma {:induction false} SplitJoin(parts: seq<string>, c: char)
    requires |parts| > 0
    requires forall i :: 0 <= i < |parts| ==> c !in parts[i]
    ensures Split(Join(parts, [c]), c) == parts
    decreases |parts|
  {
    if |parts| == 1 {
      SplitNoSeparator(parts[0], c);
    } else {
      SplitJoin(parts[1..], c);
      SplitAtSeparator(parts[0], Join(parts[1..], [c]), c);
      assert [parts[0]] + parts[1..] == parts;
    }
  }

  lemma {:induction false} ParseIntStrings(xs: seq<int>)
    ensures ParseInts(IntStrings(xs)) == xs
    decreases |xs|
  {
    if |xs| > 0 {
      ParseIntToString(xs[0]);
      ParseIntStrings(xs[1..]);
      assert IntStrings(xs)[1..] == IntStrings(xs[1..]);
    }
  }

  /** A non-empty id string reads back as the integers it was built from. */
  lemma IdRoundTrip(xs: seq<int>)
    requires |xs| > 0
    ensures ParseId(IdOf(xs)) == xs
  {
    var parts := IntStrings(xs);
    assert forall i :: 0 <= i < |parts| ==> ',' !in parts[i];
    SplitJoin(parts, ',');
    assert Join(parts, [',']) == IdOf(xs);
    ParseIntStrings(xs);
  }
}
