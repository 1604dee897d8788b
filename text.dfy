/** The few pieces of Python's `str` behaviour that the sample readers and
    writers rely on: `join`, `split(sep)`, argument-less `split()`, `strip()`,
    `str(int)`, `int(str)` and repetition `c * n`. Whitespace is the ASCII
    whitespace set; Unicode whitespace beyond it is not modelled. */
module Text {
  import opened Wrappers

  predicate IsSpace(c: char) {
    c == ' ' || c == '\t' || c == '\n' || c == '\r' || c == '\U{B}' || c == '\U{C}'
  }

  predicate NoSpace(s: string) {
    forall i :: 0 <= i < |s| ==> !IsSpace(s[i])
  }

  predicate IsDigit(c: char) { '0' <= c <= '9' }

  predicate AllDigits(s: string) {
    forall i :: 0 <= i < |s| ==> IsDigit(s[i])
  }

  /** `c * n` for a one-character string `c`. */
  function Repeat(c: char, n: nat): (r: string)
    ensures |r| == n
    ensures forall i :: 0 <= i < n ==> r[i] == c
  {
    if n == 0 then "" else [c] + Repeat(c, n - 1)
  }

  /** `s * n` for a string or a list `s` and an integer `n`: `s` laid end
      to end `n` times, nothing when `n` is zero or negative. */
  function Times<T>(s: seq<T>, n: int): (r: seq<T>)
    ensures |r| == (if n <= 0 then 0 else n * |s|)
    ensures n > 0 ==> r[..|s|] == s
    ensures forall k :: |s| <= k < |r| ==> r[k] == r[k - |s|]
    ensures forall k :: 0 <= k < |r| ==> r[k] in s
    decreases if n <= 0 then 0 else n
  {
    if n <= 0 then []
    else
      var front := Times(s, n - 1);
      var r := s + front;
      assert |r| == n * |s| by {
        assert n * |s| == |s| + (n - 1) * |s|;
      }
      forall k | |s| <= k < |r|
        ensures r[k] == r[k - |s|] && r[k] in s
      {
        var j := k - |s|;
        assert r[k] == front[j];
        if j < |s| {
          assert front[..|s|] == s;
          assert front[j] == front[..|s|][j];
        } else {
          assert front[j] == front[j - |s|];
        }
      }
      r
  }

  /** `s.replace(a, b)` for one-character strings `a` and `b`. */
  function Replace(s: string, a: char, b: char): (r: string)
    ensures |r| == |s|
    ensures a != b ==> a !in r
    ensures forall i :: 0 <= i < |s| ==> r[i] == (if s[i] == a then b else s[i])
  {
    seq(|s|, i requires 0 <= i < |s| => if s[i] == a then b else s[i])
  }

  /** `sep.join(parts)`. */
  function Join(sep: string, parts: seq<string>): string
  {
    if |parts| == 0 then ""
    else if |parts| == 1 then parts[0]
    else parts[0] + sep + Join(sep, parts[1..])
  }

  /** `s.split(c)` for a one-character separator: never empty. */
  function SplitOn(s: string, c: char): (r: seq<string>)
    ensures |r| >= 1
    decreases |s|
  {
    if |s| == 0 then [""]
    else
      var rest := SplitOn(s[1..], c);
      if s[0] == c then [""] + rest
      else [[s[0]] + rest[0]] + rest[1..]
  }

  /** Length of the leading run of non-whitespace characters. */
  function WordLength(s: string): (k: nat)
    ensures k <= |s|
    ensures forall i :: 0 <= i < k ==> !IsSpace(s[i])
    ensures k < |s| ==> IsSpace(s[k])
  {
    if |s| == 0 || IsSpace(s[0]) then 0 else 1 + WordLength(s[1..])
  }

  /** `s.split()`: the maximal runs of non-whitespace characters. */
  function Words(s: string): (r: seq<string>)
    decreases |s|
  {
    if |s| == 0 then []
    else if IsSpace(s[0]) then Words(s[1..])
    else
      var k := WordLength(s);
      [s[..k]] + Words(s[k..])
  }

  function TrimLeft(s: string): (r: string)
    ensures |r| <= |s|
  {
    if |s| > 0 && IsSpace(s[0]) then TrimLeft(s[1..]) else s
  }

  function TrimRight(s: string): (r: string)
    ensures |r| <= |s|
  {
    if |s| > 0 && IsSpace(s[|s| - 1]) then TrimRight(s[..|s| - 1]) else s
  }

  /** `s.strip()`. */
  function Strip(s: string): string {
    TrimRight(TrimLeft(s))
  }

  function DigitChar(d: nat): (c: char)
    requires d < 10
    ensures IsDigit(c)
  {
    ['0', '1', '2', '3', '4', '5', '6', '7', '8', '9'][d]
  }

  function DigitValue(c: char): (d: nat)
    requires IsDigit(c)
    ensures d < 10
  {
    (c as int - '0' as int) as nat
  }

  /** `str(n)` for a natural number: decimal digits, no leading zero. */
  function NatToString(n: nat): (r: string)
    ensures |r| >= 1 && AllDigits(r)
  {
    if n < 10 then [DigitChar(n)] else NatToString(n / 10) + [DigitChar(n % 10)]
  }

  /** `str(i)` for an integer. */
  function IntToString(i: int): (r: string)
    ensures |r| >= 1 && NoSpace(r)
  {
    NatToStringNoSpace(if i < 0 then -i else i);
    if i < 0 then "-" + NatToString(-i) else NatToString(i)
  }

  /** The value of a string of decimal digits. */
  function DigitsValue(s: string): nat
    requires AllDigits(s)
  {
    if |s| == 0 then 0 else DigitsValue(s[..|s| - 1]) * 10 + DigitValue(s[|s| - 1])
  }

  /** `int(s)` for base 10: surrounding whitespace is ignored, an optional
      sign, then at least one digit; anything else raises `ValueError`. */
  function ParseInt(s: string): (r: Result<int>)
  {
    var t := Strip(s);
    if |t| > 0 && (t[0] == '-' || t[0] == '+') then
      var ds := t[1..];
      if |ds| > 0 && AllDigits(ds) then
        Ok(if t[0] == '-' then -(DigitsValue(ds) as int) else DigitsValue(ds) as int)
      else Err(ValueError("invalid literal for int()"))
    else if |t| > 0 && AllDigits(t) then Ok(DigitsValue(t))
    else Err(ValueError("invalid literal for int()"))
  }

  /** `int(float(s))` for decimal notation: without a point it is `int(s)`;
      with one, an optional sign, digits, the point and digits (at least
      one digit in all), the fraction being dropped toward zero. */
  function TruncateFloat(s: string): (r: Result<int>)
  {
    var parts := SplitOn(Strip(s), '.');
    if |parts| == 1 then ParseInt(s)
    else if |parts| == 2 && AllDigits(parts[1]) then
      var whole := parts[0];
      var signed := |whole| > 0 && (whole[0] == '-' || whole[0] == '+');
      var ds := if signed then whole[1..] else whole;
      if AllDigits(ds) && |ds| + |parts[1]| > 0 then
        Ok(if signed && whole[0] == '-' then -(DigitsValue(ds) as int) else DigitsValue(ds) as int)
      else Err(ValueError("could not convert string to float"))
    else Err(ValueError("could not convert string to float"))
  }

  // ---------------------------------------------------------------------
  // Lemmas

  lemma NatToStringNoSpace(n: nat)
    ensures NoSpace(NatToString(n))
  {
    var s := NatToString(n);
    forall i | 0 <= i < |s| ensures !IsSpace(s[i]) {
      assert IsDigit(s[i]);
    }
  }

  lemma DigitRoundTrip(d: nat)
    requires d < 10
    ensures DigitValue(DigitChar(d)) == d
  {
  }

  /** Reading back the digits of `str(n)` gives `n`. */
  lemma {:induction false} DigitsOfNat(n: nat)
    ensures DigitsValue(NatToString(n)) == n
  {
    DigitRoundTrip(n % 10);
    if n >= 10 {
      DigitsOfNat(n / 10);
      var s := NatToString(n);
      assert s[..|s| - 1] == NatToString(n / 10);
    }
  }

  lemma NoSpaceStrip(s: string)
    requires NoSpace(s)
    ensures Strip(s) == s
  {
    assert TrimLeft(s) == s;
  }

  /** `int(str(n)) == n` for a natural number. */
  lemma ParseNatString(n: nat)
    ensures ParseInt(NatToString(n)) == Ok(n)
  {
    var ds := NatToString(n);
    NatToStringNoSpace(n);
    NoSpaceStrip(ds);
    DigitsOfNat(n);
    assert IsDigit(ds[0]);
  }

  /** `int("-" + str(n)) == -n`. */
  lemma ParseNegString(n: nat)
    ensures ParseInt("-" + NatToString(n)) == Ok(-(n as int))
  {
    var ds := NatToString(n);
    var s := "-" + ds;
    NatToStringNoSpace(n);
    assert NoSpace(s) by {
      forall j | 0 <= j < |s| ensures !IsSpace(s[j]) {
        if j > 0 { assert s[j] == ds[j - 1]; }
      }
    }
    NoSpaceStrip(s);
    assert s[1..] == ds;
    DigitsOfNat(n);
  }

  /** `int(str(i)) == i`. */
  lemma ParseIntRoundTrip(i: int)
    ensures ParseInt(IntToString(i)) == Ok(i)
  {
    if i < 0 {
      assert IntToString(i) == "-" + NatToString(-i);
      ParseNegString(-i);
    } else {
      assert IntToString(i) == NatToString(i);
      ParseNatString(i);
    }
  }

  /** A string without the separator is not split. */
  lemma {:induction false} SplitOnNone(s: string, c: char)
    requires c !in s
    ensures SplitOn(s, c) == [s]
    decreases |s|
  {
    if |s| > 0 {
      SplitOnNone(s[1..], c);
      assert [s[0]] + s[1..] == s;
    }
  }

  lemma {:induction false} SplitOnFirst(p: string, c: char, rest: string)
    requires c !in p
    ensures SplitOn(p + [c] + rest, c) == [p] + SplitOn(rest, c)
    decreases |p|
  {
    var s := p + [c] + rest;
    if |p| == 0 {
      assert s[0] == c && s[1..] == rest;
    } else {
      assert s[1..] == p[1..] + [c] + rest;
      SplitOnFirst(p[1..], c, rest);
      assert [p[0]] + p[1..] == p;
    }
  }

  /** `sep.join(parts).split(sep) == parts` when no part contains the separator. */
  lemma {:induction false} SplitJoin(parts: seq<string>, c: char)
    requires |parts| >= 1
    requires forall k :: 0 <= k < |parts| ==> c !in parts[k]
    ensures SplitOn(Join([c], parts), c) == parts
  {
    if |parts| == 1 {
      SplitOnNone(parts[0], c);
    } else {
      SplitJoin(parts[1..], c);
      assert Join([c], parts) == parts[0] + [c] + Join([c], parts[1..]);
      SplitOnFirst(parts[0], c, Join([c], parts[1..]));
      assert [parts[0]] + parts[1..] == parts;
    }
  }

  lemma {:induction false} WordLengthOfWord(p: string, rest: string)
    requires NoSpace(p)
    requires |rest| > 0 && IsSpace(rest[0])
    ensures WordLength(p + rest) == |p|
    decreases |p|
  {
    if |p| > 0 {
      assert (p + rest)[1..] == p[1..] + rest;
      WordLengthOfWord(p[1..], rest);
    } else {
      assert p + rest == rest;
    }
  }

  lemma WordsOfWord(p: string)
    requires |p| > 0 && NoSpace(p)
    ensures Words(p) == [p]
  {
    var k := WordLength(p);
    assert k == |p|;
    assert p[..k] == p && p[k..] == [];
    assert Words(p) == [p[..k]] + Words(p[k..]);
  }

  /** A tab-joined line of non-empty, whitespace-free fields is split back
      into the same fields by `split()`. */
  lemma {:induction false} WordsJoinTab(parts: seq<string>)
    requires forall k :: 0 <= k < |parts| ==> |parts[k]| > 0 && NoSpace(parts[k])
    ensures Words(Join("\t", parts)) == parts
  {
    if |parts| == 1 {
      WordsOfWord(parts[0]);
    } else if |parts| > 1 {
      var p := parts[0];
      var tail := Join("\t", parts[1..]);
      var s := Join("\t", parts);
      assert s == p + ("\t" + tail);
      WordLengthOfWord(p, "\t" + tail);
      assert s[..|p|] == p;
      assert s[|p|..] == "\t" + tail;
      assert ("\t" + tail)[1..] == tail;
      WordsJoinTab(parts[1..]);
      assert [parts[0]] + parts[1..] == parts;
    }
  }

  /** Without a decimal point `int(float(s))` reads `s` as `int(s)` does. */
  lemma TruncateWithoutPoint(s: string)
    requires '.' !in Strip(s)
    ensures TruncateFloat(s) == ParseInt(s)
  {
    SplitOnNone(Strip(s), '.');
  }

  /** Digits are neither whitespace nor a point. */
  lemma DigitsPlain(s: string)
    requires AllDigits(s)
    ensures NoSpace(s) && '.' !in s
  {
    forall j | 0 <= j < |s|
      ensures s[j] != '.'
    {
      assert IsDigit(s[j]);
    }
  }

  lemma NoSpaceConcat(a: string, b: string)
    requires NoSpace(a) && NoSpace(b)
    ensures NoSpace(a + b)
  {
    forall j | 0 <= j < |a + b| ensures !IsSpace((a + b)[j]) {
      if j >= |a| {
        assert (a + b)[j] == b[j - |a|];
      }
    }
  }

  /** A point between a whole part without one and digits splits there. */
  lemma PointSplit(whole: string, f: string)
    requires '.' !in whole && AllDigits(f)
    ensures NoSpace(f) && SplitOn(whole + "." + f, '.') == [whole, f]
  {
    DigitsPlain(f);
    assert whole + "." + f == whole + ['.'] + f;
    SplitOnFirst(whole, '.', f);
    SplitOnNone(f, '.');
  }

  /** `int(float("n.f"))` is `n`: the fraction is dropped. */
  lemma TruncateDropsFraction(n: nat, f: string)
    requires AllDigits(f)
    ensures TruncateFloat(NatToString(n) + "." + f) == Ok(n)
  {
    var ds := NatToString(n);
    DigitsOfNat(n);
    DigitsPlain(ds);
    PointSplit(ds, f);
    NoSpaceConcat(ds, ".");
    NoSpaceConcat(ds + ".", f);
    NoSpaceStrip(ds + "." + f);
    assert IsDigit(ds[0]);
  }

  /** `int(float("-n.f"))` is `-n`: the fraction is dropped toward zero. */
  lemma TruncateNegativeDropsFraction(n: nat, f: string)
    requires AllDigits(f)
    ensures TruncateFloat("-" + NatToString(n) + "." + f) == Ok(-(n as int))
  {
    var ds := NatToString(n);
    var whole := "-" + ds;
    var s := whole + "." + f;
    DigitsOfNat(n);
    SignedPlain(ds);
    PointSplit(whole, f);
    NoSpaceConcat(whole, ".");
    NoSpaceConcat(whole + ".", f);
    NoSpaceStrip(s);
    assert whole[1..] == ds;
    NegativeOfSplit(s, whole, f);
  }

  /** A string split by its point into a minus sign with digits and a
      fraction truncates to the negated digits. */
  lemma NegativeOfSplit(s: string, whole: string, f: string)
    requires SplitOn(Strip(s), '.') == [whole, f] && AllDigits(f)
    requires |whole| > 1 && whole[0] == '-' && AllDigits(whole[1..])
    ensures TruncateFloat(s) == Ok(-(DigitsValue(whole[1..]) as int))
  {
  }

  /** A minus sign before digits: no whitespace, no point. */
  lemma SignedPlain(ds: string)
    requires AllDigits(ds)
    ensures NoSpace("-" + ds) && '.' !in "-" + ds
  {
    DigitsPlain(ds);
    NoSpaceConcat("-", ds);
    var whole := "-" + ds;
    forall j | 0 <= j < |whole|
      ensures whole[j] != '.'
    {
      if j > 0 {
        assert whole[j] == ds[j - 1];
      }
    }
  }

  // ---------------------------------------------------------------------
  // `float(s)`

  /** `float(s)` for decimal notation: `int(s)` without a point; with one,
      an optional sign, digits, the point and digits (at least one digit in
      all). */
  function ParseFloat(s: string): (r: Result<real>)
  {
    var parts := SplitOn(Strip(s), '.');
    if |parts| == 1 then
      match ParseInt(s)
      case Ok(i) => Ok(i as real)
      case Err(_) => Err(ValueError("could not convert string to float"))
    else if |parts| == 2 && AllDigits(parts[1]) then
      var whole := parts[0];
      var signed := |whole| > 0 && (whole[0] == '-' || whole[0] == '+');
      var ds := if signed then whole[1..] else whole;
      if AllDigits(ds) && |ds| + |parts[1]| > 0 then
        var mag := DigitsValue(ds) as real + Fraction(parts[1]);
        Ok(if signed && whole[0] == '-' then -mag else mag)
      else Err(ValueError("could not convert string to float"))
    else Err(ValueError("could not convert string to float"))
  }

  /** The value of the digits after a decimal point. */
  function Fraction(f: string): (r: real)
    requires AllDigits(f)
  {
    if |f| == 0 then 0.0 else (DigitValue(f[0]) as real + Fraction(f[1..])) / 10.0
  }

  /** `int(x)` on a float: the fraction is dropped toward zero. */
  function Truncate(x: real): int
  {
    if x >= 0.0 then x.Floor else -((-x).Floor)
  }

  /** Digits after a point are worth less than one. */
  lemma {:induction false} FractionBelowOne(f: string)
    requires AllDigits(f)
    ensures 0.0 <= Fraction(f) < 1.0
  {
    if |f| > 0 {
      assert IsDigit(f[0]);
      FractionBelowOne(f[1..]);
    }
  }

  /** A whole number plus a fraction below one truncates to the whole
      number, on either side of zero. */
  lemma TruncateWholePlusFraction(n: nat, x: real, negative: bool)
    requires 0.0 <= x < 1.0
    ensures Truncate(if negative then -(n as real + x) else n as real + x) == (if negative then -(n as int) else n)
  {
    assert (n as real + x).Floor == n;
  }

  /** `int(float(s))` agrees with truncating `float(s)`: both accept the
      same strings, and the first is the second with its fraction dropped
      toward zero. */
  lemma FloatTruncates(s: string)
    ensures TruncateFloat(s).Ok? <==> ParseFloat(s).Ok?
    ensures ParseFloat(s).Ok? ==> TruncateFloat(s).value == Truncate(ParseFloat(s).value)
  {
    var parts := SplitOn(Strip(s), '.');
    if |parts| == 1 {
      if ParseInt(s).Ok? {
        assert (ParseInt(s).value as real).Floor == ParseInt(s).value;
      }
    } else if |parts| == 2 && AllDigits(parts[1]) {
      var whole := parts[0];
      var signed := |whole| > 0 && (whole[0] == '-' || whole[0] == '+');
      var ds := if signed then whole[1..] else whole;
      if AllDigits(ds) && |ds| + |parts[1]| > 0 {
        FractionBelowOne(parts[1]);
        TruncateWholePlusFraction(DigitsValue(ds), Fraction(parts[1]), signed && whole[0] == '-');
      }
    }
  }

  // ---------------------------------------------------------------------
  // Files written line by line

  /** The text that `print(line, end=nl)` writes for each line in turn. */
  function Terminated(lines: seq<string>, nl: string): string
  {
    if |lines| == 0 then "" else lines[0] + nl + Terminated(lines[1..], nl)
  }

  lemma {:induction false} TerminatedSnoc(lines: seq<string>, line: string, nl: string)
    ensures Terminated(lines + [line], nl) == Terminated(lines, nl) + line + nl
  {
    if |lines| > 0 {
      assert (lines + [line])[1..] == lines[1..] + [line];
      TerminatedSnoc(lines[1..], line, nl);
    } else {
      assert lines + [line] == [line];
    }
  }

  /** Splitting the written text at each `\n` gives every line back,
      followed by what its line end puts before the `\n` (a carriage
      return for Windows line ends), and nothing after the last one. */
  lemma {:induction false} SplitTerminated(lines: seq<string>, cr: string)
    requires '\n' !in cr
    requires forall k :: 0 <= k < |lines| ==> '\n' !in lines[k]
    ensures SplitOn(Terminated(lines, cr + "\n"), '\n')
      == seq(|lines|, k requires 0 <= k < |lines| => lines[k] + cr) + [""]
  {
    if |lines| > 0 {
      var rest := Terminated(lines[1..], cr + "\n");
      assert Terminated(lines, cr + "\n") == (lines[0] + cr) + ['\n'] + rest;
      SplitOnFirst(lines[0] + cr, '\n', rest);
      SplitTerminated(lines[1..], cr);
      var whole := seq(|lines|, k requires 0 <= k < |lines| => lines[k] + cr) + [""];
      var tail := seq(|lines| - 1, k requires 0 <= k < |lines| - 1 => lines[1..][k] + cr) + [""];
      assert whole == [lines[0] + cr] + tail;
    }
  }

  /** A character that is neither in any part nor the separator is not in
      the joined string. */
  lemma {:induction false} JoinWithout(parts: seq<string>, sep: char, c: char)
    requires c != sep
    requires forall k :: 0 <= k < |parts| ==> c !in parts[k]
    ensures c !in Join([sep], parts)
  {
    if |parts| > 1 {
      JoinWithout(parts[1..], sep, c);
    }
  }

  /** A string without whitespace holds no whitespace character. */
  lemma SpaceNotIn(s: string, c: char)
    requires NoSpace(s) && IsSpace(c)
    ensures c !in s
  {
    forall i | 0 <= i < |s| ensures s[i] != c {
    }
  }

  lemma {:induction false} TerminatedAppend(a: seq<string>, b: seq<string>, nl: string)
    ensures Terminated(a + b, nl) == Terminated(a, nl) + Terminated(b, nl)
  {
    if |a| > 0 {
      assert (a + b)[1..] == a[1..] + b;
      TerminatedAppend(a[1..], b, nl);
    } else {
      assert a + b == b;
    }
  }

  /** `[f(x) for x in xs]`. */
  function MapSeq<T, U>(f: T -> U, xs: seq<T>): (r: seq<U>)
    ensures |r| == |xs|
  {
    if |xs| == 0 then [] else [f(xs[0])] + MapSeq(f, xs[1..])
  }

  lemma {:induction false} MapSeqSnoc<T, U>(f: T -> U, xs: seq<T>, x: T)
    ensures MapSeq(f, xs + [x]) == MapSeq(f, xs) + [f(x)]
  {
    if |xs| == 0 {
      assert xs + [x] == [x];
    } else {
      assert (xs + [x])[1..] == xs[1..] + [x];
      MapSeqSnoc(f, xs[1..], x);
    }
  }

  lemma {:induction false} MapSeqAt<T, U>(f: T -> U, xs: seq<T>, k: nat)
    requires k < |xs|
    ensures MapSeq(f, xs)[k] == f(xs[k])
  {
    if k > 0 {
      MapSeqAt(f, xs[1..], k - 1);
    }
  }

  /** A loop appending `f(x)` for each `x` in turn. */
  method CollectEach<T>(xs: seq<T>, f: T -> string) returns (lines: seq<string>)
    ensures lines == MapSeq(f, xs)
  {
    lines := [];
    var k := 0;
    while k < |xs|
      invariant 0 <= k <= |xs|
      invariant lines == MapSeq(f, xs[..k])
    {
      MapSeqSnoc(f, xs[..k], xs[k]);
      assert xs[..k + 1] == xs[..k] + [xs[k]];
      lines := lines + [f(xs[k])];
      k := k + 1;
    }
    assert xs[..k] == xs;
  }

  /** A loop printing `f(x)` for each `x` in turn, each followed by `nl`. */
  method PrintEach<T>(xs: seq<T>, f: T -> string, nl: string) returns (text: string)
    ensures text == Terminated(MapSeq(f, xs), nl)
  {
    text := "";
    var k := 0;
    while k < |xs|
      invariant 0 <= k <= |xs|
      invariant text == Terminated(MapSeq(f, xs[..k]), nl)
    {
      MapSeqSnoc(f, xs[..k], xs[k]);
      assert xs[..k + 1] == xs[..k] + [xs[k]];
      TerminatedSnoc(MapSeq(f, xs[..k]), f(xs[k]), nl);
      text := text + f(xs[k]) + nl;
      k := k + 1;
    }
    assert xs[..k] == xs;
  }
}
