/** The file names of the `sample` subcommand: one JSON file per
    replicate, named after the simulation file with its replicate number
    zero-padded to the width `_ndigits` computes. */
module SampleNames {
  import opened Wrappers
  import opened Text

  function Pow10(d: nat): (p: nat)
    ensures p >= 1
  {
    if d == 0 then 1 else 10 * Pow10(d - 1)
  }

  /** The least width `w >= d` with `n <= 10^w`. */
  function Fit(n: int, d: nat): (w: nat)
    decreases if n > Pow10(d) then n - Pow10(d) else 0
  {
    if n <= Pow10(d) then d else Fit(n, d + 1)
  }

  // ---------------------------------------------------------------------
  // `_ndigits`

  /** `_ndigits(number)`: divide by ten while the quotient exceeds ten,
      counting the divisions from one. */
  method NDigits(number: int) returns (digits: nat)
    ensures digits == Fit(number, 1)
  {
    var x := number as real;
    digits := 1;
    while x > 10.0
      invariant digits >= 1
      invariant x * (Pow10(digits - 1) as real) == number as real
      invariant Fit(number, digits) == Fit(number, 1)
      decreases number - Pow10(digits - 1)
    {
      ghost var p := Pow10(digits - 1);
      AboveTen(x, p, number);
      assert Pow10(digits) == 10 * p;
      TenthScaled(x, p);
      x := x / 10.0;
      digits := digits + 1;
    }
    AboveTen(x, Pow10(digits - 1), number);
    assert Pow10(digits) == 10 * Pow10(digits - 1);
  }

  /** With `x` standing for `n / p`, `x > 10` exactly when `n > 10 * p`. */
  lemma AboveTen(x: real, p: nat, n: int)
    requires p >= 1 && x * (p as real) == n as real
    ensures x > 10.0 <==> n > 10 * p
  {
    var q := p as real;
    assert (10 * p) as real == 10.0 * q;
    assert (x - 10.0) * q == x * q - 10.0 * q;
    if x > 10.0 {
      PositiveProduct(x - 10.0, q);
    } else {
      PositiveProduct(10.0 - x, q);
    }
  }

  lemma PositiveProduct(a: real, b: real)
    requires a >= 0.0 && b > 0.0
    ensures a * b >= 0.0 && (a > 0.0 ==> a * b > 0.0)
  {
  }

  lemma TenthScaled(x: real, p: nat)
    ensures (x / 10.0) * ((10 * p) as real) == x * (p as real)
  {
  }

  /** The width is at least `d`, large enough, and no smaller one from `d`
      on would do. */
  lemma {:induction false} FitMeaning(n: int, d: nat)
    ensures Fit(n, d) >= d && n <= Pow10(Fit(n, d))
    ensures Fit(n, d) == d || Pow10(Fit(n, d) - 1) < n
    decreases if n > Pow10(d) then n - Pow10(d) else 0
  {
    if n > Pow10(d) {
      FitMeaning(n, d + 1);
    }
  }

  lemma {:induction false} Pow10Monotone(a: nat, b: nat)
    requires a <= b
    ensures Pow10(a) <= Pow10(b)
    decreases b - a
  {
    if a < b {
      Pow10Monotone(a + 1, b);
    }
  }

  /** A width with the two properties of `FitMeaning` is the width. */
  lemma {:induction false} FitUnique(n: int, d: nat, w: nat)
    requires d <= w && n <= Pow10(w) && (w == d || Pow10(w - 1) < n)
    ensures Fit(n, d) == w
    decreases w - d
  {
    if n <= Pow10(d) {
      if w > d {
        Pow10Monotone(d, w - 1);
      }
    } else {
      FitUnique(n, d + 1, w);
    }
  }

  /** Up to ten replicates need a single digit. */
  lemma SmallWidth(n: int)
    requires n <= 10
    ensures Fit(n, 1) == 1
  {
    assert Pow10(1) == 10;
  }

  /** `str(m)` has `L` digits exactly when `10^(L-1) <= m < 10^L` (a
      single digit for zero). */
  lemma {:induction false} NatStringLength(m: nat)
    ensures m < Pow10(|NatToString(m)|)
    ensures |NatToString(m)| == 1 || Pow10(|NatToString(m)| - 1) <= m
  {
    if m >= 10 {
      NatStringLength(m / 10);
      assert |NatToString(m)| == |NatToString(m / 10)| + 1;
    }
  }

  /** A number below `10^w` has at most `w` digits. */
  lemma ShortEnough(m: nat, w: nat)
    requires w >= 1 && m < Pow10(w)
    ensures |NatToString(m)| <= w
  {
    NatStringLength(m);
    var l := |NatToString(m)|;
    if l > w {
      Pow10Monotone(w, l - 1);
    }
  }

  /** `_ndigits(reps)` is the number of digits of the last replicate
      number `reps - 1`: just wide enough for every name. The
      "number of digits" of `reps` itself is a different count (`100`
      has three digits, and gets width two). */
  lemma WidthOfLastIndex(reps: nat)
    requires reps >= 1
    ensures Fit(reps, 1) == |NatToString(reps - 1)|
  {
    var l := |NatToString(reps - 1)|;
    NatStringLength(reps - 1);
    FitUnique(reps, 1, l);
  }

  lemma HundredPadsToTwo()
    ensures Fit(100, 1) == 2 && |NatToString(100)| == 3
  {
    WidthOfLastIndex(100);
    assert NatToString(99) == NatToString(9) + [DigitChar(9)];
    assert NatToString(100) == NatToString(10) + [DigitChar(0)];
  }

  // ---------------------------------------------------------------------
  // The name template

  /** `"{:0<w>}".format(j)` for a natural `j`: zeros on the left up to
      width `w`; a wider number is kept whole. */
  function ZeroPad(j: nat, w: nat): (r: string)
    ensures AllDigits(r)
    ensures |r| == if |NatToString(j)| < w then w else |NatToString(j)|
  {
    var s := NatToString(j);
    if |s| < w then Repeat('0', w - |s|) + s else s
  }

  lemma {:induction false} ZerosValue(k: nat)
    ensures AllDigits(Repeat('0', k)) && DigitsValue(Repeat('0', k)) == 0
  {
    if k > 0 {
      ZerosValue(k - 1);
      var z := Repeat('0', k);
      assert z == Repeat('0', k - 1) + ['0'] by {
        assert z[..k - 1] == Repeat('0', k - 1);
      }
      assert z[..k - 1] == Repeat('0', k - 1);
    }
  }

  /** Leading zeros do not change the value of a digit string. */
  lemma {:induction false} LeadingZeros(k: nat, s: string)
    requires AllDigits(s)
    ensures AllDigits(Repeat('0', k) + s) && DigitsValue(Repeat('0', k) + s) == DigitsValue(s)
    decreases |s|
  {
    var t := Repeat('0', k) + s;
    if |s| == 0 {
      assert t == Repeat('0', k);
      ZerosValue(k);
    } else {
      LeadingZeros(k, s[..|s| - 1]);
      assert t[..|t| - 1] == Repeat('0', k) + s[..|s| - 1];
    }
  }

  /** `int()` reads a padded number back. */
  lemma ZeroPadRoundTrip(j: nat, w: nat)
    ensures ParseInt(ZeroPad(j, w)) == Ok(j)
  {
    var s := NatToString(j);
    var r := ZeroPad(j, w);
    DigitsOfNat(j);
    if |s| < w {
      LeadingZeros(w - |s|, s);
    }
    assert NoSpace(r) by {
      forall i | 0 <= i < |r| ensures !IsSpace(r[i]) {
        assert IsDigit(r[i]);
      }
    }
    NoSpaceStrip(r);
    assert IsDigit(r[0]);
  }

  /** `".".join(simfile.split(".")[:-1])`: the file name without its last
      extension (empty when it has none). */
  function BaseName(simfile: string): (r: string)
  {
    var parts := SplitOn(simfile, '.');
    Join(".", parts[..|parts| - 1])
  }

  /** A dotted name loses exactly its last component. */
  lemma BaseDropsExtension(parts: seq<string>)
    requires |parts| >= 1 && forall k :: 0 <= k < |parts| ==> '.' !in parts[k]
    ensures BaseName(Join(".", parts)) == Join(".", parts[..|parts| - 1])
  {
    SplitJoin(parts, '.');
  }

  /** The name of replicate `j`'s file. */
  function OutputName(fbase: string, samplesize: int, width: nat, j: nat): string
  {
    Prefix(fbase, samplesize) + ZeroPad(j, width) + ".json"
  }

  function Prefix(fbase: string, samplesize: int): string {
    fbase + ".size_" + IntToString(samplesize) + ".sample_rep_"
  }

  /** `sample`'s loop: one name per replicate `0 .. reps - 1`, none for a
      non-positive count. */
  method SampleFileNames(simfile: string, samplesize: int, reps: int) returns (names: seq<string>)
    ensures |names| == if reps > 0 then reps else 0
    ensures forall j :: 0 <= j < |names| ==> names[j] == OutputName(BaseName(simfile), samplesize, Fit(reps, 1), j)
  {
    var fbase := BaseName(simfile);
    var dreps := NDigits(reps);
    names := [];
    var j := 0;
    while j < reps
      invariant 0 <= j <= (if reps > 0 then reps else 0) && |names| == j
      invariant forall k :: 0 <= k < j ==> names[k] == OutputName(fbase, samplesize, dreps, k)
    {
      names := names + [OutputName(fbase, samplesize, dreps, j)];
      j := j + 1;
    }
  }

  /** Within one run every replicate gets a name of its own, and the
      number is read back from the padded field. */
  lemma NamesDistinct(fbase: string, samplesize: int, reps: nat, j: nat, k: nat)
    requires j < reps && k < reps && j != k
    ensures OutputName(fbase, samplesize, Fit(reps, 1), j) != OutputName(fbase, samplesize, Fit(reps, 1), k)
  {
    var w := Fit(reps, 1);
    FitMeaning(reps, 1);
    ShortEnough(j, w);
    ShortEnough(k, w);
    var p := Prefix(fbase, samplesize);
    var a := OutputName(fbase, samplesize, w, j);
    var b := OutputName(fbase, samplesize, w, k);
    if a == b {
      assert a[|p|..|p| + w] == ZeroPad(j, w);
      assert b[|p|..|p| + w] == ZeroPad(k, w);
      ZeroPadRoundTrip(j, w);
      ZeroPadRoundTrip(k, w);
      assert false;
    }
  }

  /** The padded field has exactly the width `_ndigits(reps)`. */
  lemma PaddedWidth(reps: nat, j: nat)
    requires j < reps
    ensures |ZeroPad(j, Fit(reps, 1))| == Fit(reps, 1)
  {
    FitMeaning(reps, 1);
    ShortEnough(j, Fit(reps, 1));
  }
}
