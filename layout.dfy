/** How selfingsim/common.py lays out a simulation before running it: the
    chromosome is `loci * allele_length` sites long, recombination may
    happen only after the last site of a locus, and the two sexual systems
    assign sexes by position. `androdioecy` and `gynodioecy` then build
    their mating operators through names that are never defined, so only
    the pure hermaphrodite set-up reaches the run. */
module Layout {
  import opened Wrappers
  import opened ParentChoice

  /** `[allele_length * i - 1 for i in range(1, loci)]`. */
  function RecLoci(alleleLength: int, loci: int): (r: seq<int>)
  {
    if loci <= 1 then [] else seq(loci - 1, i requires 0 <= i < loci - 1 => alleleLength * (i + 1) - 1)
  }

  /** There are `loci - 1` points, the `i`-th being the last site of locus
      `i`; with loci of at least one site they strictly increase and all
      lie on the chromosome, before its last site. */
  lemma RecLociShape(alleleLength: nat, loci: nat)
    requires loci >= 1
    ensures |RecLoci(alleleLength, loci)| == loci - 1
    ensures forall i :: 0 <= i < loci - 1 ==>
      RecLoci(alleleLength, loci)[i] + 1 == (i + 1) * alleleLength
    ensures alleleLength > 0 ==> forall i, j :: 0 <= i < j < loci - 1 ==>
      RecLoci(alleleLength, loci)[i] < RecLoci(alleleLength, loci)[j]
    ensures alleleLength > 0 ==> forall i :: 0 <= i < loci - 1 ==>
      0 <= RecLoci(alleleLength, loci)[i] < loci * alleleLength - 1
  {
    var r := RecLoci(alleleLength, loci);
    if alleleLength > 0 {
      forall i, j | 0 <= i < j < loci - 1
        ensures r[i] < r[j]
      {
        LaterLocusFurther(alleleLength, i + 1, j + 1);
      }
      forall i | 0 <= i < loci - 1
        ensures 0 <= r[i] < loci * alleleLength - 1
      {
        LaterLocusFurther(alleleLength, i + 1, loci);
      }
    }
  }

  /** A later locus ends further along the chromosome. */
  lemma LaterLocusFurther(alleleLength: nat, a: nat, b: nat)
    requires alleleLength > 0 && a < b
    ensures alleleLength <= a * alleleLength + alleleLength <= b * alleleLength
  {
    var d := b - a - 1;
    assert b * alleleLength == a * alleleLength + alleleLength + d * alleleLength;
    assert d * alleleLength >= 0;
    assert a * alleleLength >= 0;
  }

  /** `tuple(s for _ in xrange(k))`: empty when `k` is not positive. */
  function Repeat(s: Sex, k: int): (r: seq<Sex>)
    ensures k >= 0 ==> |r| == k
  {
    if k <= 0 then [] else seq(k, _ => s)
  }

  /** Androdioecy: the `N - Nh` males first, then the `Nh` hermaphrodites
      (coded `FEMALE`). */
  function SexSeqAndro(n: int, nh: int): seq<Sex> {
    Repeat(Male, n - nh) + Repeat(Female, nh)
  }

  /** Gynodioecy: the `Nh` hermaphrodites (coded `MALE`) first, then the
      `N - Nh` females. */
  function SexSeqGyno(n: int, nh: int): seq<Sex> {
    Repeat(Male, nh) + Repeat(Female, n - nh)
  }

  /** `k` consecutive indices from `start`. */
  function Indices(start: nat, k: nat): (r: seq<nat>)
    ensures |r| == k
  {
    seq(k, i requires 0 <= i < k => start + i)
  }

  /** Appending a run of one sex extends that sex's view by the run's
      positions and leaves the other view alone. */
  lemma {:induction false} ExtractRun(a: seq<Sex>, x: Sex, k: nat, s: Sex)
    ensures Extract(a + Repeat(x, k), s) == Extract(a, s) + (if x == s then Indices(|a|, k) else [])
  {
    if k > 0 {
      var b := a + Repeat(x, k);
      assert b[..|b| - 1] == a + Repeat(x, k - 1);
      ExtractRun(a, x, k - 1, s);
    } else {
      assert a + Repeat(x, k) == a;
    }
  }

  /** A run of `k1` entries of `x` followed by `k2` entries of another
      sex: the views are the two runs' positions. */
  lemma TwoRuns(x: Sex, k1: nat, y: Sex, k2: nat)
    requires x != y
    ensures Extract(Repeat(x, k1) + Repeat(y, k2), x) == Indices(0, k1)
    ensures Extract(Repeat(x, k1) + Repeat(y, k2), y) == Indices(k1, k2)
  {
    var a := Repeat(x, k1);
    assert [] + a == a;
    ExtractRun([], x, k1, x);
    ExtractRun([], x, k1, y);
    assert Extract(a, x) == Indices(0, k1);
    assert Extract(a, y) == [];
    ExtractRun(a, y, k2, x);
    ExtractRun(a, y, k2, y);
  }

  /** With `0 <= Nh <= N` the androdioecious sequence has `N` entries, the
      males are the first `N - Nh` individuals and the hermaphrodites the
      last `Nh`. */
  lemma AndroViews(n: nat, nh: nat)
    requires nh <= n
    ensures |SexSeqAndro(n, nh)| == n
    ensures Extract(SexSeqAndro(n, nh), Male) == Indices(0, n - nh)
    ensures Extract(SexSeqAndro(n, nh), Female) == Indices(n - nh, nh)
  {
    TwoRuns(Male, n - nh, Female, nh);
  }

  /** With `0 <= Nh <= N` the gynodioecious sequence has `N` entries, the
      hermaphrodites are the first `Nh` individuals and the females the
      last `N - Nh`. */
  lemma GynoViews(n: nat, nh: nat)
    requires nh <= n
    ensures |SexSeqGyno(n, nh)| == n
    ensures Extract(SexSeqGyno(n, nh), Male) == Indices(0, nh)
    ensures Extract(SexSeqGyno(n, nh), Female) == Indices(nh, n - nh)
  {
    TwoRuns(Male, nh, Female, n - nh);
  }

  // ---------------------------------------------------------------------
  // Set-up

  /** The three sexual systems. */
  datatype System = PureHermaphrodite | Androdioecy | Gynodioecy

  /** What reaches `execute_func`: the number of sites, the recombination
      points and, for a sexual system, the sex of each individual. */
  datatype Plan = Plan(sites: int, recLoci: seq<int>, sexes: Option<seq<Sex>>)

  /** `pure_hermaphrodite`, `androdioecy` or `gynodioecy`. The two sexual
      systems compute their sex sequence (which nothing then uses) and
      stop with `NameError` when they build the mating operator (`sexMode`
      and `seq_seq` are not defined), so they never call `execute_func`. */
  function SetUp(system: System, n: int, nh: int, loci: int, alleleLength: int): (r: Result<Plan>)
    ensures r.Ok? <==> system == PureHermaphrodite
    ensures r.Ok? ==>
      r.value.sites == loci * alleleLength && r.value.sexes == None && r.value.recLoci == RecLoci(alleleLength, loci)
    ensures system == Androdioecy ==> r == Err(NameError("sexMode"))
    ensures system == Gynodioecy ==> r == Err(NameError("seq_seq"))
  {
    var recLoci := RecLoci(alleleLength, loci);
    match system
    case PureHermaphrodite => Ok(Plan(loci * alleleLength, recLoci, None))
    case Androdioecy => Err(NameError("sexMode"))
    case Gynodioecy => Err(NameError("seq_seq"))
  }
}
