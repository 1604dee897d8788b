/** The identity statistics of src/summarize.py: per locus, how often two
    gene copies carry the same haplotype, within individuals (`compute_f`),
    between individuals (`comput_g`) and as joint patterns (`compute_P`).

    A copy's haplotypes are read through a `chunks` generator, and
    `check_identity` walks two of them with Python 2's `zip`, which builds
    its whole list first and, on stopping, has already pulled one item from
    every generator before the exhausted one.  Generators are objects whose
    position changes as they are read, so they are modelled as a class. */
module Summarize {
  import opened Wrappers
  import opened Utility
  import Text

  /** One individual: the alleles of its two gene copies, locus after
      locus, `sites` alleles per locus. */
  datatype Diploid = Diploid(copy0: seq<int>, copy1: seq<int>)

  /** A loaded population: `totNumLoci()` and its individuals in order. */
  datatype Population = Population(lociCount: nat, individuals: seq<Diploid>)

  /** A loop that threads a state through the items of a sequence and
      stops at the first error. */
  function Fold<S, T>(step: (S, T) -> Result<S>, xs: seq<T>, init: S): Result<S>
  {
    if |xs| == 0 then Ok(init)
    else
      var before :- Fold(step, xs[..|xs| - 1], init);
      step(before, xs[|xs| - 1])
  }

  /** One more item is one more step. */
  lemma FoldNext<S, T>(step: (S, T) -> Result<S>, xs: seq<T>, k: nat, init: S)
    requires k < |xs| && Fold(step, xs[..k], init).Ok?
    ensures Fold(step, xs[..k + 1], init) == step(Fold(step, xs[..k], init).value, xs[k])
  {
    assert xs[..k + 1][..k] == xs[..k];
  }

  /** Once a step fails, the whole loop fails with it. */
  lemma {:induction false} FoldStops<S, T>(step: (S, T) -> Result<S>, xs: seq<T>, k: nat, init: S)
    requires k < |xs| && Fold(step, xs[..k], init).Ok?
    requires step(Fold(step, xs[..k], init).value, xs[k]).Err?
    ensures Fold(step, xs, init) == step(Fold(step, xs[..k], init).value, xs[k])
    decreases |xs|
  {
    var n := |xs|;
    FoldNext(step, xs, k, init);
    if n > k + 1 {
      assert xs[..n - 1][..k] == xs[..k];
      assert xs[..n - 1][k] == xs[k];
      FoldStops(step, xs[..n - 1], k, init);
    } else {
      assert xs[..n] == xs;
    }
  }

  // Generators

  /** What one `next()` on a generator gives. */
  datatype Pulled = Item(chunk: seq<int>) | Done | Raised(error: PyError)

  /** The state of a `chunks(l, n)` generator: what its body produces (the
      chunks, or the error `xrange` raises for a zero step) and how many
      `next()` calls have already been answered. */
  datatype Gen = Gen(chunks: Result<seq<seq<int>>>, taken: nat)

  /** A generator that has not been started. */
  function Fresh(l: seq<int>, n: int): (g: Gen)
    ensures g.taken == 0
  {
    Gen(ChunksOf(l, n), 0)
  }

  /** How many more `next()` calls can give something other than the end. */
  function Left(g: Gen): nat {
    match g.chunks
    case Ok(cs) => if g.taken < |cs| then |cs| - g.taken else 0
    case Err(_) => if g.taken == 0 then 1 else 0
  }

  /** One `next()`: the next chunk; or, once the body has raised or
      finished, the end for ever after. */
  function Pull(g: Gen): (r: (Pulled, Gen))
    ensures r.1.chunks == g.chunks
    ensures r.0.Item? ==> Left(r.1) == Left(g) - 1 && Left(g) > 0
    ensures !r.0.Item? ==> Left(r.1) == 0
    ensures r.0.Raised? <==> g.chunks.Err? && g.taken == 0
  {
    match g.chunks
    case Ok(cs) =>
      if g.taken < |cs| then (Item(cs[g.taken]), Gen(g.chunks, g.taken + 1)) else (Done, g)
    case Err(e) =>
      if g.taken == 0 then (Raised(e), Gen(g.chunks, 1)) else (Done, g)
  }

  /** A running `chunks` generator. */
  class ChunkGen {
    var state: Gen

    constructor (l: seq<int>, n: int)
      ensures state == Fresh(l, n)
    {
      state := Fresh(l, n);
    }

    method Next() returns (x: Pulled)
      modifies this
      ensures (x, state) == Pull(old(state))
    {
      var r := Pull(state);
      x := r.0;
      state := r.1;
    }
  }

  // zip and check_identity

  /** The outcome of `zip(a, b)`: the pairs, both generators afterwards and
      the error one of them raised, if any. */
  datatype Zipped = Zipped(pairs: seq<(seq<int>, seq<int>)>, a: Gen, b: Gen, error: Option<PyError>)

  /** Python 2's `zip`: each round pulls from `a`, then from `b`, and the
      first end or error stops it, discarding what `a` gave that round. */
  function Zip(a: Gen, b: Gen): (z: Zipped)
    ensures |z.pairs| <= Left(a)
    ensures z.a.chunks == a.chunks && z.b.chunks == b.chunks
    decreases Left(a)
  {
    var (x, a1) := Pull(a);
    if !x.Item? then Zipped([], a1, b, if x.Raised? then Some(x.error) else None)
    else
      var (y, b1) := Pull(b);
      if !y.Item? then Zipped([], a1, b1, if y.Raised? then Some(y.error) else None)
      else
        var rest := Zip(a1, b1);
        Zipped([(x.chunk, y.chunk)] + rest.pairs, rest.a, rest.b, rest.error)
  }

  /** The counts after `check_identity`: one more wherever the pair at the
      same position is equal. */
  function Bumped(counts: seq<int>, pairs: seq<(seq<int>, seq<int>)>): (r: seq<int>)
    ensures |r| == |counts|
  {
    seq(|counts|, j requires 0 <= j < |counts| =>
      counts[j] + if j < |pairs| && pairs[j].0 == pairs[j].1 then 1 else 0)
  }

  /** An equal pair beyond the end of the counts: `counts[i] += 1` raises
      `IndexError` there, after every count before it was updated. */
  predicate Overflows(counts: seq<int>, pairs: seq<(seq<int>, seq<int>)>) {
    exists j :: |counts| <= j < |pairs| && pairs[j].0 == pairs[j].1
  }

  /** The effect of one `check_identity(counts, a, b)`. */
  datatype Outcome = Outcome(counts: seq<int>, a: Gen, b: Gen, error: Option<PyError>)

  function Identity(counts: seq<int>, a: Gen, b: Gen): (o: Outcome)
    ensures |o.counts| == |counts|
  {
    var z := Zip(a, b);
    if z.error.Some? then Outcome(counts, z.a, z.b, z.error)
    else Outcome(Bumped(counts, z.pairs), z.a, z.b,
                 if Overflows(counts, z.pairs) then Some(IndexError) else None)
  }

  /** `zip(geno0, geno1)` over two running generators. */
  method ZipGens(geno0: ChunkGen, geno1: ChunkGen)
    returns (pairs: seq<(seq<int>, seq<int>)>, error: Option<PyError>)
    requires geno0 != geno1
    modifies geno0, geno1
    ensures var z := Zip(old(geno0.state), old(geno1.state));
      pairs == z.pairs && error == z.error && geno0.state == z.a && geno1.state == z.b
  {
    ghost var goal := Zip(geno0.state, geno1.state);
    pairs := [];
    while true
      invariant var z := Zip(geno0.state, geno1.state);
        goal == Zipped(pairs + z.pairs, z.a, z.b, z.error)
      decreases Left(geno0.state)
    {
      var x := geno0.Next();
      if !x.Item? {
        error := if x.Raised? then Some(x.error) else None;
        assert pairs + [] == pairs;
        return;
      }
      var y := geno1.Next();
      if !y.Item? {
        error := if y.Raised? then Some(y.error) else None;
        assert pairs + [] == pairs;
        return;
      }
      assert pairs + ([(x.chunk, y.chunk)] + Zip(geno0.state, geno1.state).pairs)
        == (pairs + [(x.chunk, y.chunk)]) + Zip(geno0.state, geno1.state).pairs;
      pairs := pairs + [(x.chunk, y.chunk)];
    }
  }

  /** `check_identity`: counts each position where the zipped chunks are
      equal, in place, and hands back the same list. */
  method CheckIdentity(counts: array<int>, geno0: ChunkGen, geno1: ChunkGen)
    returns (r: Result<array<int>>)
    requires geno0 != geno1
    modifies counts, geno0, geno1
    ensures var o := Identity(old(counts[..]), old(geno0.state), old(geno1.state));
      counts[..] == o.counts && geno0.state == o.a && geno1.state == o.b
      && r == (if o.error.Some? then Err(o.error.value) else Ok(counts))
  {
    var pairs, error := ZipGens(geno0, geno1);
    if error.Some? {
      return Err(error.value);
    }
    ghost var before := counts[..];
    for i := 0 to |pairs|
      modifies counts
      invariant forall j :: 0 <= j < counts.Length ==>
        counts[j] == before[j] + if j < i && pairs[j].0 == pairs[j].1 then 1 else 0
      invariant forall j :: counts.Length <= j < i ==> pairs[j].0 != pairs[j].1
    {
      if pairs[i].0 == pairs[i].1 {
        if i >= counts.Length {
          assert Overflows(before, pairs);
          assert counts[..] == Bumped(before, pairs);
          return Err(IndexError);
        }
        counts[i] := counts[i] + 1;
      }
    }
    assert counts[..] == Bumped(before, pairs);
    return Ok(counts);
  }

  // Lemmas on zip

  /** Zipping two generators of known chunks, `p` and `q` already taken:
      the pairs line up chunk `p + k` with chunk `q + k` until the shorter
      ends; `a` then loses one more chunk if it had one left. */
  lemma {:induction false} ZipRun(ca: seq<seq<int>>, p: nat, cb: seq<seq<int>>, q: nat)
    requires p <= |ca| && q <= |cb|
    ensures var k := if |ca| - p < |cb| - q then |ca| - p else |cb| - q;
      var z := Zip(Gen(Ok(ca), p), Gen(Ok(cb), q));
      z.error.None? && |z.pairs| == k
      && (forall j :: 0 <= j < k ==> z.pairs[j] == (ca[p + j], cb[q + j]))
      && z.a == Gen(Ok(ca), if p + k < |ca| then p + k + 1 else p + k)
      && z.b == Gen(Ok(cb), q + k)
    decreases |ca| - p
  {
    if p < |ca| && q < |cb| {
      ZipRun(ca, p + 1, cb, q + 1);
    }
  }

  /** A zero step: the first `next()` on the first generator raises. */
  lemma ZipZeroStep(l: seq<int>, b: Gen)
    ensures Zip(Fresh(l, 0), b).error == Some(ValueError("xrange() arg 3 must not be zero"))
    ensures Zip(Fresh(l, 0), b).pairs == []
  {
  }

  // The shape of a well-formed population

  /** Each copy holds `nloci` loci of `sites` alleles. */
  predicate Regular(pop: Population, nloci: int, sites: nat) {
    nloci > 0 && sites > 0 && pop.lociCount == nloci * sites
    && Shaped(pop.individuals, pop.lociCount)
  }

  /** Both copies of every individual hold `total` alleles. */
  predicate Shaped(inds: seq<Diploid>, total: nat) {
    forall x :: 0 <= x < |inds| ==> |inds[x].copy0| == total && |inds[x].copy1| == total
  }

  /** The alleles of locus `i` in a copy. */
  function Locus(l: seq<int>, i: nat, sites: nat): seq<int>
    requires (i + 1) * sites <= |l|
  {
    l[i * sites .. (i + 1) * sites]
  }

  /** In a copy of `nloci * sites` alleles, chunk `i` is locus `i`. */
  lemma ChunkIsLocus(l: seq<int>, nloci: nat, sites: nat, i: nat)
    requires sites > 0 && |l| == nloci * sites && i < nloci
    ensures |Chunks(l, sites)| == nloci
    ensures (i + 1) * sites <= |l| && Chunks(l, sites)[i] == Locus(l, i, sites)
  {
    ChunkAt(l, sites, nloci, i);
  }

  /** On two generators of equally many chunks, as many as there are
      counts, `check_identity` raises nothing and adds one exactly where
      the chunks agree. */
  lemma IdentityOfChunks(counts: seq<int>, ca: seq<seq<int>>, cb: seq<seq<int>>)
    requires |ca| == |counts| && |cb| == |counts|
    ensures var o := Identity(counts, Gen(Ok(ca), 0), Gen(Ok(cb), 0));
      o.error.None? && o.a == Gen(Ok(ca), |ca|) && o.b == Gen(Ok(cb), |cb|)
      && forall i :: 0 <= i < |counts| ==> o.counts[i] == counts[i] + if ca[i] == cb[i] then 1 else 0
  {
    ZipRun(ca, 0, cb, 0);
    var z := Zip(Gen(Ok(ca), 0), Gen(Ok(cb), 0));
    assert !Overflows(counts, z.pairs);
  }

  /** On two fresh generators over copies of the same `nloci` loci,
      `check_identity` raises nothing and adds one exactly at the loci
      where the two copies agree. */
  lemma IdentityOfCopies(counts: seq<int>, c0: seq<int>, c1: seq<int>, nloci: nat, sites: nat)
    requires sites > 0 && |c0| == nloci * sites && |c1| == nloci * sites
    requires |counts| == nloci
    ensures var o := Identity(counts, Fresh(c0, sites), Fresh(c1, sites));
      o.error.None?
      && forall i :: 0 <= i < nloci ==>
        o.counts[i] == counts[i] + if Agree(c0, i, c1, i, sites) then 1 else 0
  {
    if nloci == 0 {
      assert |Chunks(c0, sites)| == 0 && |Chunks(c1, sites)| == 0;
    } else {
      ChunkIsLocus(c0, nloci, sites, 0);
      ChunkIsLocus(c1, nloci, sites, 0);
    }
    var ca := Chunks(c0, sites);
    var cb := Chunks(c1, sites);
    IdentityOfChunks(counts, ca, cb);
    forall i | 0 <= i < nloci
      ensures (i + 1) * sites <= |c0| && ca[i] == Locus(c0, i, sites) && cb[i] == Locus(c1, i, sites)
      ensures (ca[i] == cb[i]) == Agree(c0, i, c1, i, sites)
    {
      ChunkIsLocus(c0, nloci, sites, i);
      ChunkIsLocus(c1, nloci, sites, i);
    }
  }

  // compute_f

  /** `pop.totNumLoci() / nloci` in Python 2: floor division, refused for
      a zero divisor. */
  function Sites(total: nat, nloci: int): (r: Result<int>)
    ensures r.Err? <==> nloci == 0
    ensures nloci > 0 ==> r.Ok? && r.value * nloci <= total < (r.value + 1) * nloci
    ensures nloci < 0 ==> r.Ok? && (r.value + 1) * nloci < total <= r.value * nloci
  {
    if nloci == 0 then Err(ZeroDivisionError)
    else if nloci > 0 then Ok(total / nloci)
    else Ok((-(total as int)) / (-nloci))
  }

  /** `[0] * n`: empty for a negative `n`. */
  function Zeros(n: int): (r: seq<int>)
    ensures |r| == if n > 0 then n else 0
    ensures forall j :: 0 <= j < |r| ==> r[j] == 0
  {
    seq(if n > 0 then n else 0, _ => 0)
  }

  /** Locus `i` of one copy equals locus `j` of another. */
  predicate Agree(l0: seq<int>, i: nat, l1: seq<int>, j: nat, sites: nat) {
    (i + 1) * sites <= |l0| && (j + 1) * sites <= |l1|
    && Locus(l0, i, sites) == Locus(l1, j, sites)
  }

  /** The number of individuals whose two copies agree at locus `i`. */
  function Homozygous(inds: seq<Diploid>, i: nat, sites: nat): (c: nat)
    ensures c <= |inds|
  {
    if |inds| == 0 then 0
    else
      var x := inds[|inds| - 1];
      Homozygous(inds[..|inds| - 1], i, sites) + if Agree(x.copy0, i, x.copy1, i, sites) then 1 else 0
  }

  /** `check_identity` between the two copies of one individual, each
      read through a fresh generator. */
  function Within(counts: seq<int>, x: Diploid, sites: int): (r: Result<seq<int>>)
    ensures r.Ok? ==> |r.value| == |counts|
  {
    Compared(counts, x.copy0, x.copy1, sites)
  }

  /** `check_identity(counts, chunks(l0, sites), chunks(l1, sites))`. */
  function Compared(counts: seq<int>, l0: seq<int>, l1: seq<int>, sites: int): (r: Result<seq<int>>)
    ensures r.Ok? ==> |r.value| == |counts|
  {
    var o := Identity(counts, Fresh(l0, sites), Fresh(l1, sites));
    if o.error.Some? then Err(o.error.value) else Ok(o.counts)
  }

  /** The step of `compute_f`'s loop. */
  function WithinStep(sites: int): (seq<int>, Diploid) -> Result<seq<int>> {
    (counts: seq<int>, x: Diploid) => Within(counts, x, sites)
  }

  /** The counts `compute_f` divides by the population size, which fails
      for an empty population once there is a count to divide. */
  function FCounts(pop: Population, nloci: int): Result<seq<int>>
  {
    var sites :- Sites(pop.lociCount, nloci);
    var fs :- Fold(WithinStep(sites), pop.individuals, Zeros(nloci));
    if |pop.individuals| == 0 && |fs| > 0 then Err(ZeroDivisionError) else Ok(fs)
  }

  /** `compute_f`, up to the final division. */
  method ComputeF(pop: Population, nloci: int) returns (r: Result<seq<int>>)
    ensures r == FCounts(pop, nloci)
  {
    var s := Sites(pop.lociCount, nloci);
    if s.Err? {
      return Err(s.error);
    }
    var sites := s.value;
    var inds := pop.individuals;
    var fs := new int[|Zeros(nloci)|](_ => 0);
    assert fs[..] == Zeros(nloci);
    for k := 0 to |inds|
      invariant Fold(WithinStep(sites), inds[..k], Zeros(nloci)) == Ok(fs[..])
    {
      var g0 := new ChunkGen(inds[k].copy0, sites);
      var g1 := new ChunkGen(inds[k].copy1, sites);
      var res := CheckIdentity(fs, g0, g1);
      FoldNext(WithinStep(sites), inds, k, Zeros(nloci));
      if res.Err? {
        FoldStops(WithinStep(sites), inds, k, Zeros(nloci));
        return Err(res.error);
      }
    }
    assert inds[..|inds|] == inds;
    if |inds| == 0 && fs.Length > 0 {
      return Err(ZeroDivisionError);
    }
    return Ok(fs[..]);
  }

  /** `totNumLoci() / nloci` is the number of sites of a locus. */
  lemma SitesOfRegular(pop: Population, nloci: int, sites: nat)
    requires Regular(pop, nloci, sites)
    ensures Sites(pop.lociCount, nloci) == Ok(sites as int)
  {
    var q := Sites(pop.lociCount, nloci).value;
    assert q * nloci <= sites * nloci < (q + 1) * nloci;
    QuotientUnique(q, sites, nloci);
  }

  /** A multiple of `n` has one floor quotient. */
  lemma QuotientUnique(q: int, s: int, n: int)
    requires n > 0 && q * n <= s * n < (q + 1) * n
    ensures q == s
  {
    if q < s {
      MulMonotone(q + 1, s, n);
    } else if q > s {
      MulMonotone(s + 1, q, n);
    }
  }

  lemma MulMonotone(a: int, b: int, n: int)
    requires a <= b && n > 0
    ensures a * n <= b * n
  {
  }

  /** Over a well-formed population every comparison succeeds and count
      `i` is the number of individuals homozygous at locus `i`. */
  lemma {:induction false} FsCountsHomozygous(inds: seq<Diploid>, nloci: nat, sites: nat)
    requires sites > 0 && Shaped(inds, nloci * sites)
    ensures Fold(WithinStep(sites), inds, Zeros(nloci)).Ok?
    ensures |Fold(WithinStep(sites), inds, Zeros(nloci)).value| == nloci
    ensures forall i :: 0 <= i < nloci ==> Fold(WithinStep(sites), inds, Zeros(nloci)).value[i] == Homozygous(inds, i, sites)
    decreases |inds|
  {
    if |inds| > 0 {
      var front := inds[..|inds| - 1];
      var x := inds[|inds| - 1];
      assert Shaped(front, nloci * sites) by {
        forall y | 0 <= y < |front| ensures |front[y].copy0| == nloci * sites && |front[y].copy1| == nloci * sites {
          assert front[y] == inds[y];
        }
      }
      FsCountsHomozygous(front, nloci, sites);
      var before := Fold(WithinStep(sites), front, Zeros(nloci)).value;
      IdentityOfCopies(before, x.copy0, x.copy1, nloci, sites);
      var o := Identity(before, Fresh(x.copy0, sites), Fresh(x.copy1, sites));
      assert Fold(WithinStep(sites), inds, Zeros(nloci)) == Within(before, x, sites)
        == Compared(before, x.copy0, x.copy1, sites) == Ok(o.counts);
      forall i | 0 <= i < nloci
        ensures o.counts[i] == Homozygous(inds, i, sites)
      {
        assert Homozygous(inds, i, sites)
          == Homozygous(front, i, sites) + if Agree(x.copy0, i, x.copy1, i, sites) then 1 else 0;
      }
    }
  }

  /** `compute_f`: on a well-formed population the count of locus `i` is
      the number of individuals homozygous there, never more than the
      population size it is divided by; an empty population fails. */
  lemma FCountsMeaning(pop: Population, nloci: nat, sites: nat)
    requires Regular(pop, nloci, sites)
    ensures FCounts(pop, nloci).Ok? <==> |pop.individuals| > 0
    ensures FCounts(pop, nloci).Err? ==> FCounts(pop, nloci).error == ZeroDivisionError
    ensures FCounts(pop, nloci).Ok? ==> (|FCounts(pop, nloci).value| == nloci
      && forall i :: 0 <= i < nloci ==>
           FCounts(pop, nloci).value[i] == Homozygous(pop.individuals, i, sites) <= |pop.individuals|)
  {
    SitesOfRegular(pop, nloci, sites);
    FsCountsHomozygous(pop.individuals, nloci, sites);
  }

  // comput_g

  /** `itertools.combinations(inds, 2)`: every pair of individuals, the
      first earlier than the second, in lexicographic order of positions. */
  function IndPairs(inds: seq<Diploid>): (r: seq<(Diploid, Diploid)>)
  {
    if |inds| == 0 then []
    else seq(|inds| - 1, k requires 0 <= k < |inds| - 1 => (inds[0], inds[k + 1])) + IndPairs(inds[1..])
  }

  /** The four `check_identity` calls of one pass of `comput_g`'s loop,
      as written, on the generators of the two individuals' copies: each
      generator is shared by two of the calls. */
  function Pass(gs: seq<int>, a0: Gen, a1: Gen, b0: Gen, b1: Gen): (r: Result<seq<int>>)
    ensures r.Ok? ==> |r.value| == |gs|
  {
    var o1 := Identity(gs, a0, b0);
    if o1.error.Some? then Err(o1.error.value)
    else
      var o2 := Identity(o1.counts, o1.a, b1);
      if o2.error.Some? then Err(o2.error.value)
      else
        var o3 := Identity(o2.counts, a1, o1.b);
        if o3.error.Some? then Err(o3.error.value)
        else
          var o4 := Identity(o3.counts, o3.a, o2.b);
          if o4.error.Some? then Err(o4.error.value) else Ok(o4.counts)
  }

  /** One pass of `comput_g`'s loop for the pair `x`, `y`. */
  function Between(gs: seq<int>, x: Diploid, y: Diploid, sites: int): (r: Result<seq<int>>)
    ensures r.Ok? ==> |r.value| == |gs|
  {
    Pass(gs, Fresh(x.copy0, sites), Fresh(x.copy1, sites), Fresh(y.copy0, sites), Fresh(y.copy1, sites))
  }

  function BetweenStep(sites: int): (seq<int>, (Diploid, Diploid)) -> Result<seq<int>> {
    (gs: seq<int>, pair: (Diploid, Diploid)) => Between(gs, pair.0, pair.1, sites)
  }

  /** The counts `comput_g` divides by `4 * N * (N - 1) / 2`, a division by
      zero for fewer than two individuals (`N * (N - 1)` vanishes exactly
      for `N` of 0 or 1) once there is a count. */
  function GCounts(pop: Population, nloci: int): Result<seq<int>>
  {
    var sites :- Sites(pop.lociCount, nloci);
    var gs :- Fold(BetweenStep(sites), IndPairs(pop.individuals), Zeros(nloci));
    if |pop.individuals| < 2 && |gs| > 0 then Err(ZeroDivisionError) else Ok(gs)
  }

  /** `comput_g`, up to the final division. */
  method ComputeG(pop: Population, nloci: int) returns (r: Result<seq<int>>)
    ensures r == GCounts(pop, nloci)
  {
    var s := Sites(pop.lociCount, nloci);
    if s.Err? {
      return Err(s.error);
    }
    var sites := s.value;
    var pairs := IndPairs(pop.individuals);
    var gs := new int[|Zeros(nloci)|](_ => 0);
    assert gs[..] == Zeros(nloci);
    for k := 0 to |pairs|
      invariant Fold(BetweenStep(sites), pairs[..k], Zeros(nloci)) == Ok(gs[..])
    {
      var x := pairs[k].0;
      var y := pairs[k].1;
      FoldNext(BetweenStep(sites), pairs, k, Zeros(nloci));
      var res := ComparePair(gs, x, y, sites);
      if res.Err? {
        FoldStops(BetweenStep(sites), pairs, k, Zeros(nloci));
        return Err(res.error);
      }
    }
    assert pairs[..|pairs|] == pairs;
    if |pop.individuals| < 2 && gs.Length > 0 {
      return Err(ZeroDivisionError);
    }
    return Ok(gs[..]);
  }

  /** The body of `comput_g`'s loop for one pair. */
  method ComparePair(gs: array<int>, x: Diploid, y: Diploid, sites: int) returns (r: Result<array<int>>)
    modifies gs
    ensures var b := Between(old(gs[..]), x, y, sites);
      (b.Ok? ==> r == Ok(gs) && gs[..] == b.value) && (b.Err? ==> r == Err(b.error))
  {
    var g00 := new ChunkGen(x.copy0, sites);
    var g01 := new ChunkGen(x.copy1, sites);
    var g10 := new ChunkGen(y.copy0, sites);
    var g11 := new ChunkGen(y.copy1, sites);
    r := CheckIdentity(gs, g00, g10);
    if r.Err? {
      return;
    }
    r := CheckIdentity(gs, g00, g11);
    if r.Err? {
      return;
    }
    r := CheckIdentity(gs, g01, g10);
    if r.Err? {
      return;
    }
    r := CheckIdentity(gs, g01, g11);
  }

  /** There are `N * (N - 1) / 2` pairs, so the denominator
      `4 * N * (N - 1) / 2` is four comparisons per pair. */
  lemma {:induction false} PairCount(inds: seq<Diploid>)
    ensures |IndPairs(inds)| * 2 == |inds| * (|inds| - 1)
    decreases |inds|
  {
    if |inds| > 0 {
      var n := |inds|;
      PairCount(inds[1..]);
      assert |IndPairs(inds)| == (n - 1) + |IndPairs(inds[1..])|;
      assert (n - 1) * (n - 2) + 2 * (n - 1) == n * (n - 1);
    }
  }

  /** A drained generator ends `zip` at once and nothing is counted. */
  lemma IdentityDrained(counts: seq<int>, ca: seq<seq<int>>, b: Gen)
    ensures Identity(counts, Gen(Ok(ca), |ca|), b) == Outcome(counts, Gen(Ok(ca), |ca|), b, None)
  {
    assert Bumped(counts, []) == counts;
  }

  /** Zipped against a drained generator, a fresh one loses its first
      chunk and nothing is counted. */
  lemma IdentityAgainstDrained(counts: seq<int>, ca: seq<seq<int>>, cb: seq<seq<int>>)
    requires |ca| > 0
    ensures Identity(counts, Gen(Ok(ca), 0), Gen(Ok(cb), |cb|))
      == Outcome(counts, Gen(Ok(ca), 1), Gen(Ok(cb), |cb|), None)
  {
    assert Bumped(counts, []) == counts;
  }

  /** With its first chunk gone, a generator is compared one chunk ahead:
      chunk `i + 1` against chunk `i`. */
  lemma IdentityShifted(counts: seq<int>, ca: seq<seq<int>>, cb: seq<seq<int>>)
    requires |ca| == |counts| && |cb| == |counts| && |counts| > 0
    ensures var o := Identity(counts, Gen(Ok(ca), 1), Gen(Ok(cb), 0));
      o.error.None?
      && forall i :: 0 <= i < |counts| ==>
        o.counts[i] == counts[i] + if i + 1 < |counts| && ca[i + 1] == cb[i] then 1 else 0
  {
    ZipRun(ca, 1, cb, 0);
    assert !Overflows(counts, Zip(Gen(Ok(ca), 1), Gen(Ok(cb), 0)).pairs);
  }

  /** A pass over generators of `m` chunks each, as written: the first
      call compares the copies 0 and drains both; the second and third
      meet a drained generator, the third after taking the first chunk of
      the first individual's copy 1; the fourth compares chunk `i + 1` of
      that copy with chunk `i` of the other's copy 1. */
  lemma PassOfChunks(gs: seq<int>, ca0: seq<seq<int>>, ca1: seq<seq<int>>, cb0: seq<seq<int>>, cb1: seq<seq<int>>)
    requires |gs| > 0
    requires |ca0| == |gs| && |ca1| == |gs| && |cb0| == |gs| && |cb1| == |gs|
    ensures var r := Pass(gs, Gen(Ok(ca0), 0), Gen(Ok(ca1), 0), Gen(Ok(cb0), 0), Gen(Ok(cb1), 0));
      r.Ok? && forall i :: 0 <= i < |gs| ==>
        r.value[i] == gs[i] + (if ca0[i] == cb0[i] then 1 else 0)
                            + (if i + 1 < |gs| && ca1[i + 1] == cb1[i] then 1 else 0)
  {
    var m := |gs|;
    IdentityOfChunks(gs, ca0, cb0);
    var o1 := Identity(gs, Gen(Ok(ca0), 0), Gen(Ok(cb0), 0));
    IdentityDrained(o1.counts, ca0, Gen(Ok(cb1), 0));
    var o2 := Identity(o1.counts, o1.a, Gen(Ok(cb1), 0));
    assert o2 == Outcome(o1.counts, Gen(Ok(ca0), m), Gen(Ok(cb1), 0), None);
    IdentityAgainstDrained(o1.counts, ca1, cb0);
    var o3 := Identity(o2.counts, Gen(Ok(ca1), 0), o1.b);
    assert o3 == Outcome(o1.counts, Gen(Ok(ca1), 1), Gen(Ok(cb0), m), None);
    IdentityShifted(o1.counts, ca1, cb1);
    var o4 := Identity(o3.counts, o3.a, o2.b);
    assert o4 == Identity(o1.counts, Gen(Ok(ca1), 1), Gen(Ok(cb1), 0));
    assert Pass(gs, Gen(Ok(ca0), 0), Gen(Ok(ca1), 0), Gen(Ok(cb0), 0), Gen(Ok(cb1), 0)) == Ok(o4.counts);
  }

  /** Locus `i` of the first copy equals locus `j` of the second, read
      through their chunks. */
  lemma ChunksAgree(c0: seq<int>, i: nat, c1: seq<int>, j: nat, nloci: nat, sites: nat)
    requires sites > 0 && |c0| == nloci * sites && |c1| == nloci * sites
    requires i < nloci && j < nloci
    ensures |Chunks(c0, sites)| == nloci && |Chunks(c1, sites)| == nloci
    ensures (Chunks(c0, sites)[i] == Chunks(c1, sites)[j]) == Agree(c0, i, c1, j, sites)
  {
    ChunkIsLocus(c0, nloci, sites, i);
    ChunkIsLocus(c1, nloci, sites, j);
  }

  /** What one pass of `comput_g` as written adds at locus `i`: one if the
      two copies 0 agree there, and one if locus `i + 1` of the first
      individual's copy 1 agrees with locus `i` of the other's copy 1. */
  function Observed(x: Diploid, y: Diploid, i: nat, sites: nat): nat {
    (if Agree(x.copy0, i, y.copy0, i, sites) then 1 else 0)
    + (if Agree(x.copy1, i + 1, y.copy1, i, sites) then 1 else 0)
  }

  /** Locus `nloci` lies past the end of a copy of `nloci` loci. */
  lemma PastLastLocus(nloci: nat, sites: nat)
    requires sites > 0
    ensures (nloci + 1) * sites > nloci * sites
  {
  }

  /** One pass of `comput_g` as written adds `Observed` at every locus. */
  lemma BetweenAsWritten(gs: seq<int>, x: Diploid, y: Diploid, nloci: nat, sites: nat)
    requires sites > 0 && nloci > 0 && |gs| == nloci
    requires |x.copy0| == nloci * sites && |x.copy1| == nloci * sites
    requires |y.copy0| == nloci * sites && |y.copy1| == nloci * sites
    ensures Between(gs, x, y, sites).Ok?
    ensures forall i :: 0 <= i < nloci ==>
      Between(gs, x, y, sites).value[i] == gs[i] + Observed(x, y, i, sites)
  {
    ChunksAgree(x.copy0, 0, y.copy0, 0, nloci, sites);
    ChunksAgree(x.copy1, 0, y.copy1, 0, nloci, sites);
    var ca0 := Chunks(x.copy0, sites);
    var ca1 := Chunks(x.copy1, sites);
    var cb0 := Chunks(y.copy0, sites);
    var cb1 := Chunks(y.copy1, sites);
    PassOfChunks(gs, ca0, ca1, cb0, cb1);
    forall i | 0 <= i < nloci
      ensures (ca0[i] == cb0[i]) == Agree(x.copy0, i, y.copy0, i, sites)
      ensures (i + 1 < nloci && ca1[i + 1] == cb1[i]) == Agree(x.copy1, i + 1, y.copy1, i, sites)
    {
      ChunksAgree(x.copy0, i, y.copy0, i, nloci, sites);
      NextLocusAgree(x.copy1, y.copy1, i, nloci, sites);
    }
  }

  /** Chunk `i + 1` of one copy against chunk `i` of another, when there
      is such a chunk, is locus `i + 1` against locus `i`. */
  lemma NextLocusAgree(c0: seq<int>, c1: seq<int>, i: nat, nloci: nat, sites: nat)
    requires sites > 0 && |c0| == nloci * sites && |c1| == nloci * sites && i < nloci
    ensures |Chunks(c0, sites)| == nloci && |Chunks(c1, sites)| == nloci
    ensures (i + 1 < nloci && Chunks(c0, sites)[i + 1] == Chunks(c1, sites)[i])
      == Agree(c0, i + 1, c1, i, sites)
  {
    if i + 1 < nloci {
      ChunksAgree(c0, i + 1, c1, i, nloci, sites);
    } else {
      ChunkIsLocus(c0, nloci, sites, i);
      ChunkIsLocus(c1, nloci, sites, i);
      PastLastLocus(nloci, sites);
    }
  }

  /** What `comput_g` as written counts at locus `i` over the pairs. */
  function ObservedTotal(pairs: seq<(Diploid, Diploid)>, i: nat, sites: nat): (c: nat)
    ensures c <= 2 * |pairs|
  {
    if |pairs| == 0 then 0
    else
      var p := pairs[|pairs| - 1];
      ObservedTotal(pairs[..|pairs| - 1], i, sites) + Observed(p.0, p.1, i, sites)
  }

  /** Both individuals of every pair have copies of `total` alleles. */
  predicate PairsShaped(pairs: seq<(Diploid, Diploid)>, total: nat) {
    forall k :: 0 <= k < |pairs| ==> Shaped([pairs[k].0, pairs[k].1], total)
  }

  lemma {:induction false} IndPairsShaped(inds: seq<Diploid>, total: nat)
    requires Shaped(inds, total)
    ensures PairsShaped(IndPairs(inds), total)
    decreases |inds|
  {
    if |inds| > 0 {
      assert Shaped(inds[1..], total) by {
        forall x | 0 <= x < |inds[1..]| ensures |inds[1..][x].copy0| == total && |inds[1..][x].copy1| == total {
          assert inds[1..][x] == inds[x + 1];
        }
      }
      IndPairsShaped(inds[1..], total);
      var n := |inds|;
      var head := seq(n - 1, k requires 0 <= k < n - 1 => (inds[0], inds[k + 1]));
      assert IndPairs(inds) == head + IndPairs(inds[1..]);
      forall k | 0 <= k < |IndPairs(inds)|
        ensures Shaped([IndPairs(inds)[k].0, IndPairs(inds)[k].1], total)
      {
        if k < n - 1 {
          assert IndPairs(inds)[k] == (inds[0], inds[k + 1]);
        } else {
          assert IndPairs(inds)[k] == IndPairs(inds[1..])[k - (n - 1)];
        }
      }
    }
  }

  /** Over well-formed pairs every pass of `comput_g` as written succeeds,
      and count `i` is `ObservedTotal`. */
  lemma {:induction false} GsObserved(pairs: seq<(Diploid, Diploid)>, nloci: nat, sites: nat)
    requires sites > 0 && nloci > 0 && PairsShaped(pairs, nloci * sites)
    ensures Fold(BetweenStep(sites), pairs, Zeros(nloci)).Ok?
    ensures |Fold(BetweenStep(sites), pairs, Zeros(nloci)).value| == nloci
    ensures forall i :: 0 <= i < nloci ==>
      Fold(BetweenStep(sites), pairs, Zeros(nloci)).value[i] == ObservedTotal(pairs, i, sites)
    decreases |pairs|
  {
    if |pairs| > 0 {
      var front := pairs[..|pairs| - 1];
      var p := pairs[|pairs| - 1];
      assert PairsShaped(front, nloci * sites) by {
        forall k | 0 <= k < |front| ensures Shaped([front[k].0, front[k].1], nloci * sites) {
          assert front[k] == pairs[k];
        }
      }
      GsObserved(front, nloci, sites);
      var before := Fold(BetweenStep(sites), front, Zeros(nloci)).value;
      assert Shaped([p.0, p.1], nloci * sites);
      assert [p.0, p.1][0] == p.0 && [p.0, p.1][1] == p.1;
      BetweenAsWritten(before, p.0, p.1, nloci, sites);
      assert Fold(BetweenStep(sites), pairs, Zeros(nloci)) == Between(before, p.0, p.1, sites);
    }
  }

  /** `comput_g` as written: on a well-formed population it succeeds
      exactly when there are two individuals or more, and count `i` is
      `ObservedTotal`, at most two per pair: half the denominator. */
  lemma GCountsAsWritten(pop: Population, nloci: nat, sites: nat)
    requires Regular(pop, nloci, sites)
    ensures GCounts(pop, nloci).Ok? <==> |pop.individuals| >= 2
    ensures GCounts(pop, nloci).Err? ==> GCounts(pop, nloci).error == ZeroDivisionError
    ensures GCounts(pop, nloci).Ok? ==> (|GCounts(pop, nloci).value| == nloci
      && forall i :: 0 <= i < nloci ==>
           GCounts(pop, nloci).value[i] == ObservedTotal(IndPairs(pop.individuals), i, sites)
           <= 2 * |IndPairs(pop.individuals)|)
  {
    SitesOfRegular(pop, nloci, sites);
    IndPairsShaped(pop.individuals, pop.lociCount);
    GsObserved(IndPairs(pop.individuals), nloci, sites);
    var n := |pop.individuals|;
    var gs := Fold(BetweenStep(sites), IndPairs(pop.individuals), Zeros(nloci)).value;
    assert GCounts(pop, nloci) == if n < 2 then Err(ZeroDivisionError) else Ok(gs);
  }

  /** Two individuals homozygous for one allele at a single one-site
      locus: every copy is identical to every other, so the four
      comparisons per pair the denominator `4 * 2 * 1 / 2 == 4` counts
      would all agree, yet `comput_g` as written counts one. */
  lemma GUndercounts()
    ensures |IndPairs([Diploid([0], [0]), Diploid([0], [0])])| * 4 == 4
    ensures GCounts(Population(1, [Diploid([0], [0]), Diploid([0], [0])]), 1) == Ok([1])
  {
    var x := Diploid([0], [0]);
    var pop := Population(1, [x, x]);
    assert Regular(pop, 1, 1);
    PairCount(pop.individuals);
    GCountsAsWritten(pop, 1, 1);
    assert IndPairs(pop.individuals) == [(x, x)];
    assert ObservedTotal([(x, x)], 0, 1) == Observed(x, x, 0, 1);
    assert Agree(x.copy0, 0, x.copy0, 0, 1);
    assert !Agree(x.copy1, 1, x.copy1, 0, 1);
    var gs := GCounts(pop, 1).value;
    assert |gs| == 1 && gs[0] == 1;
    assert gs == [1];
  }

  // comput_g as evidently intended

  /** One pass as evidently intended: each of the four comparisons reads
      its two copies through generators of its own. */
  function BetweenFresh(gs: seq<int>, x: Diploid, y: Diploid, sites: int): (r: Result<seq<int>>)
  {
    var g1 :- Compared(gs, x.copy0, y.copy0, sites);
    var g2 :- Compared(g1, x.copy0, y.copy1, sites);
    var g3 :- Compared(g2, x.copy1, y.copy0, sites);
    Compared(g3, x.copy1, y.copy1, sites)
  }

  function BetweenFreshStep(sites: int): (seq<int>, (Diploid, Diploid)) -> Result<seq<int>> {
    (gs: seq<int>, pair: (Diploid, Diploid)) => BetweenFresh(gs, pair.0, pair.1, sites)
  }

  /** `comput_g`'s counts with fresh generators for every comparison. */
  function GIntended(pop: Population, nloci: int): Result<seq<int>>
  {
    var sites :- Sites(pop.lociCount, nloci);
    var gs :- Fold(BetweenFreshStep(sites), IndPairs(pop.individuals), Zeros(nloci));
    if |pop.individuals| < 2 && |gs| > 0 then Err(ZeroDivisionError) else Ok(gs)
  }

  /** The four cross-copy comparisons of a pair that agree at locus `i`. */
  function Expected(x: Diploid, y: Diploid, i: nat, sites: nat): (c: nat)
    ensures c <= 4
  {
    (if Agree(x.copy0, i, y.copy0, i, sites) then 1 else 0)
    + (if Agree(x.copy0, i, y.copy1, i, sites) then 1 else 0)
    + (if Agree(x.copy1, i, y.copy0, i, sites) then 1 else 0)
    + (if Agree(x.copy1, i, y.copy1, i, sites) then 1 else 0)
  }

  function ExpectedTotal(pairs: seq<(Diploid, Diploid)>, i: nat, sites: nat): (c: nat)
    ensures c <= 4 * |pairs|
  {
    if |pairs| == 0 then 0
    else
      var p := pairs[|pairs| - 1];
      ExpectedTotal(pairs[..|pairs| - 1], i, sites) + Expected(p.0, p.1, i, sites)
  }

  /** Every comparison of a fresh pass succeeds and adds one at each locus
      where its two copies agree. */
  lemma BetweenFreshMeaning(gs: seq<int>, x: Diploid, y: Diploid, nloci: nat, sites: nat)
    requires sites > 0 && |gs| == nloci
    requires |x.copy0| == nloci * sites && |x.copy1| == nloci * sites
    requires |y.copy0| == nloci * sites && |y.copy1| == nloci * sites
    ensures BetweenFresh(gs, x, y, sites).Ok?
    ensures |BetweenFresh(gs, x, y, sites).value| == nloci
    ensures forall i :: 0 <= i < nloci ==>
      BetweenFresh(gs, x, y, sites).value[i] == gs[i] + Expected(x, y, i, sites)
  {
    IdentityOfCopies(gs, x.copy0, y.copy0, nloci, sites);
    var g1 := Compared(gs, x.copy0, y.copy0, sites).value;
    IdentityOfCopies(g1, x.copy0, y.copy1, nloci, sites);
    var g2 := Compared(g1, x.copy0, y.copy1, sites).value;
    IdentityOfCopies(g2, x.copy1, y.copy0, nloci, sites);
    var g3 := Compared(g2, x.copy1, y.copy0, sites).value;
    IdentityOfCopies(g3, x.copy1, y.copy1, nloci, sites);
  }

  lemma {:induction false} GsExpected(pairs: seq<(Diploid, Diploid)>, nloci: nat, sites: nat)
    requires sites > 0 && PairsShaped(pairs, nloci * sites)
    ensures Fold(BetweenFreshStep(sites), pairs, Zeros(nloci)).Ok?
    ensures |Fold(BetweenFreshStep(sites), pairs, Zeros(nloci)).value| == nloci
    ensures forall i :: 0 <= i < nloci ==>
      Fold(BetweenFreshStep(sites), pairs, Zeros(nloci)).value[i] == ExpectedTotal(pairs, i, sites)
    decreases |pairs|
  {
    if |pairs| > 0 {
      var front := pairs[..|pairs| - 1];
      var p := pairs[|pairs| - 1];
      assert PairsShaped(front, nloci * sites) by {
        forall k | 0 <= k < |front| ensures Shaped([front[k].0, front[k].1], nloci * sites) {
          assert front[k] == pairs[k];
        }
      }
      GsExpected(front, nloci, sites);
      var before := Fold(BetweenFreshStep(sites), front, Zeros(nloci)).value;
      assert Shaped([p.0, p.1], nloci * sites);
      assert [p.0, p.1][0] == p.0 && [p.0, p.1][1] == p.1;
      BetweenFreshMeaning(before, p.0, p.1, nloci, sites);
      assert Fold(BetweenFreshStep(sites), pairs, Zeros(nloci)) == BetweenFresh(before, p.0, p.1, sites);
    }
  }

  /** Intended `comput_g`: count `i` is the number of agreeing cross-copy
      comparisons at locus `i`, at most the denominator `4 * N(N-1)/2`. */
  lemma GIntendedMeaning(pop: Population, nloci: nat, sites: nat)
    requires Regular(pop, nloci, sites)
    ensures GIntended(pop, nloci).Ok? <==> |pop.individuals| >= 2
    ensures GIntended(pop, nloci).Ok? ==> (|GIntended(pop, nloci).value| == nloci
      && forall i :: 0 <= i < nloci ==>
           GIntended(pop, nloci).value[i] == ExpectedTotal(IndPairs(pop.individuals), i, sites)
           <= 4 * |IndPairs(pop.individuals)|)
  {
    SitesOfRegular(pop, nloci, sites);
    IndPairsShaped(pop.individuals, pop.lociCount);
    GsExpected(IndPairs(pop.individuals), nloci, sites);
  }

  /** All copies identical: every comparison agrees. */
  predicate Clonal(inds: seq<Diploid>, c: seq<int>) {
    forall x :: 0 <= x < |inds| ==> inds[x].copy0 == c && inds[x].copy1 == c
  }

  lemma {:induction false} ClonalPairs(inds: seq<Diploid>, c: seq<int>, i: nat, sites: nat)
    requires Clonal(inds, c) && (i + 1) * sites <= |c|
    ensures ExpectedTotal(IndPairs(inds), i, sites) == 4 * |IndPairs(inds)|
    decreases |inds|
  {
    var pairs := IndPairs(inds);
    forall k | 0 <= k < |pairs| ensures pairs[k].0.copy0 == c && pairs[k].0.copy1 == c
                                    && pairs[k].1.copy0 == c && pairs[k].1.copy1 == c {
      PairMembers(inds, k);
    }
    AllAgree(pairs, c, i, sites);
  }

  /** Both members of every pair are individuals of the population. */
  lemma {:induction false} PairMembers(inds: seq<Diploid>, k: nat)
    requires k < |IndPairs(inds)|
    ensures IndPairs(inds)[k].0 in inds && IndPairs(inds)[k].1 in inds
    decreases |inds|
  {
    var n := |inds|;
    var head := seq(n - 1, j requires 0 <= j < n - 1 => (inds[0], inds[j + 1]));
    assert IndPairs(inds) == head + IndPairs(inds[1..]);
    if k < n - 1 {
      assert IndPairs(inds)[k] == (inds[0], inds[k + 1]);
    } else {
      PairMembers(inds[1..], k - (n - 1));
      assert IndPairs(inds)[k] == IndPairs(inds[1..])[k - (n - 1)];
      assert forall z :: z in inds[1..] ==> z in inds;
    }
  }

  lemma {:induction false} AllAgree(pairs: seq<(Diploid, Diploid)>, c: seq<int>, i: nat, sites: nat)
    requires (i + 1) * sites <= |c|
    requires forall k :: 0 <= k < |pairs| ==>
               pairs[k].0.copy0 == c && pairs[k].0.copy1 == c && pairs[k].1.copy0 == c && pairs[k].1.copy1 == c
    ensures ExpectedTotal(pairs, i, sites) == 4 * |pairs|
    decreases |pairs|
  {
    if |pairs| > 0 {
      var front := pairs[..|pairs| - 1];
      AllAgree(front, c, i, sites);
      var p := pairs[|pairs| - 1];
      assert Expected(p.0, p.1, i, sites) == 4;
    }
  }

  /** Intended `comput_g` on a population whose copies are all the same:
      each count equals the denominator, four comparisons for each of the
      `N(N-1)/2` pairs, so every `g` is one. */
  lemma GIntendedClonal(pop: Population, nloci: nat, sites: nat, c: seq<int>)
    requires Regular(pop, nloci, sites) && Clonal(pop.individuals, c) && |pop.individuals| >= 2
    ensures GIntended(pop, nloci).Ok? && |GIntended(pop, nloci).value| == nloci
    ensures forall i :: 0 <= i < nloci ==>
      GIntended(pop, nloci).value[i] == 4 * |IndPairs(pop.individuals)|
    ensures |IndPairs(pop.individuals)| * 2 == |pop.individuals| * (|pop.individuals| - 1)
  {
    GIntendedMeaning(pop, nloci, sites);
    PairCount(pop.individuals);
    assert |c| == nloci * sites by {
      assert pop.individuals[0].copy0 == c;
    }
    forall i | 0 <= i < nloci
      ensures GIntended(pop, nloci).value[i] == 4 * |IndPairs(pop.individuals)|
    {
      ChunkIsLocus(c, nloci, sites, i);
      ClonalPairs(pop.individuals, c, i, sites);
    }
  }

  /** The population of `GUndercounts` under the intended pass: all four
      comparisons count. */
  lemma GIntendedExample()
    ensures GIntended(Population(1, [Diploid([0], [0]), Diploid([0], [0])]), 1) == Ok([4])
  {
    var x := Diploid([0], [0]);
    var pop := Population(1, [x, x]);
    assert Regular(pop, 1, 1) && Clonal(pop.individuals, [0]);
    GIntendedClonal(pop, 1, 1, [0]);
    GIntendedMeaning(pop, 1, 1);
    var gs := GIntended(pop, 1).value;
    assert |gs| == 1 && gs[0] == 4;
    assert gs == [4];
  }

  // compute_P

  /** Every entry is 0 or 1. */
  predicate Binary(key: seq<int>) {
    forall j :: 0 <= j < |key| ==> key[j] == 0 || key[j] == 1
  }

  /** The tuples of `ts`, each with `b` in front. */
  function Prefixed(b: int, ts: seq<seq<int>>): (r: seq<seq<int>>)
    ensures |r| == |ts|
  {
    seq(|ts|, k requires 0 <= k < |ts| => [b] + ts[k])
  }

  /** `itertools.product(xrange(2), repeat=n)`, in its order. */
  function BinaryTuples(n: nat): seq<seq<int>>
  {
    if n == 0 then [[]] else Prefixed(0, BinaryTuples(n - 1)) + Prefixed(1, BinaryTuples(n - 1))
  }

  /** Every tuple of the product has `n` entries, each 0 or 1. */
  lemma {:induction false} TuplesBinary(n: nat)
    ensures forall k :: 0 <= k < |BinaryTuples(n)| ==>
      |BinaryTuples(n)[k]| == n && Binary(BinaryTuples(n)[k])
  {
    if n > 0 {
      var ts := BinaryTuples(n - 1);
      TuplesBinary(n - 1);
      forall k | 0 <= k < |BinaryTuples(n)|
        ensures |BinaryTuples(n)[k]| == n && Binary(BinaryTuples(n)[k])
      {
        var t := if k < |ts| then ts[k] else ts[k - |ts|];
        var b := if k < |ts| then 0 else 1;
        assert BinaryTuples(n)[k] == [b] + t;
        assert Binary(t);
      }
    }
  }

  /** Every 0/1 tuple of `n` entries is in the product. */
  lemma {:induction false} BinaryInTuples(n: nat, key: seq<int>)
    requires |key| == n && Binary(key)
    ensures key in BinaryTuples(n)
  {
    if n == 0 {
      assert key == [];
    } else {
      var ts := BinaryTuples(n - 1);
      var t := key[1..];
      assert Binary(t) by {
        forall j | 0 <= j < |t| ensures t[j] == 0 || t[j] == 1 {
          assert t[j] == key[j + 1];
        }
      }
      BinaryInTuples(n - 1, t);
      var k :| 0 <= k < |ts| && ts[k] == t;
      var all := BinaryTuples(n);
      var b := key[0];
      assert b == 0 || b == 1;
      assert all == Prefixed(0, ts) + Prefixed(1, ts);
      var idx := if b == 0 then k else |ts| + k;
      assert all[idx] == Prefixed(b, ts)[k] == [b] + t;
      assert key == [b] + t;
      assert all[idx] == key;
    }
  }

  /** The product holds exactly the 0/1 tuples of length `n`. */
  lemma BinaryTuplesExactly(n: nat, key: seq<int>)
    ensures key in BinaryTuples(n) <==> |key| == n && Binary(key)
  {
    TuplesBinary(n);
    if |key| == n && Binary(key) {
      BinaryInTuples(n, key);
    }
  }

  /** `{key: 0 for key in itertools.product(xrange(2), repeat=nloci)}`;
      a negative repeat is refused. */
  function EmptyTally(nloci: int): (r: Result<map<seq<int>, int>>)
  {
    if nloci < 0 then Err(ValueError("repeat argument cannot be negative"))
    else Ok(map key | key in BinaryTuples(nloci) :: 0)
  }

  /** The keys of a tally are exactly the 0/1 tuples of length `nloci`. */
  ghost predicate BinaryKeys(ps: map<seq<int>, int>, nloci: nat) {
    forall key :: key in ps <==> |key| == nloci && Binary(key)
  }

  /** `repr` of a tuple of integers, as a missing key is reported. */
  function KeyRepr(key: seq<int>): string {
    "(" + Text.Join(", ", Text.MapSeq(Text.IntToString, key)) + (if |key| == 1 then ",)" else ")")
  }

  /** `Ps[key] += 1`. */
  function Count(ps: map<seq<int>, int>, key: seq<int>): (r: Result<map<seq<int>, int>>)
    ensures r.Ok? <==> key in ps
    ensures r.Ok? ==> r.value.Keys == ps.Keys
  {
    if key in ps then Ok(ps[key := ps[key] + 1]) else Err(KeyError(KeyRepr(key)))
  }

  /** One pass of `compute_P`'s loop as written: the shared `zeros` list is
      updated in place and its contents are the key. */
  function Tallied(state: (seq<int>, map<seq<int>, int>), x: Diploid, sites: int)
    : (r: Result<(seq<int>, map<seq<int>, int>)>)
  {
    var zeros :- Within(state.0, x, sites);
    var ps :- Count(state.1, zeros);
    Ok((zeros, ps))
  }

  function TalliedStep(sites: int): ((seq<int>, map<seq<int>, int>), Diploid) -> Result<(seq<int>, map<seq<int>, int>)> {
    (state: (seq<int>, map<seq<int>, int>), x: Diploid) => Tallied(state, x, sites)
  }

  /** The tally `compute_P` divides by the population size: the table is
      never empty, so an empty population is a division by zero. */
  function PCounts(pop: Population, nloci: int): Result<map<seq<int>, int>>
  {
    var sites :- Sites(pop.lociCount, nloci);
    var ps0 :- EmptyTally(nloci);
    var state :- Fold(TalliedStep(sites), pop.individuals, (Zeros(nloci), ps0));
    if |pop.individuals| == 0 then Err(ZeroDivisionError) else Ok(state.1)
  }

  /** `compute_P`, up to the final division. */
  method ComputeP(pop: Population, nloci: int) returns (r: Result<map<seq<int>, int>>)
    ensures r == PCounts(pop, nloci)
  {
    var s := Sites(pop.lociCount, nloci);
    if s.Err? {
      return Err(s.error);
    }
    var sites := s.value;
    var e := EmptyTally(nloci);
    if e.Err? {
      return Err(e.error);
    }
    var ps := e.value;
    var inds := pop.individuals;
    var zeros := new int[|Zeros(nloci)|](_ => 0);
    assert zeros[..] == Zeros(nloci);
    for k := 0 to |inds|
      invariant Fold(TalliedStep(sites), inds[..k], (Zeros(nloci), e.value)) == Ok((zeros[..], ps))
    {
      FoldNext(TalliedStep(sites), inds, k, (Zeros(nloci), e.value));
      var res := TallyOne(zeros, ps, inds[k], sites);
      if res.Err? {
        FoldStops(TalliedStep(sites), inds, k, (Zeros(nloci), e.value));
        return Err(res.error);
      }
      ps := res.value;
    }
    assert inds[..|inds|] == inds;
    if |inds| == 0 {
      return Err(ZeroDivisionError);
    }
    return Ok(ps);
  }

  /** One pass of `compute_P`'s loop: compare the individual's copies into
      the shared `zeros` and count its contents as a key. */
  method TallyOne(zeros: array<int>, ps: map<seq<int>, int>, x: Diploid, sites: int)
    returns (r: Result<map<seq<int>, int>>)
    modifies zeros
    ensures var t := Tallied((old(zeros[..]), ps), x, sites);
      (t.Ok? ==> r.Ok? && t.value == (zeros[..], r.value)) && (t.Err? ==> r == Err(t.error))
  {
    var g0 := new ChunkGen(x.copy0, sites);
    var g1 := new ChunkGen(x.copy1, sites);
    var res := CheckIdentity(zeros, g0, g1);
    if res.Err? {
      return Err(res.error);
    }
    var key := zeros[..];
    if key !in ps {
      return Err(KeyError(KeyRepr(key)));
    }
    return Ok(ps[key := ps[key] + 1]);
  }

  /** A present key is counted once more. */
  lemma CountPresent(ps: map<seq<int>, int>, key: seq<int>)
    requires key in ps
    ensures Count(ps, key) == Ok(ps[key := ps[key] + 1])
  {
  }

  /** The number of individuals homozygous at each locus. */
  function HomozygousCounts(inds: seq<Diploid>, nloci: nat, sites: nat): (r: seq<int>)
    ensures |r| == nloci
  {
    seq(nloci, i requires 0 <= i < nloci => Homozygous(inds, i, sites))
  }

  lemma EmptyTallyKeys(nloci: nat)
    ensures EmptyTally(nloci).Ok? && BinaryKeys(EmptyTally(nloci).value, nloci)
  {
    var ps := EmptyTally(nloci).value;
    forall key ensures key in ps <==> |key| == nloci && Binary(key) {
      BinaryTuplesExactly(nloci, key);
    }
  }

  /** Comparing one more individual's copies turns the homozygous counts
      of a population into those of the population with it. */
  lemma WithinCounts(front: seq<Diploid>, x: Diploid, nloci: nat, sites: nat)
    requires sites > 0 && |x.copy0| == nloci * sites && |x.copy1| == nloci * sites
    ensures Within(HomozygousCounts(front, nloci, sites), x, sites)
      == Ok(HomozygousCounts(front + [x], nloci, sites))
  {
    var before := HomozygousCounts(front, nloci, sites);
    IdentityOfCopies(before, x.copy0, x.copy1, nloci, sites);
    var inds := front + [x];
    assert inds[..|inds| - 1] == front;
    var after := Within(before, x, sites).value;
    var want := HomozygousCounts(inds, nloci, sites);
    forall i | 0 <= i < nloci ensures after[i] == want[i] {
      assert want[i] == Homozygous(inds, i, sites)
        == Homozygous(front, i, sites) + if Agree(x.copy0, i, x.copy1, i, sites) then 1 else 0;
    }
    assert after == want;
  }

  /** The counts are a 0/1 tuple exactly when no locus has two homozygous
      individuals. */
  lemma BinaryCounts(inds: seq<Diploid>, nloci: nat, sites: nat)
    ensures Binary(HomozygousCounts(inds, nloci, sites))
      <==> forall i :: 0 <= i < nloci ==> Homozygous(inds, i, sites) <= 1
  {
    var c := HomozygousCounts(inds, nloci, sites);
    if Binary(c) {
      forall i | 0 <= i < nloci ensures Homozygous(inds, i, sites) <= 1 {
        assert c[i] == Homozygous(inds, i, sites);
      }
    } else {
      var j :| 0 <= j < |c| && c[j] != 0 && c[j] != 1;
      assert c[j] == Homozygous(inds, j, sites);
    }
  }

  /** `compute_P`'s loop as written: `zeros` accumulates, so after each
      individual the key is the number of individuals so far homozygous at
      each locus; the loop gets through exactly when no locus has two
      homozygous individuals, and otherwise stops on a missing key. */
  lemma {:induction false} TalliedAsWritten(inds: seq<Diploid>, nloci: nat, sites: nat, ps0: map<seq<int>, int>)
    requires sites > 0 && Shaped(inds, nloci * sites) && BinaryKeys(ps0, nloci)
    ensures var r := Fold(TalliedStep(sites), inds, (Zeros(nloci), ps0));
      (r.Ok? <==> forall i :: 0 <= i < nloci ==> Homozygous(inds, i, sites) <= 1)
      && (r.Ok? ==> r.value.0 == HomozygousCounts(inds, nloci, sites) && BinaryKeys(r.value.1, nloci))
      && (r.Err? ==> r.error.KeyError?)
    decreases |inds|
  {
    if |inds| == 0 {
      assert Zeros(nloci) == HomozygousCounts(inds, nloci, sites);
    } else {
      var front := inds[..|inds| - 1];
      var x := inds[|inds| - 1];
      assert inds == front + [x];
      assert Shaped(front, nloci * sites) by {
        forall y | 0 <= y < |front| ensures |front[y].copy0| == nloci * sites && |front[y].copy1| == nloci * sites {
          assert front[y] == inds[y];
        }
      }
      TalliedAsWritten(front, nloci, sites, ps0);
      var rf := Fold(TalliedStep(sites), front, (Zeros(nloci), ps0));
      if rf.Ok? {
        WithinCounts(front, x, nloci, sites);
        BinaryCounts(inds, nloci, sites);
        var after := HomozygousCounts(inds, nloci, sites);
        assert Fold(TalliedStep(sites), inds, (Zeros(nloci), ps0)) == Tallied(rf.value, x, sites);
        assert after in rf.value.1 <==> Binary(after);
      } else {
        var i :| 0 <= i < nloci && Homozygous(front, i, sites) > 1;
        assert Homozygous(inds, i, sites) >= Homozygous(front, i, sites);
      }
    }
  }

  /** `compute_P` as written: on a well-formed population it succeeds
      exactly when the population is not empty and no locus has two
      homozygous individuals; otherwise it fails on a missing key (or on
      the division for an empty population). */
  lemma PAsWritten(pop: Population, nloci: nat, sites: nat)
    requires Regular(pop, nloci, sites)
    ensures PCounts(pop, nloci).Ok? <==>
      |pop.individuals| > 0 && forall i :: 0 <= i < nloci ==> Homozygous(pop.individuals, i, sites) <= 1
    ensures PCounts(pop, nloci).Err? ==>
      PCounts(pop, nloci).error.KeyError? || PCounts(pop, nloci).error == ZeroDivisionError
  {
    SitesOfRegular(pop, nloci, sites);
    EmptyTallyKeys(nloci);
    TalliedAsWritten(pop.individuals, nloci, sites, EmptyTally(nloci).value);
  }

  /** The key `(2,)` as Python prints it. */
  lemma KeyReprTwo()
    ensures KeyRepr([2]) == "(2,)"
  {
    assert Text.IntToString(2) == "2";
    assert Text.MapSeq(Text.IntToString, [2]) == ["2"];
  }

  /** Two individuals homozygous at a single one-site locus: the shared
      list reaches 2 and `compute_P` as written raises `KeyError: (2,)`. */
  lemma PKeyErrorExample()
    ensures PCounts(Population(1, [Diploid([0], [0]), Diploid([0], [0])]), 1) == Err(KeyError("(2,)"))
  {
    var x := Diploid([0], [0]);
    var inds := [x, x];
    var pop := Population(1, inds);
    assert Regular(pop, 1, 1);
    SitesOfRegular(pop, 1, 1);
    EmptyTallyKeys(1);
    var ps0 := EmptyTally(1).value;
    var one := inds[..1];
    assert Shaped(one, 1);
    TalliedAsWritten(one, 1, 1, ps0);
    assert Agree(x.copy0, 0, x.copy1, 0, 1);
    assert one[..0] == [];
    assert Homozygous(one, 0, 1) == 1;
    var st := Fold(TalliedStep(1), one, (Zeros(1), ps0)).value;
    WithinCounts(one, x, 1, 1);
    assert one + [x] == inds;
    assert Homozygous(inds, 0, 1) == 2;
    var zeros := HomozygousCounts(inds, 1, 1);
    assert zeros[0] == 2 && !Binary(zeros);
    assert zeros !in st.1;
    assert Fold(TalliedStep(1), inds, (Zeros(1), ps0)) == Tallied(st, x, 1) == Err(KeyError(KeyRepr(zeros)));
    assert zeros == [2];
    KeyReprTwo();
  }

  // compute_P as evidently intended

  /** One pass with a fresh list of zeros: the key is the individual's own
      0/1 pattern of homozygous loci. */
  function TalliedFresh(ps: map<seq<int>, int>, x: Diploid, nloci: int, sites: int): Result<map<seq<int>, int>>
  {
    var key :- Within(Zeros(nloci), x, sites);
    Count(ps, key)
  }

  function TalliedFreshStep(nloci: int, sites: int): (map<seq<int>, int>, Diploid) -> Result<map<seq<int>, int>> {
    (ps: map<seq<int>, int>, x: Diploid) => TalliedFresh(ps, x, nloci, sites)
  }

  function PIntended(pop: Population, nloci: int): Result<map<seq<int>, int>>
  {
    var sites :- Sites(pop.lociCount, nloci);
    var ps0 :- EmptyTally(nloci);
    var ps :- Fold(TalliedFreshStep(nloci, sites), pop.individuals, ps0);
    if |pop.individuals| == 0 then Err(ZeroDivisionError) else Ok(ps)
  }

  /** Which loci of an individual are homozygous, as 0/1. */
  function Pattern(x: Diploid, nloci: nat, sites: nat): (r: seq<int>)
    ensures |r| == nloci && Binary(r)
  {
    seq(nloci, i requires 0 <= i < nloci => if Agree(x.copy0, i, x.copy1, i, sites) then 1 else 0)
  }

  /** The number of individuals whose pattern is `key`. */
  function Carrying(inds: seq<Diploid>, key: seq<int>, nloci: nat, sites: nat): (c: nat)
    ensures c <= |inds|
  {
    if |inds| == 0 then 0
    else Carrying(inds[..|inds| - 1], key, nloci, sites)
         + (if Pattern(inds[|inds| - 1], nloci, sites) == key then 1 else 0)
  }

  /** Comparing an individual's copies from fresh zeros gives its
      pattern. */
  lemma WithinPattern(x: Diploid, nloci: nat, sites: nat)
    requires sites > 0 && |x.copy0| == nloci * sites && |x.copy1| == nloci * sites
    ensures Within(Zeros(nloci), x, sites) == Ok(Pattern(x, nloci, sites))
  {
    IdentityOfCopies(Zeros(nloci), x.copy0, x.copy1, nloci, sites);
    var got := Within(Zeros(nloci), x, sites).value;
    var want := Pattern(x, nloci, sites);
    forall i | 0 <= i < nloci ensures got[i] == want[i] {
    }
    assert got == want;
  }

  /** With fresh zeros the key of a pass is the individual's pattern. */
  lemma TalliedFreshKey(ps: map<seq<int>, int>, x: Diploid, nloci: nat, sites: nat)
    requires sites > 0 && |x.copy0| == nloci * sites && |x.copy1| == nloci * sites
    ensures TalliedFresh(ps, x, nloci, sites) == Count(ps, Pattern(x, nloci, sites))
  {
    WithinPattern(x, nloci, sites);
  }

  lemma {:induction false} TalliedFreshMeaning(inds: seq<Diploid>, nloci: nat, sites: nat, ps0: map<seq<int>, int>)
    requires sites > 0 && Shaped(inds, nloci * sites) && BinaryKeys(ps0, nloci)
    ensures var r := Fold(TalliedFreshStep(nloci, sites), inds, ps0);
      r.Ok? && BinaryKeys(r.value, nloci)
      && forall key :: key in r.value ==> r.value[key] == ps0[key] + Carrying(inds, key, nloci, sites)
    decreases |inds|
  {
    if |inds| > 0 {
      var front := inds[..|inds| - 1];
      var x := inds[|inds| - 1];
      assert Shaped(front, nloci * sites) by {
        forall y | 0 <= y < |front| ensures |front[y].copy0| == nloci * sites && |front[y].copy1| == nloci * sites {
          assert front[y] == inds[y];
        }
      }
      TalliedFreshMeaning(front, nloci, sites, ps0);
      var before := Fold(TalliedFreshStep(nloci, sites), front, ps0).value;
      WithinPattern(x, nloci, sites);
      var key := Pattern(x, nloci, sites);
      assert key in before;
      var after := before[key := before[key] + 1];
      var step := TalliedFreshStep(nloci, sites);
      assert Fold(step, inds, ps0) == step(before, x);
      assert step(before, x) == TalliedFresh(before, x, nloci, sites);
      TalliedFreshKey(before, x, nloci, sites);
      CountPresent(before, key);
      forall k | k in after ensures after[k] == ps0[k] + Carrying(inds, k, nloci, sites) {
        assert Carrying(inds, k, nloci, sites)
          == Carrying(front, k, nloci, sites) + if key == k then 1 else 0;
      }
    }
  }

  /** Intended `compute_P`: every pass succeeds, the table keeps exactly
      the 0/1 tuples, and each counts the individuals with that pattern. */
  lemma PIntendedMeaning(pop: Population, nloci: nat, sites: nat)
    requires Regular(pop, nloci, sites) && |pop.individuals| > 0
    ensures PIntended(pop, nloci).Ok? && BinaryKeys(PIntended(pop, nloci).value, nloci)
    ensures forall key :: key in PIntended(pop, nloci).value ==>
      PIntended(pop, nloci).value[key] == Carrying(pop.individuals, key, nloci, sites)
  {
    SitesOfRegular(pop, nloci, sites);
    EmptyTallyKeys(nloci);
    TalliedFreshMeaning(pop.individuals, nloci, sites, EmptyTally(nloci).value);
  }

  /** The population of `PKeyErrorExample` under the intended pass: both
      individuals have the pattern `(1,)`. */
  lemma PIntendedExample()
    ensures var r := PIntended(Population(1, [Diploid([0], [0]), Diploid([0], [0])]), 1);
      r.Ok? && [1] in r.value && r.value[[1]] == 2 && [0] in r.value && r.value[[0]] == 0
  {
    var x := Diploid([0], [0]);
    var pop := Population(1, [x, x]);
    assert Regular(pop, 1, 1);
    PIntendedMeaning(pop, 1, 1);
    assert Agree(x.copy0, 0, x.copy1, 0, 1);
    assert Pattern(x, 1, 1) == [1];
    assert Binary([1]) && Binary([0]);
    assert [x, x][..1] == [x] && [x][..0] == [];
    assert Carrying([x, x], [1], 1, 1) == 2;
    assert Carrying([x, x], [0], 1, 1) == 0;
  }
}
