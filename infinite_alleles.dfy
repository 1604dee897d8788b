/** The infinite-alleles mutation model of partial_selfing/infinite_alleles.py.

    Every locus is a single gene whose allele is an integer. The mutator
    keeps, for each replicate, one counter per locus holding the next allele
    value that has never been used at that locus; a mutation writes the
    counter's value into the gene and increments the counter. The events
    are visited in the same order as in the infinite-sites model
    (individual, then locus, then copy), one uniform draw each; the draws
    are an input sequence. */
module InfiniteAlleles {
  import opened Wrappers
  import opened Json
  import InfiniteSites

  type Event = InfiniteSites.Event

  /** Per individual, its two copies; per copy, one allele per locus. */
  type Genotypes = seq<seq<seq<int>>>

  predicate WellShaped(g: Genotypes, numLoci: nat) {
    forall i :: 0 <= i < |g| ==> |g[i]| == 2 && |g[i][0]| == numLoci && |g[i][1]| == numLoci
  }

  /** `ind.setAllele(v, locus, ploidy = copy)` on individual `i`. */
  function SetGene(g: Genotypes, numLoci: nat, i: nat, copy: nat, locus: nat, v: int): (r: Genotypes)
    requires WellShaped(g, numLoci) && i < |g| && copy < 2 && locus < numLoci
    ensures WellShaped(r, numLoci) && |r| == |g|
    ensures r[i][copy][locus] == v
    ensures forall j, c, l :: 0 <= j < |g| && 0 <= c < 2 && 0 <= l < numLoci && (j, c, l) != (i, copy, locus) ==>
      r[j][c][l] == g[j][c][l]
  {
    g[i := g[i][copy := g[i][copy][locus := v]]]
  }

  // ---------------------------------------------------------------------
  // The specification of one replicate's mutation pass

  /** The genotypes of one replicate and that replicate's counters. */
  datatype AlleleState = AlleleState(geno: Genotypes, next: seq<int>)

  predicate StateOk(st: AlleleState, numLoci: nat) {
    WellShaped(st.geno, numLoci) && |st.next| == numLoci
  }

  /** Draw `u` mutates event `e` when it falls below the locus's rate. */
  predicate Mutates(mu: seq<real>, e: Event, u: real) {
    e.locus < |mu| && u < mu[e.locus]
  }

  /** One mutation opportunity. An event without a rate is never reached by
      the mutator (it stops there) and one outside the population is never
      generated, so both change nothing here. */
  function Step(st: AlleleState, numLoci: nat, mu: seq<real>, e: Event, u: real): (r: AlleleState)
    requires StateOk(st, numLoci)
    ensures StateOk(r, numLoci) && |r.geno| == |st.geno|
  {
    if Mutates(mu, e, u) && InfiniteSites.EventFits(e, |st.geno|, numLoci) then
      AlleleState(SetGene(st.geno, numLoci, e.ind, e.copy, e.locus, st.next[e.locus]),
                  st.next[e.locus := st.next[e.locus] + 1])
    else st
  }

  /** The state after the first `m` events, each with its own draw. */
  function RunTo(st: AlleleState, numLoci: nat, mu: seq<real>, events: seq<Event>, draws: seq<real>, m: nat): (r: AlleleState)
    requires StateOk(st, numLoci) && m <= |events| <= |draws|
    ensures StateOk(r, numLoci) && |r.geno| == |st.geno|
  {
    if m == 0 then st
    else Step(RunTo(st, numLoci, mu, events, draws, m - 1), numLoci, mu, events[m - 1], draws[m - 1])
  }

  /** How far one generation's pass gets: all events of all individuals,
      unless some locus has no rate, in which case the pass raises
      `IndexError` at copy 0 of the first such locus of individual 0, after
      the `2 * |mu|` events before it. */
  function PassLength(n: nat, numLoci: nat, mu: seq<real>): (m: nat)
    ensures m <= |InfiniteSites.AllEvents(n, numLoci)|
  {
    InfiniteSites.AllEventsLength(n, numLoci);
    if n > 0 && |mu| < numLoci then
      assert 2 * numLoci <= 2 * numLoci * n;
      2 * |mu|
    else |InfiniteSites.AllEvents(n, numLoci)|
  }

  /** A pass that fails stops at the first individual, after its rates. */
  lemma EarlyPass(n: nat, numLoci: nat, mu: seq<real>)
    requires n > 0 && |mu| < numLoci
    ensures PassLength(n, numLoci, mu) == 2 * |mu|
  {
  }

  // ---------------------------------------------------------------------
  // The mutator

  class Population {
    const rep: nat
    var geno: Genotypes

    constructor (rep: nat, geno: Genotypes)
      ensures this.rep == rep && this.geno == geno
    {
      this.rep := rep;
      this.geno := geno;
    }

    /** `ind.setAllele(v, locus, ploidy = copy)` on the `i`-th individual. */
    method SetAllele(v: int, i: nat, locus: nat, copy: nat, ghost numLoci: nat)
      requires WellShaped(geno, numLoci) && i < |geno| && copy < 2 && locus < numLoci
      modifies this
      ensures geno == SetGene(old(geno), numLoci, i, copy, locus, v)
    {
      geno := geno[i := geno[i][copy := geno[i][copy][locus := v]]];
    }
  }

  /** `MyMutator`: the counters `idx[rep][locus]`. */
  class AlleleMutator {
    const mu: seq<real>
    const numLoci: nat
    var idx: seq<seq<int>>

    ghost predicate Valid()
      reads this
    {
      forall r :: 0 <= r < |idx| ==> |idx[r]| == numLoci
    }

    /** Only replicate `rep`'s counters differ from `prev`. */
    ghost predicate OthersAs(prev: seq<seq<int>>, rep: nat)
      reads this
    {
      && |idx| == |prev|
      && forall q :: 0 <= q < |prev| && q != rep ==> idx[q] == prev[q]
    }

    /** Every one of the `nrep` replicates starts with `newIdx` at every
        locus, in a list of its own. */
    constructor (mu: seq<real>, numLoci: nat, nrep: nat, newIdx: int)
      ensures Valid() && this.mu == mu && this.numLoci == numLoci
      ensures |idx| == nrep
      ensures forall r, l :: 0 <= r < nrep && 0 <= l < numLoci ==> idx[r][l] == newIdx
    {
      this.mu := mu;
      this.numLoci := numLoci;
      idx := seq(nrep, r => seq(numLoci, l => newIdx));
    }

    /** `mutate(pop)`: one pass over individuals, loci and copies in that
        order, draw `draws[k]` for the `k`-th opportunity. Only the
        replicate's own counters change; the pass stops with `IndexError`
        where a locus has no rate. */
    method Mutate(pop: Population, draws: seq<real>) returns (r: Result<bool>)
      requires Valid() && pop.rep < |idx|
      requires WellShaped(pop.geno, numLoci)
      requires |draws| == |InfiniteSites.AllEvents(|pop.geno|, numLoci)|
      modifies this, pop
      ensures Valid() && OthersAs(old(idx), pop.rep)
      ensures r.Err? <==> |old(pop.geno)| > 0 && |mu| < numLoci
      ensures r.Err? ==> r.error == IndexError
      ensures r.Ok? ==> r.value
      ensures AlleleState(pop.geno, idx[pop.rep])
        == RunTo(AlleleState(old(pop.geno), old(idx[pop.rep])), numLoci, mu, InfiniteSites.AllEvents(|old(pop.geno)|, numLoci), draws,
                 PassLength(|old(pop.geno)|, numLoci, mu))
    {
      var n := |pop.geno|;
      ghost var st0 := AlleleState(pop.geno, idx[pop.rep]);
      ghost var all := InfiniteSites.AllEvents(n, numLoci);
      ghost var prev := idx;
      var i, k := 0, 0;
      while i < n
        invariant 0 <= i <= n == |pop.geno| && WellShaped(pop.geno, numLoci)
        invariant Valid() && OthersAs(prev, pop.rep) && pop.rep < |idx|
        invariant i == 0 || |mu| >= numLoci
        invariant k == |InfiniteSites.AllEvents(i, numLoci)| <= |all|
        invariant AlleleState(pop.geno, idx[pop.rep]) == RunTo(st0, numLoci, mu, all, draws, k)
      {
        InfiniteSites.IndividualEvents(i, n, numLoci);
        r := MutateIndividual(pop, st0, all, draws, i, k);
        if r.Err? {
          EarlyPass(n, numLoci, mu);
          return;
        }
        i, k := i + 1, k + 2 * numLoci;
      }
      assert PassLength(n, numLoci, mu) == k;
      return Ok(true);
    }

    /** The loci of individual `i`, whose events start at `all[k]`. */
    method MutateIndividual(pop: Population, ghost st0: AlleleState, ghost all: seq<Event>, draws: seq<real>, i: nat, k: nat)
      returns (r: Result<bool>)
      requires Valid() && pop.rep < |idx| && StateOk(st0, numLoci)
      requires WellShaped(pop.geno, numLoci) && |pop.geno| == |st0.geno| && i < |st0.geno|
      requires |all| <= |draws| && InfiniteSites.IndividualAt(all, k, i, numLoci)
      requires AlleleState(pop.geno, idx[pop.rep]) == RunTo(st0, numLoci, mu, all, draws, k)
      modifies this, pop
      ensures Valid() && OthersAs(old(idx), pop.rep) && |pop.geno| == old(|pop.geno|) && WellShaped(pop.geno, numLoci)
      ensures r.Err? <==> |mu| < numLoci
      ensures r.Ok? ==>
        r == Ok(true) && AlleleState(pop.geno, idx[pop.rep]) == RunTo(st0, numLoci, mu, all, draws, k + 2 * numLoci)
      ensures r.Err? ==>
        r == Err(IndexError) && AlleleState(pop.geno, idx[pop.rep]) == RunTo(st0, numLoci, mu, all, draws, k + 2 * |mu|)
    {
      ghost var prev := idx;
      var locus := 0;
      while locus < numLoci
        invariant 0 <= locus <= numLoci && |pop.geno| == |st0.geno| && WellShaped(pop.geno, numLoci)
        invariant Valid() && OthersAs(prev, pop.rep) && pop.rep < |idx|
        invariant locus <= |mu|
        invariant AlleleState(pop.geno, idx[pop.rep]) == RunTo(st0, numLoci, mu, all, draws, k + 2 * locus)
      {
        if locus >= |mu| {
          return Err(IndexError);
        }
        InfiniteSites.Halves(locus);
        MutateLocus(pop, st0, all, draws, i, locus, k + 2 * locus);
        locus := locus + 1;
      }
      return Ok(true);
    }

    /** Both copies of locus `locus` of individual `i`, whose events are
        `all[j]` and `all[j + 1]`. */
    method MutateLocus(pop: Population, ghost st0: AlleleState, ghost all: seq<Event>, draws: seq<real>, i: nat, locus: nat, j: nat)
      requires Valid() && pop.rep < |idx| && StateOk(st0, numLoci)
      requires WellShaped(pop.geno, numLoci) && |pop.geno| == |st0.geno| && i < |st0.geno| && locus < numLoci && locus < |mu|
      requires j + 2 <= |all| <= |draws|
      requires all[j] == InfiniteSites.Event(i, locus, 0) && all[j + 1] == InfiniteSites.Event(i, locus, 1)
      requires AlleleState(pop.geno, idx[pop.rep]) == RunTo(st0, numLoci, mu, all, draws, j)
      modifies this, pop
      ensures Valid() && OthersAs(old(idx), pop.rep) && |pop.geno| == old(|pop.geno|) && WellShaped(pop.geno, numLoci)
      ensures AlleleState(pop.geno, idx[pop.rep]) == RunTo(st0, numLoci, mu, all, draws, j + 2)
    {
      MutateGene(pop, i, locus, 0, draws[j]);
      assert AlleleState(pop.geno, idx[pop.rep]) == RunTo(st0, numLoci, mu, all, draws, j + 1);
      MutateGene(pop, i, locus, 1, draws[j + 1]);
    }

    /** One opportunity: copy `copy` of locus `locus` of individual `i`
        mutates when the draw is below the locus's rate. */
    method MutateGene(pop: Population, i: nat, locus: nat, copy: nat, u: real)
      requires Valid() && pop.rep < |idx| && WellShaped(pop.geno, numLoci)
      requires InfiniteSites.EventFits(InfiniteSites.Event(i, locus, copy), |pop.geno|, numLoci) && locus < |mu|
      modifies this, pop
      ensures Valid() && OthersAs(old(idx), pop.rep) && |pop.geno| == old(|pop.geno|) && WellShaped(pop.geno, numLoci)
      ensures AlleleState(pop.geno, idx[pop.rep])
        == Step(AlleleState(old(pop.geno), old(idx[pop.rep])), numLoci, mu, InfiniteSites.Event(i, locus, copy), u)
    {
      if u < mu[locus] {
        var v := idx[pop.rep][locus];
        pop.SetAllele(v, i, locus, copy, numLoci);
        idx := idx[pop.rep := idx[pop.rep][locus := v + 1]];
      }
    }
  }

  // ---------------------------------------------------------------------
  // What a pass does to the counters and the genes

  /** How many of the first `m` events mutate a gene of locus `l`. */
  function Mutations(n: nat, numLoci: nat, mu: seq<real>, events: seq<Event>, draws: seq<real>, m: nat, l: nat): nat
    requires m <= |events| <= |draws|
  {
    if m == 0 then 0
    else
      var e := events[m - 1];
      Mutations(n, numLoci, mu, events, draws, m - 1, l)
        + (if e.locus == l && Mutates(mu, e, draws[m - 1]) && InfiniteSites.EventFits(e, n, numLoci) then 1 else 0)
  }

  /** A counter grows by exactly the number of mutations at its locus. */
  lemma {:induction false} CounterCount(st: AlleleState, numLoci: nat, mu: seq<real>, events: seq<Event>, draws: seq<real>, m: nat, l: nat)
    requires StateOk(st, numLoci) && m <= |events| <= |draws| && l < numLoci
    ensures RunTo(st, numLoci, mu, events, draws, m).next[l]
      == st.next[l] + Mutations(|st.geno|, numLoci, mu, events, draws, m, l)
  {
    if m > 0 {
      CounterCount(st, numLoci, mu, events, draws, m - 1, l);
    }
  }

  /** Counters never decrease. */
  lemma {:induction false} CountersGrow(st: AlleleState, numLoci: nat, mu: seq<real>, events: seq<Event>, draws: seq<real>, a: nat, b: nat, l: nat)
    requires StateOk(st, numLoci) && a <= b <= |events| <= |draws| && l < numLoci
    ensures RunTo(st, numLoci, mu, events, draws, a).next[l] <= RunTo(st, numLoci, mu, events, draws, b).next[l]
    decreases b
  {
    if a < b {
      CountersGrow(st, numLoci, mu, events, draws, a, b - 1, l);
    }
  }

  /** A mutating event writes the locus's counter into its gene and moves
      the counter on by one. */
  lemma WrittenValue(st: AlleleState, numLoci: nat, mu: seq<real>, events: seq<Event>, draws: seq<real>, j: nat)
    requires StateOk(st, numLoci) && j < |events| <= |draws|
    requires Mutates(mu, events[j], draws[j]) && InfiniteSites.EventFits(events[j], |st.geno|, numLoci)
    ensures var e := events[j];
      var before := RunTo(st, numLoci, mu, events, draws, j);
      var after := RunTo(st, numLoci, mu, events, draws, j + 1);
      && after.geno[e.ind][e.copy][e.locus] == before.next[e.locus]
      && after.next[e.locus] == before.next[e.locus] + 1
  {
  }

  /** Alleles written at one locus strictly increase in draw order, so no
      two mutations of a pass, or of successive passes continuing from the
      same counters, ever produce the same allele. */
  lemma ValuesIncrease(st: AlleleState, numLoci: nat, mu: seq<real>, events: seq<Event>, draws: seq<real>, j1: nat, j2: nat)
    requires StateOk(st, numLoci) && j1 < j2 < |events| <= |draws|
    requires events[j1].locus == events[j2].locus
    requires Mutates(mu, events[j1], draws[j1]) && InfiniteSites.EventFits(events[j1], |st.geno|, numLoci)
    requires Mutates(mu, events[j2], draws[j2]) && InfiniteSites.EventFits(events[j2], |st.geno|, numLoci)
    ensures var e1, e2 := events[j1], events[j2];
      RunTo(st, numLoci, mu, events, draws, j1 + 1).geno[e1.ind][e1.copy][e1.locus]
        < RunTo(st, numLoci, mu, events, draws, j2 + 1).geno[e2.ind][e2.copy][e2.locus]
  {
    WrittenValue(st, numLoci, mu, events, draws, j1);
    WrittenValue(st, numLoci, mu, events, draws, j2);
    CountersGrow(st, numLoci, mu, events, draws, j1 + 1, j2, events[j1].locus);
  }

  /** After any number of events every gene holds either its initial
      allele or one handed out by its locus's counter during the run. */
  lemma {:induction false} FreshOrInitial(st: AlleleState, numLoci: nat, mu: seq<real>, events: seq<Event>, draws: seq<real>, m: nat)
    requires StateOk(st, numLoci) && m <= |events| <= |draws|
    ensures var r := RunTo(st, numLoci, mu, events, draws, m);
      forall i, c, l :: 0 <= i < |st.geno| && 0 <= c < 2 && 0 <= l < numLoci ==>
        r.geno[i][c][l] == st.geno[i][c][l] || st.next[l] <= r.geno[i][c][l] < r.next[l]
  {
    if m > 0 {
      FreshOrInitial(st, numLoci, mu, events, draws, m - 1);
      var prev := RunTo(st, numLoci, mu, events, draws, m - 1);
      var e := events[m - 1];
      if Mutates(mu, e, draws[m - 1]) && InfiniteSites.EventFits(e, |st.geno|, numLoci) {
        CountersGrow(st, numLoci, mu, events, draws, 0, m - 1, e.locus);
      }
    }
  }

  /** A gene none of whose events mutated keeps its allele. */
  lemma {:induction false} UntouchedGene(st: AlleleState, numLoci: nat, mu: seq<real>, events: seq<Event>, draws: seq<real>, m: nat,
                                         i: nat, c: nat, l: nat)
    requires StateOk(st, numLoci) && m <= |events| <= |draws|
    requires i < |st.geno| && c < 2 && l < numLoci
    requires forall j :: 0 <= j < m && events[j] == InfiniteSites.Event(i, l, c) ==> !Mutates(mu, events[j], draws[j])
    ensures RunTo(st, numLoci, mu, events, draws, m).geno[i][c][l] == st.geno[i][c][l]
  {
    if m > 0 {
      UntouchedGene(st, numLoci, mu, events, draws, m - 1, i, c, l);
    }
  }

  /** When every initial allele at locus `l` lies below the counter (as
      `new_idx` guarantees), a gene that changed carries an allele no gene
      carried at the start. */
  lemma NewAllelesAreNew(st: AlleleState, numLoci: nat, mu: seq<real>, events: seq<Event>, draws: seq<real>, m: nat, l: nat)
    requires StateOk(st, numLoci) && m <= |events| <= |draws| && l < numLoci
    requires forall i, c :: 0 <= i < |st.geno| && 0 <= c < 2 ==> st.geno[i][c][l] < st.next[l]
    ensures var r := RunTo(st, numLoci, mu, events, draws, m);
      forall i, c, i2, c2 ::
        (0 <= i < |st.geno| && 0 <= c < 2 && 0 <= i2 < |st.geno| && 0 <= c2 < 2 && r.geno[i][c][l] != st.geno[i][c][l])
        ==> r.geno[i][c][l] != st.geno[i2][c2][l]
  {
    FreshOrInitial(st, numLoci, mu, events, draws, m);
  }

  // ---------------------------------------------------------------------
  // The initial genotypes and `next_idx` (execute)

  /** The initial-genotype operator `execute` builds: `c` alleles
      `0 .. c-1`, or alleles `0 .. |prop|-1` drawn with the given
      (normalised) proportions. */
  datatype InitGenotype = ByCount(count: int) | ByProp(prop: seq<real>)

  /** The numbers in a JSON sequence, when every item is one. */
  function Numbers(items: seq<Json>): (r: Option<seq<real>>)
    ensures r.Some? <==> forall k :: 0 <= k < |items| ==> AsNumber(items[k]).Some?
    ensures r.Some? ==> |r.value| == |items| && forall k :: 0 <= k < |items| ==> Some(r.value[k]) == AsNumber(items[k])
  {
    if |items| == 0 then Some([])
    else match (Numbers(items[..|items| - 1]), AsNumber(items[|items| - 1]))
      case (Some(ps), Some(p)) => Some(ps + [p])
      case _ => None
  }

  function Sum(ps: seq<real>): real {
    if |ps| == 0 then 0.0 else Sum(ps[..|ps| - 1]) + ps[|ps| - 1]
  }

  /** Every item is a Python 2 `int` (`bool` is one), so that `sum` is an
      `int` too. */
  predicate AllIntegers(items: seq<Json>) {
    forall k :: 0 <= k < |items| ==> items[k].JInt? || items[k].JBool?
  }

  /** Each share `p / s` of a non-zero total. */
  function Shares(ps: seq<real>, s: real): (r: seq<real>)
    requires s != 0.0
  {
    seq(|ps|, k requires 0 <= k < |ps| => ps[k] / s)
  }

  /** Each share rounded down, as Python 2's `/` on two `int`s does. */
  function FloorShares(ps: seq<real>, s: real): (r: seq<real>)
    requires s != 0.0
  {
    seq(|ps|, k requires 0 <= k < |ps| => (ps[k] / s).Floor as real)
  }

  /** `get_init_genotype_by_prop(freq)` under Python 2, which the package
      is written for: `sum(freq)` raises `TypeError` unless every item is
      a number, dividing by a zero sum raises `ZeroDivisionError` as soon
      as there is an item to divide, and `p / s` floors when every item,
      and so the sum, is an integer. */
  function ByFreq(freq: Json): (r: Result<InitGenotype>)
    ensures r.Ok? ==> r.value.ByProp?
  {
    match Iterate(freq)
    case None => Err(TypeError)
    case Some(items) =>
      match Numbers(items)
      case None => Err(TypeError)
      case Some(ps) =>
        if |ps| > 0 && Sum(ps) == 0.0 then Err(ZeroDivisionError)
        else if |ps| == 0 then Ok(ByProp([]))
        else if AllIntegers(items) then Ok(ByProp(FloorShares(ps, Sum(ps))))
        else Ok(ByProp(Shares(ps, Sum(ps))))
  }

  /** The shares of a total add up to the total divided. */
  lemma {:induction false} SumShares(ps: seq<real>, s: real)
    requires s != 0.0
    ensures Sum(Shares(ps, s)) == Sum(ps) / s
  {
    if |ps| > 0 {
      var front := ps[..|ps| - 1];
      assert Shares(ps, s)[..|ps| - 1] == Shares(front, s);
      SumShares(front, s);
      assert Sum(front) / s + ps[|ps| - 1] / s == (Sum(front) + ps[|ps| - 1]) / s;
    }
  }

  /** A list of numbers fails exactly when it is non-empty and sums to
      zero; otherwise there is one proportion per frequency. */
  lemma ByFreqZeroSum(freq: Json, items: seq<Json>, ps: seq<real>)
    requires Iterate(freq) == Some(items) && Numbers(items) == Some(ps)
    ensures ByFreq(freq).Err? <==> |ps| > 0 && Sum(ps) == 0.0
    ensures ByFreq(freq).Err? ==> ByFreq(freq).error == ZeroDivisionError
    ensures ByFreq(freq).Ok? ==> |ByFreq(freq).value.prop| == |ps|
  {
  }

  /** What the proportions are. With a `float` among the frequencies
      proportion `k` times the sum is `freq[k]`, and the proportions add
      up to 1; with integers only, proportion `k` is the whole number at
      or just below `freq[k] / sum`. */
  lemma ByFreqProportions(freq: Json, items: seq<Json>, ps: seq<real>)
    requires Iterate(freq) == Some(items) && Numbers(items) == Some(ps)
    requires |ps| > 0 && Sum(ps) != 0.0
    ensures ByFreq(freq).Ok? && |ByFreq(freq).value.prop| == |ps|
    ensures !AllIntegers(items) ==>
      var prop := ByFreq(freq).value.prop;
      && (forall k :: 0 <= k < |ps| ==> prop[k] * Sum(ps) == ps[k])
      && Sum(prop) == 1.0
    ensures AllIntegers(items) ==>
      var prop := ByFreq(freq).value.prop;
      forall k :: 0 <= k < |ps| ==>
        && prop[k] == prop[k].Floor as real
        && prop[k] <= ps[k] / Sum(ps) < prop[k] + 1.0
  {
    var s := Sum(ps);
    if AllIntegers(items) {
      assert ByFreq(freq) == Ok(ByProp(FloorShares(ps, s)));
      FloorSharesMeaning(ps, s);
    } else {
      var prop := Shares(ps, s);
      assert ByFreq(freq) == Ok(ByProp(prop));
      SharesMeaning(ps, s);
      SumShares(ps, s);
      QuotientOfItself(s);
    }
  }

  lemma QuotientOfItself(s: real)
    requires s != 0.0
    ensures s / s == 1.0
  {
  }

  lemma SharesMeaning(ps: seq<real>, s: real)
    requires s != 0.0
    ensures |Shares(ps, s)| == |ps|
    ensures forall k :: 0 <= k < |ps| ==> Shares(ps, s)[k] * s == ps[k]
  {
    forall k | 0 <= k < |ps|
      ensures Shares(ps, s)[k] * s == ps[k]
    {
      QuotientTimes(ps[k], s);
    }
  }

  lemma QuotientTimes(x: real, s: real)
    requires s != 0.0
    ensures (x / s) * s == x
  {
  }

  lemma FloorSharesMeaning(ps: seq<real>, s: real)
    requires s != 0.0
    ensures |FloorShares(ps, s)| == |ps|
    ensures forall k :: 0 <= k < |ps| ==>
      && FloorShares(ps, s)[k] == FloorShares(ps, s)[k].Floor as real
      && FloorShares(ps, s)[k] <= ps[k] / s < FloorShares(ps, s)[k] + 1.0
  {
  }

  /** Anything but a collection of numbers raises `TypeError`. */
  lemma ByFreqTypeError(freq: Json)
    requires Iterate(freq).None? || Numbers(Iterate(freq).value).None?
    ensures ByFreq(freq) == Err(TypeError)
  {
  }

  /** Integer frequencies 1 and 3 give proportions 0 and 0 under Python
      2's floor division; a `float` among them gives 0.25 and 0.75. */
  lemma ByFreqExamples()
    ensures ByFreq(JArray([JInt(1), JInt(3)])) == Ok(ByProp([0.0, 0.0]))
    ensures ByFreq(JArray([JFloat(1.0), JInt(3)])) == Ok(ByProp([0.25, 0.75]))
  {
    var ints := [JInt(1), JInt(3)];
    assert ints[..1][..0] == [] && ints[..1] == [JInt(1)];
    assert AsNumber(JInt(1)) == Some(1.0) && AsNumber(JInt(3)) == Some(3.0);
    assert Numbers([]) == Some([]);
    assert [] + [1.0] == [1.0];
    assert Numbers(ints[..1]) == Some([1.0]);
    assert [1.0] + [3.0] == [1.0, 3.0];
    assert Numbers(ints) == Some([1.0, 3.0]);
    assert Sum([1.0, 3.0]) == 4.0 by {
      assert [1.0, 3.0][..1] == [1.0];
      assert Sum([1.0]) == 1.0 by { assert [1.0][..0] == []; }
    }
    assert FloorShares([1.0, 3.0], 4.0) == [0.0, 0.0];
    var mixed := [JFloat(1.0), JInt(3)];
    assert mixed[..1][..0] == [] && mixed[..1] == [JFloat(1.0)];
    assert Numbers(mixed[..1]) == Some([1.0]);
    assert Numbers(mixed) == Some([1.0, 3.0]);
    assert !AllIntegers(mixed) by { assert !(mixed[0].JInt? || mixed[0].JBool?); }
    assert Shares([1.0, 3.0], 4.0) == [0.25, 0.75];
  }

  /** `execute`'s choice of initial genotypes as written. The module it
      calls, `partial_selfing.common`, has no `get_init_genotype_by_count`,
      so `monomorphic` and `unique` raise `AttributeError`. Under any
      other model the `try` raises too, on that name or on a missing
      `count`, and the bare `except` always falls back on `init['freq']`. */
  function InitOperator(init: Json, n: nat): (r: Result<InitGenotype>)
  {
    var model :- Get(init, "model");
    if model == JString("monomorphic") || model == JString("unique") then
      Err(AttributeError("get_init_genotype_by_count"))
    else
      var freq :- Get(init, "freq");
      ByFreq(freq)
  }

  /** The same choice with the counting helper of selfingsim/common.py,
      whose signature the calls follow: one allele for `monomorphic`,
      `2N` for `unique`, otherwise `init['count']` alleles, falling back
      on `init['freq']` when the count is missing or `range` refuses it. */
  function IntendedInitOperator(init: Json, n: nat): (r: Result<InitGenotype>)
  {
    var model :- Get(init, "model");
    if model == JString("monomorphic") then Ok(ByCount(1))
    else if model == JString("unique") then Ok(ByCount(2 * n))
    else match Get(init, "count")
      case Ok(JInt(c)) => Ok(ByCount(c))
      case Ok(JBool(b)) => Ok(ByCount(if b then 1 else 0))
      case _ => match Get(init, "freq")
        case Ok(freq) => ByFreq(freq)
        case Err(e) => Err(e)
  }

  /** `next_idx`: the first element of the pair the helper returns. */
  function NextIdx(op: InitGenotype): int {
    match op
    case ByCount(c) => c
    case ByProp(p) => |p|
  }

  /** The alleles an initial-genotype operator can place. */
  predicate MayPlace(op: InitGenotype, a: int) {
    match op
    case ByCount(c) => 0 <= a < c
    case ByProp(p) => 0 <= a < |p| && p[a] > 0.0
  }

  /** As written, a successful choice always draws by proportion from
      `freq`, whatever the model and the count say; `next_idx` is the
      number of frequencies, above every allele the initial genotypes can
      hold. */
  lemma NextIdxAboveInitial(init: Json, n: nat)
    requires InitOperator(init, n).Ok?
    ensures var op := InitOperator(init, n).value;
      && HasKey(init, "freq")
      && op == ByFreq(Lookup(init.fields, "freq").value).value
      && Get(init, "model").value != JString("monomorphic")
      && Get(init, "model").value != JString("unique")
      && (forall a :: MayPlace(op, a) ==> 0 <= a < NextIdx(op))
      && NextIdx(op) == |Iterate(Lookup(init.fields, "freq").value).value|
  {
    var freq := Lookup(init.fields, "freq").value;
    assert Get(init, "freq") == Ok(freq);
    var items := Iterate(freq).value;
    assert Numbers(items).Some?;
  }

  /** Every failure of the choice as written: a missing `model` (or an
      `init` that is not a dictionary), the `AttributeError` of
      `monomorphic` and `unique`, and a missing or unusable `freq`. */
  lemma InitOperatorFails(init: Json, n: nat)
    ensures InitOperator(init, n).Err? <==>
      || Get(init, "model").Err?
      || Get(init, "model").value == JString("monomorphic")
      || Get(init, "model").value == JString("unique")
      || Get(init, "freq").Err? || ByFreq(Get(init, "freq").value).Err?
    ensures Get(init, "model") == Ok(JString("monomorphic")) || Get(init, "model") == Ok(JString("unique")) ==>
      InitOperator(init, n) == Err(AttributeError("get_init_genotype_by_count"))
  {
  }

  /** What the calls intend: `next_idx` is the number of initial alleles,
      so every allele the initial genotypes can hold lies below it: 1 for
      `monomorphic`, `2N` for `unique`, the count, or else the number of
      frequencies. */
  lemma IntendedNextIdx(init: Json, n: nat)
    requires IntendedInitOperator(init, n).Ok?
    ensures var op := IntendedInitOperator(init, n).value;
      && (forall a :: MayPlace(op, a) ==> 0 <= a < NextIdx(op))
      && (Get(init, "model") == Ok(JString("monomorphic")) ==> NextIdx(op) == 1)
      && (Get(init, "model") == Ok(JString("unique")) ==> NextIdx(op) == 2 * n)
      && (Get(init, "model").Ok? && Get(init, "model").value !in {JString("monomorphic"), JString("unique")} ==>
            match Get(init, "count")
            case Ok(JInt(c)) => NextIdx(op) == c
            case Ok(JBool(b)) => NextIdx(op) == (if b then 1 else 0)
            case _ => exists items :: Iterate(Get(init, "freq").value) == Some(items) && NextIdx(op) == |items|)
  {
  }

  /** The gap between the two: with `{"model": "x", "count": 5}` the code
      as written raises `KeyError('freq')` where five equally likely
      alleles were meant, and `monomorphic` raises `AttributeError` where
      one allele was meant. */
  lemma CountIgnored(n: nat)
    ensures var init := JObject([("model", JString("x")), ("count", JInt(5))]);
      InitOperator(init, n) == Err(KeyError("freq")) && IntendedInitOperator(init, n) == Ok(ByCount(5))
    ensures var init := JObject([("model", JString("monomorphic"))]);
      InitOperator(init, n) == Err(AttributeError("get_init_genotype_by_count"))
      && IntendedInitOperator(init, n) == Ok(ByCount(1))
  {
    var init := JObject([("model", JString("x")), ("count", JInt(5))]);
    assert Lookup(init.fields, "model") == Some(JString("x"));
    assert Lookup(init.fields, "count") == Some(JInt(5));
    assert Lookup(init.fields, "freq") == None;
  }

  // ---------------------------------------------------------------------
  // Output (get_output_operator)

  /** `range(start, stop, step)` for a positive step. */
  function Range(start: int, stop: int, step: nat): (r: seq<int>)
    requires step > 0
    decreases stop - start
  {
    if start >= stop then [] else [start] + Range(start + step, stop, step)
  }

  /** The `i`-th value of `range(start, stop, step)` is `start + i*step`,
      and it lies below `stop`. */
  lemma {:induction false} RangeAt(start: int, stop: int, step: nat, i: nat)
    requires step > 0 && i < |Range(start, stop, step)|
    ensures Range(start, stop, step)[i] == start + i * step < stop
    decreases stop - start
  {
    if i > 0 {
      RangeAt(start + step, stop, step, i - 1);
      assert start + step + (i - 1) * step == start + i * step;
    }
  }

  /** Every `start + k*step` below `stop` is a value of the range. */
  lemma {:induction false} RangeHas(start: int, stop: int, step: nat, k: nat)
    requires step > 0 && start + k * step < stop
    ensures start + k * step in Range(start, stop, step)
    decreases stop - start
  {
    if k > 0 {
      assert start + step + (k - 1) * step == start + k * step;
      RangeHas(start + step, stop, step, k - 1);
    }
  }

  /** The generations the writer runs at: `burnin + i` for `i` in
      `range(0, ngen, output_per)` when `output_per > 0`; otherwise the
      writer has no schedule of its own and only writes as the final
      operator of the run. */
  function Snapshots(burnin: int, ngen: int, outputPer: int): (r: Option<seq<int>>)
  {
    if outputPer > 0 then
      var steps := Range(0, ngen, outputPer);
      Some(seq(|steps|, k requires 0 <= k < |steps| => steps[k] + burnin))
    else None
  }

  /** A snapshot is taken exactly at `burnin + k*output_per` for every
      `k >= 0` with `k*output_per < ngen`. */
  lemma SnapshotsAt(burnin: int, ngen: int, outputPer: int, g: int)
    requires outputPer > 0
    ensures g in Snapshots(burnin, ngen, outputPer).value <==>
      exists k: nat :: g == burnin + k * outputPer && k * outputPer < ngen
  {
    var steps := Range(0, ngen, outputPer);
    var r := Snapshots(burnin, ngen, outputPer).value;
    if g in r {
      var i :| 0 <= i < |r| && r[i] == g;
      RangeAt(0, ngen, outputPer, i);
    }
    if k: nat :| g == burnin + k * outputPer && k * outputPer < ngen {
      RangeHas(0, ngen, outputPer, k);
      var i :| 0 <= i < |steps| && steps[i] == g - burnin;
      assert r[i] == g;
    }
  }

  /** `write(pop)`: for each individual in order, one row per copy,
      copy 0 then copy 1, each `[rep, gen - burnin, idx, tag, copy]`
      followed by that copy's alleles. */
  method SnapshotRows(rep: int, gen: int, burnin: int, numLoci: nat, tags: seq<int>, g: Genotypes)
    returns (rows: seq<seq<int>>)
    requires WellShaped(g, numLoci) && |tags| == |g|
    ensures |rows| == 2 * |g|
    ensures forall idx, copy :: 0 <= idx < |g| && 0 <= copy < 2 ==>
      rows[2 * idx + copy] == [rep, gen - burnin, idx, tags[idx], copy] + g[idx][copy]
    ensures forall r :: 0 <= r < |rows| ==> |rows[r]| == 5 + numLoci
  {
    rows := [];
    var idx := 0;
    while idx < |g|
      invariant 0 <= idx <= |g| && |rows| == 2 * idx
      invariant forall j, copy :: 0 <= j < idx && 0 <= copy < 2 ==>
        rows[2 * j + copy] == [rep, gen - burnin, j, tags[j], copy] + g[j][copy]
      invariant forall r :: 0 <= r < |rows| ==> |rows[r]| == 5 + numLoci
    {
      var copy := 0;
      while copy < 2
        invariant 0 <= copy <= 2 && |rows| == 2 * idx + copy
        invariant forall j, c :: 0 <= j < idx && 0 <= c < 2 ==>
          rows[2 * j + c] == [rep, gen - burnin, j, tags[j], c] + g[j][c]
        invariant forall c :: 0 <= c < copy ==> rows[2 * idx + c] == [rep, gen - burnin, idx, tags[idx], c] + g[idx][c]
        invariant forall r :: 0 <= r < |rows| ==> |rows[r]| == 5 + numLoci
      {
        rows := rows + [[rep, gen - burnin, idx, tags[idx], copy] + g[idx][copy]];
        copy := copy + 1;
      }
      idx := idx + 1;
    }
  }
}
