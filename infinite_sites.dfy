/** The infinite-sites mutation model of partialSelfing.py.

    Every chromosome copy carries `numLoci * alleleLen` binary sites; locus
    `l` owns the sites `l*alleleLen .. (l+1)*alleleLen - 1`. For each
    replicate the mutator keeps one pool of free intra-locus slot indices
    per locus (a deque). A mutation takes the rightmost slot of its locus's
    pool and writes allele 1 at the corresponding site of one copy; when the
    pool is empty, `Reclaim` looks for sites of that locus that are
    monomorphic (allele 0 counted 0 or 2N times), resets them and refills
    the pool, and when there are none the run stops.

    The uniform draws of the random number generator are an input sequence;
    a mutation happens where the draw is below the locus's rate. */
module InfiniteSites {
  import opened Wrappers
  import Utility

  /** The alleles of one chromosome copy, site by site. */
  type Chromosome = seq<int>

  /** Per individual, its two chromosome copies (ploidy 0 and 1). */
  type Genotypes = seq<seq<Chromosome>>

  /** Every individual has two copies of `numSites` sites. */
  predicate WellShaped(g: Genotypes, numSites: nat) {
    forall i :: 0 <= i < |g| ==> |g[i]| == 2 && |g[i][0]| == numSites && |g[i][1]| == numSites
  }

  // ---------------------------------------------------------------------
  // Monomorphic sites (areAllelesMonomorphic)

  /** How many of the 2N copies carry allele 0 at `site`. */
  function ZeroCount(g: Genotypes, numSites: nat, site: nat): (c: nat)
    requires WellShaped(g, numSites) && site < numSites
    ensures c <= 2 * |g|
  {
    if |g| == 0 then 0
    else
      var last := g[|g| - 1];
      ZeroCount(g[..|g| - 1], numSites, site)
        + (if last[0][site] == 0 then 1 else 0)
        + (if last[1][site] == 0 then 1 else 0)
  }

  /** A site is monomorphic iff allele 0 is carried by no copy or by all 2N. */
  predicate IsMonomorphic(g: Genotypes, numSites: nat, site: nat)
    requires WellShaped(g, numSites) && site < numSites
  {
    var c := ZeroCount(g, numSites, site);
    c == 0 || c == 2 * |g|
  }

  /** `areAllelesMonomorphic(pop, range(start, start + len))`. */
  function MonoFlags(g: Genotypes, numSites: nat, start: nat, len: nat): (flags: seq<bool>)
    requires WellShaped(g, numSites) && start + len <= numSites
    ensures |flags| == len
  {
    seq(len, k requires 0 <= k < len => IsMonomorphic(g, numSites, start + k))
  }

  predicate StrictlyIncreasing(s: seq<nat>) {
    forall a, b :: 0 <= a < b < |s| ==> s[a] < s[b]
  }

  /** `[i for i, state in enumerate(flags) if state]`. */
  function TrueIndices(flags: seq<bool>): (r: seq<nat>)
  {
    if |flags| == 0 then []
    else
      var n := |flags| - 1;
      TrueIndices(flags[..n]) + (if flags[n] then [n] else [])
  }

  /** Intra-locus index `s` of locus `locus` is a monomorphic site. */
  predicate SlotMonomorphic(g: Genotypes, numLoci: nat, alleleLen: nat, locus: nat, s: nat)
    requires WellShaped(g, numLoci * alleleLen) && locus < numLoci && s < alleleLen
  {
    LocusFits(locus, numLoci, alleleLen);
    IsMonomorphic(g, numLoci * alleleLen, locus * alleleLen + s)
  }

  /** The intra-locus indices of the monomorphic sites of `locus`, ascending. */
  function MonomorphicSlots(g: Genotypes, numLoci: nat, alleleLen: nat, locus: nat): (r: seq<nat>)
    requires WellShaped(g, numLoci * alleleLen) && locus < numLoci
  {
    LocusFits(locus, numLoci, alleleLen);
    TrueIndices(MonoFlags(g, numLoci * alleleLen, locus * alleleLen, alleleLen))
  }

  // ---------------------------------------------------------------------
  // Genotype updates (setAllele)

  function WithAllele(g: Genotypes, i: nat, p: nat, site: nat, v: int): Genotypes
    requires i < |g| && p < |g[i]| && site < |g[i][p]|
  {
    g[i := g[i][p := g[i][p][site := v]]]
  }

  /** Allele 0 at every site listed. */
  function ResetChromosome(c: Chromosome, sites: seq<nat>): (r: Chromosome)
    ensures |r| == |c|
  {
    seq(|c|, s requires 0 <= s < |c| => if s in sites then 0 else c[s])
  }

  /** Allele 0 at every site listed, on both copies of every individual. */
  function ResetSites(g: Genotypes, numSites: nat, sites: seq<nat>): (r: Genotypes)
    requires WellShaped(g, numSites)
    ensures WellShaped(r, numSites) && |r| == |g|
  {
    seq(|g|, i requires 0 <= i < |g| => [ResetChromosome(g[i][0], sites), ResetChromosome(g[i][1], sites)])
  }

  // ---------------------------------------------------------------------
  // One mutation event

  /** Each pool holds distinct slot indices below `alleleLen`. */
  predicate PoolOk(pool: seq<nat>, alleleLen: nat) {
    (forall a, b :: 0 <= a < b < |pool| ==> pool[a] != pool[b])
    && (forall j :: 0 <= j < |pool| ==> pool[j] < alleleLen)
  }

  predicate PoolsOk(pools: seq<seq<nat>>, alleleLen: nat) {
    forall l :: 0 <= l < |pools| ==> PoolOk(pools[l], alleleLen)
  }

  /** The genotypes and this replicate's per-locus pools. */
  datatype SiteState = SiteState(geno: Genotypes, pools: seq<seq<nat>>)

  /** Why a run stops: `mu[locus]` does not exist (`IndexError`), no site of
      the locus could be reclaimed (`sys.exit`), or sites were reclaimed for
      a locus that has no pool (`IndexError` on assigning the new deque). */
  datatype Stop = NoRate | Exhausted | NoPool

  datatype Outcome =
    | Continue(st: SiteState)
    | Halt(st: SiteState, locus: nat, why: Stop)

  /** One (individual, locus, copy) mutation opportunity. */
  datatype Event = Event(ind: nat, locus: nat, copy: nat)

  predicate EventFits(e: Event, n: nat, numLoci: nat) {
    e.ind < n && e.locus < numLoci && e.copy < 2
  }

  /** The sites of locus `locus` lie inside the chromosome. */
  lemma LocusFits(locus: nat, numLoci: nat, alleleLen: nat)
    requires locus < numLoci
    ensures (locus + 1) * alleleLen <= numLoci * alleleLen
    ensures (locus + 1) * alleleLen == locus * alleleLen + alleleLen
  {
    assert numLoci * alleleLen == (locus + 1) * alleleLen + (numLoci - locus - 1) * alleleLen;
  }

  /** Reclaim as a value: `None` when no site of the locus is monomorphic,
      otherwise the reset genotypes and the new pool. The reset writes at
      the intra-locus index itself, not at `locus * alleleLen + index`. */
  function ReclaimSites(g: Genotypes, numLoci: nat, alleleLen: nat, locus: nat): (r: Option<(Genotypes, seq<nat>)>)
    requires WellShaped(g, numLoci * alleleLen) && locus < numLoci
    ensures r.Some? ==> WellShaped(r.value.0, numLoci * alleleLen) && |r.value.0| == |g|
    ensures r.Some? ==> r.value.1 != [] && PoolOk(r.value.1, alleleLen)
  {
    var slots := MonomorphicSlots(g, numLoci, alleleLen, locus);
    MonomorphicSlotsSpec(g, numLoci, alleleLen, locus);
    if slots == [] then None else Some((ResetSites(g, numLoci * alleleLen, slots), slots))
  }

  /** Allele 1 at slot `slot` of the event's locus, on the event's copy. */
  function Mark(g: Genotypes, numLoci: nat, alleleLen: nat, e: Event, slot: nat): (r: Genotypes)
    requires WellShaped(g, numLoci * alleleLen) && EventFits(e, |g|, numLoci) && slot < alleleLen
    ensures WellShaped(r, numLoci * alleleLen) && |r| == |g|
  {
    LocusFits(e.locus, numLoci, alleleLen);
    WithAllele(g, e.ind, e.copy, e.locus * alleleLen + slot, 1)
  }

  /** The pool without its rightmost slot (`deque.pop()`). */
  function PopRight(pool: seq<nat>): (r: seq<nat>)
    requires |pool| > 0
    ensures r + [pool[|pool| - 1]] == pool
  {
    pool[..|pool| - 1]
  }

  lemma PoolsUpdate(pools: seq<seq<nat>>, l: nat, pool: seq<nat>, alleleLen: nat)
    requires PoolsOk(pools, alleleLen) && PoolOk(pool, alleleLen) && l < |pools|
    ensures PoolsOk(pools[l := pool], alleleLen)
  {
  }

  lemma PopKeepsPool(pool: seq<nat>, alleleLen: nat)
    requires |pool| > 0 && PoolOk(pool, alleleLen)
    ensures PoolOk(PopRight(pool), alleleLen)
    ensures pool[|pool| - 1] !in PopRight(pool)
  {
  }

  /** The effect of one event: `u` is the uniform draw, compared with the
      locus's rate `mu[locus]`. */
  function Step(st: SiteState, mu: seq<real>, numLoci: nat, alleleLen: nat, e: Event, u: real): (o: Outcome)
    requires WellShaped(st.geno, numLoci * alleleLen) && PoolsOk(st.pools, alleleLen)
    requires EventFits(e, |st.geno|, numLoci)
    ensures WellShaped(o.st.geno, numLoci * alleleLen) && |o.st.geno| == |st.geno|
    ensures PoolsOk(o.st.pools, alleleLen) && |o.st.pools| == |st.pools|
    ensures o.Halt? ==> o.locus == e.locus
  {
    if e.locus >= |mu| then Halt(st, e.locus, NoRate)
    else if !(u < mu[e.locus]) then Continue(st)
    else Mutation(st, numLoci, alleleLen, e)
  }

  /** A mutation at the event's copy and locus: the rightmost free slot of
      the locus's pool, after reclaiming when the pool is empty or missing. */
  function Mutation(st: SiteState, numLoci: nat, alleleLen: nat, e: Event): (o: Outcome)
    requires WellShaped(st.geno, numLoci * alleleLen) && PoolsOk(st.pools, alleleLen)
    requires EventFits(e, |st.geno|, numLoci)
    ensures WellShaped(o.st.geno, numLoci * alleleLen) && |o.st.geno| == |st.geno|
    ensures PoolsOk(o.st.pools, alleleLen) && |o.st.pools| == |st.pools|
    ensures o.Halt? ==> o.locus == e.locus
  {
    if e.locus < |st.pools| && |st.pools[e.locus]| > 0 then
      var pool := st.pools[e.locus];
      PopKeepsPool(pool, alleleLen);
      PoolsUpdate(st.pools, e.locus, PopRight(pool), alleleLen);
      Continue(SiteState(Mark(st.geno, numLoci, alleleLen, e, pool[|pool| - 1]),
                         st.pools[e.locus := PopRight(pool)]))
    else
      match ReclaimSites(st.geno, numLoci, alleleLen, e.locus)
      case None => Halt(st, e.locus, Exhausted)
      case Some((g1, slots)) =>
        if e.locus >= |st.pools| then Halt(SiteState(g1, st.pools), e.locus, NoPool)
        else
          PopKeepsPool(slots, alleleLen);
          PoolsUpdate(st.pools, e.locus, PopRight(slots), alleleLen);
          Continue(SiteState(Mark(g1, numLoci, alleleLen, e, slots[|slots| - 1]),
                             st.pools[e.locus := PopRight(slots)]))
  }

  // ---------------------------------------------------------------------
  // The order of events within one call of `mutate`

  /** The copies 0 and 1 of loci `0 .. l-1` of individual `i`, in order. */
  function LocusEvents(i: nat, l: nat): (r: seq<Event>)
    ensures |r| == 2 * l
  {
    if l == 0 then [] else LocusEvents(i, l - 1) + [Event(i, l - 1, 0), Event(i, l - 1, 1)]
  }

  /** The events of individuals `0 .. n-1`: individual, then locus, then copy. */
  function AllEvents(n: nat, numLoci: nat): (r: seq<Event>)
    ensures forall k :: 0 <= k < |r| ==> EventFits(r[k], n, numLoci)
  {
    if n == 0 then []
    else
      LocusEventsFit(n - 1, numLoci);
      AllEvents(n - 1, numLoci) + LocusEvents(n - 1, numLoci)
  }

  /** The `2 * numLoci` events of individual `i` start at index `k` of
      `all`: locus by locus, copy 0 then copy 1. */
  ghost predicate IndividualAt(all: seq<Event>, k: nat, i: nat, numLoci: nat) {
    && k + 2 * numLoci <= |all|
    && forall j :: k <= j < k + 2 * numLoci ==> all[j] == Event(i, (j - k) / 2, (j - k) % 2)
  }

  predicate LexLess(a: Event, b: Event) {
    a.ind < b.ind || (a.ind == b.ind && (a.locus < b.locus || (a.locus == b.locus && a.copy < b.copy)))
  }

  predicate Sorted(es: seq<Event>) {
    forall a, b :: 0 <= a < b < |es| ==> LexLess(es[a], es[b])
  }

  /** The result of the first `k` events in order, stopping at the first
      halt. */
  function RunFirst(st: SiteState, mu: seq<real>, numLoci: nat, alleleLen: nat, events: seq<Event>, us: seq<real>, k: nat): (o: Outcome)
    requires k <= |events| == |us|
    requires WellShaped(st.geno, numLoci * alleleLen) && PoolsOk(st.pools, alleleLen)
    requires forall j :: 0 <= j < |events| ==> EventFits(events[j], |st.geno|, numLoci)
    ensures WellShaped(o.st.geno, numLoci * alleleLen) && |o.st.geno| == |st.geno|
    ensures PoolsOk(o.st.pools, alleleLen) && |o.st.pools| == |st.pools|
  {
    if k == 0 then Continue(st)
    else
      var prev := RunFirst(st, mu, numLoci, alleleLen, events, us, k - 1);
      if prev.Halt? then prev else Step(prev.st, mu, numLoci, alleleLen, events[k - 1], us[k - 1])
  }

  /** The result of all the events in order, each with its draw. */
  function Run(st: SiteState, mu: seq<real>, numLoci: nat, alleleLen: nat, events: seq<Event>, us: seq<real>): (o: Outcome)
    requires |events| == |us|
    requires WellShaped(st.geno, numLoci * alleleLen) && PoolsOk(st.pools, alleleLen)
    requires forall j :: 0 <= j < |events| ==> EventFits(events[j], |st.geno|, numLoci)
    ensures WellShaped(o.st.geno, numLoci * alleleLen) && |o.st.geno| == |st.geno|
    ensures PoolsOk(o.st.pools, alleleLen) && |o.st.pools| == |st.pools|
  {
    RunFirst(st, mu, numLoci, alleleLen, events, us, |events|)
  }

  // ---------------------------------------------------------------------
  // The mutator object

  /** The simulated population: its replicate number and its genotypes. */
  class Population {
    const rep: nat
    var geno: Genotypes

    constructor (rep: nat, geno: Genotypes)
      ensures this.rep == rep && this.geno == geno
    {
      this.rep := rep;
      this.geno := geno;
    }

    /** `ind.setAllele(v, site, ploidy=p)` on individual `i`. */
    method SetAllele(v: int, i: nat, site: nat, p: nat)
      requires i < |geno| && p < |geno[i]| && site < |geno[i][p]|
      modifies this
      ensures geno == WithAllele(old(geno), i, p, site, v)
    {
      geno := geno[i := geno[i][p := geno[i][p][site := v]]];
    }
  }

  datatype ReclaimResult = Reclaimed | NothingMonomorphic | PoolMissing

  datatype Status = Completed | Stopped(locus: nat, why: Stop)

  class InfSiteMutator {
    const mu: seq<real>
    const numLoci: nat
    const alleleLen: nat
    /** Per replicate, one deque of free slot indices per locus. */
    var available: seq<seq<seq<nat>>>

    ghost predicate Valid()
      reads this
    {
      forall r :: 0 <= r < |available| ==> PoolsOk(available[r], alleleLen)
    }

    /** Every replicate starts with exactly two pools (whatever `numLoci`
        is), each holding `0 .. alleleLen-1` in ascending order. */
    constructor (mu: seq<real>, numLoci: nat, alleleLen: nat, reps: nat)
      ensures Valid()
      ensures this.mu == mu && this.numLoci == numLoci && this.alleleLen == alleleLen
      ensures |available| == reps
      ensures forall r :: 0 <= r < reps ==> |available[r]| == 2
      ensures forall r, l :: 0 <= r < reps && 0 <= l < 2 ==> available[r][l] == Slots(alleleLen)
    {
      this.mu := mu;
      this.numLoci := numLoci;
      this.alleleLen := alleleLen;
      available := seq(reps, r => [Slots(alleleLen), Slots(alleleLen)]);
    }

    /** `reclaim`: on success the locus's pool becomes the ascending list
        of its monomorphic slots, each reset to allele 0 (at the intra-locus
        index) on both copies of every individual. */
    method Reclaim(pop: Population, locus: nat) returns (result: ReclaimResult)
      requires Valid() && pop.rep < |available|
      requires WellShaped(pop.geno, numLoci * alleleLen) && locus < numLoci
      modifies this, pop
      ensures Valid() && |available| == old(|available|)
      ensures var r := ReclaimSites(old(pop.geno), numLoci, alleleLen, locus);
        && (result == NothingMonomorphic <==> r.None?)
        && (r.None? ==> pop.geno == old(pop.geno) && available == old(available))
        && (r.Some? ==> pop.geno == r.value.0)
        && (r.Some? && locus < |old(available[pop.rep])| ==>
              result == Reclaimed && available == old(available)[pop.rep := old(available[pop.rep])[locus := r.value.1]])
        && (r.Some? && locus >= |old(available[pop.rep])| ==> result == PoolMissing && available == old(available))
    {
      var numSites := numLoci * alleleLen;
      LocusFits(locus, numLoci, alleleLen);
      var flags := MonoFlags(pop.geno, numSites, locus * alleleLen, alleleLen);
      var slots := TrueIndices(flags);
      MonomorphicSlotsSpec(pop.geno, numLoci, alleleLen, locus);
      if slots == [] {
        return NothingMonomorphic;
      }
      ghost var g0 := pop.geno;
      var i := 0;
      while i < |pop.geno|
        invariant 0 <= i <= |pop.geno| == |g0|
        invariant available == old(available)
        invariant WellShaped(pop.geno, numSites)
        invariant forall j :: 0 <= j < i ==> pop.geno[j] == [ResetChromosome(g0[j][0], slots), ResetChromosome(g0[j][1], slots)]
        invariant forall j :: i <= j < |g0| ==> pop.geno[j] == g0[j]
      {
        ghost var before := pop.geno;
        assert slots[..0] == [];
        assert ResetChromosome(g0[i][0], []) == g0[i][0];
        assert ResetChromosome(g0[i][1], []) == g0[i][1];
        var s := 0;
        while s < |slots|
          invariant 0 <= s <= |slots|
          invariant available == old(available)
          invariant WellShaped(pop.geno, numSites) && |pop.geno| == |g0|
          invariant pop.geno[i] == [ResetChromosome(g0[i][0], slots[..s]), ResetChromosome(g0[i][1], slots[..s])]
          invariant forall j :: 0 <= j < |g0| && j != i ==> pop.geno[j] == before[j]
        {
          pop.SetAllele(0, i, slots[s], 0);
          pop.SetAllele(0, i, slots[s], 1);
          ResetOneMore(g0[i][0], slots, s);
          ResetOneMore(g0[i][1], slots, s);
          s := s + 1;
        }
        assert slots[..|slots|] == slots;
        i := i + 1;
      }
      assert pop.geno == ResetSites(g0, numSites, slots);
      if locus >= |available[pop.rep]| {
        return PoolMissing;
      }
      available := available[pop.rep := available[pop.rep][locus := slots]];
      return Reclaimed;
    }

    /** One mutation opportunity of `mutate`: with draw `u`, copy `ploidy`
        of locus `locus` of individual `i` mutates when `u < mu[locus]`,
        taking the rightmost free slot of the locus, reclaiming first when
        the pool is empty or missing. */
    method MutateCopy(pop: Population, i: nat, locus: nat, ploidy: nat, u: real) returns (stop: Option<Stop>)
      requires Valid() && pop.rep < |available|
      requires WellShaped(pop.geno, numLoci * alleleLen)
      requires EventFits(Event(i, locus, ploidy), |pop.geno|, numLoci)
      modifies this, pop
      ensures Valid() && |available| == old(|available|)
      ensures var o := Step(SiteState(old(pop.geno), old(available[pop.rep])), mu, numLoci, alleleLen, Event(i, locus, ploidy), u);
        && pop.geno == o.st.geno
        && available == old(available)[pop.rep := o.st.pools]
        && (stop.None? <==> o.Continue?)
        && (o.Halt? ==> stop == Some(o.why))
    {
      if locus >= |mu| {
        return Some(NoRate);
      }
      if !(u < mu[locus]) {
        return None;
      }
      stop := MutateSlot(pop, i, locus, ploidy);
    }

    /** The mutation itself, once the draw has fallen below the rate. */
    method MutateSlot(pop: Population, i: nat, locus: nat, ploidy: nat) returns (stop: Option<Stop>)
      requires Valid() && pop.rep < |available|
      requires WellShaped(pop.geno, numLoci * alleleLen)
      requires EventFits(Event(i, locus, ploidy), |pop.geno|, numLoci)
      modifies this, pop
      ensures Valid() && |available| == old(|available|)
      ensures var o := Mutation(SiteState(old(pop.geno), old(available[pop.rep])), numLoci, alleleLen, Event(i, locus, ploidy));
        && pop.geno == o.st.geno
        && available == old(available)[pop.rep := o.st.pools]
        && (stop.None? <==> o.Continue?)
        && (o.Halt? ==> stop == Some(o.why))
    {
      if locus < |available[pop.rep]| && |available[pop.rep][locus]| > 0 {
        TakeSlot(pop, i, locus, ploidy);
        return None;
      }
      stop := ReclaimAndTake(pop, i, locus, ploidy);
    }

    /** An empty or missing pool: reclaim, then take the rightmost
        reclaimed slot. */
    method ReclaimAndTake(pop: Population, i: nat, locus: nat, ploidy: nat) returns (stop: Option<Stop>)
      requires Valid() && pop.rep < |available|
      requires WellShaped(pop.geno, numLoci * alleleLen)
      requires EventFits(Event(i, locus, ploidy), |pop.geno|, numLoci)
      requires locus >= |available[pop.rep]| || |available[pop.rep][locus]| == 0
      modifies this, pop
      ensures Valid() && |available| == old(|available|)
      ensures var o := Mutation(SiteState(old(pop.geno), old(available[pop.rep])), numLoci, alleleLen, Event(i, locus, ploidy));
        && pop.geno == o.st.geno
        && available == old(available)[pop.rep := o.st.pools]
        && (stop.None? <==> o.Continue?)
        && (o.Halt? ==> stop == Some(o.why))
    {
      ghost var st := SiteState(pop.geno, available[pop.rep]);
      ghost var e := Event(i, locus, ploidy);
      ghost var r := ReclaimSites(st.geno, numLoci, alleleLen, locus);
      MutationReclaim(st, numLoci, alleleLen, e);
      var result := Reclaim(pop, locus);
      if result == NothingMonomorphic {
        return Some(Exhausted);
      } else if result == PoolMissing {
        assert pop.geno == r.value.0;
        return Some(NoPool);
      }
      assert r.Some? && locus < |st.pools|;
      assert available[pop.rep][locus] == r.value.1;
      ghost var mid := available;
      TakeSlot(pop, i, locus, ploidy);
      assert available == mid[pop.rep := mid[pop.rep][locus := PopRight(r.value.1)]];
      assert mid[pop.rep][locus := PopRight(r.value.1)] == st.pools[locus := PopRight(r.value.1)];
      assert pop.geno == Mark(r.value.0, numLoci, alleleLen, e, r.value.1[|r.value.1| - 1]);
      return None;
    }

    /** The `pop()` of the locus's rightmost free slot and the mutation
        written at that slot. */
    method TakeSlot(pop: Population, i: nat, locus: nat, ploidy: nat)
      requires Valid() && pop.rep < |available|
      requires WellShaped(pop.geno, numLoci * alleleLen)
      requires EventFits(Event(i, locus, ploidy), |pop.geno|, numLoci)
      requires locus < |available[pop.rep]| && |available[pop.rep][locus]| > 0
      modifies this, pop
      ensures Valid() && |available| == old(|available|)
      ensures var pool := old(available[pop.rep][locus]);
        && pop.geno == Mark(old(pop.geno), numLoci, alleleLen, Event(i, locus, ploidy), pool[|pool| - 1])
        && available == old(available)[pop.rep := old(available[pop.rep])[locus := PopRight(pool)]]
    {
      LocusFits(locus, numLoci, alleleLen);
      var rep := pop.rep;
      var pool := available[rep][locus];
      var idx := pool[|pool| - 1];
      PopKeepsPool(pool, alleleLen);
      PoolsUpdate(available[rep], locus, PopRight(pool), alleleLen);
      available := available[rep := available[rep][locus := PopRight(pool)]];
      pop.SetAllele(1, i, locus * alleleLen + idx, ploidy);
    }

    /** Only replicate `rep`'s pools differ from `prev`. */
    ghost predicate OthersAs(prev: seq<seq<seq<nat>>>, rep: nat)
      reads this
    {
      && |available| == |prev|
      && forall r :: 0 <= r < |prev| && r != rep ==> available[r] == prev[r]
    }

    /** What the run of the first `k` events of `all` from `st0` needs. */
    ghost predicate Sweep(st0: SiteState, all: seq<Event>, draws: seq<real>) {
      && WellShaped(st0.geno, numLoci * alleleLen) && PoolsOk(st0.pools, alleleLen)
      && |all| == |draws|
      && (forall j :: 0 <= j < |all| ==> EventFits(all[j], |st0.geno|, numLoci))
    }

    /** Event `k` of the sweep, with its draw. */
    method MutateNext(pop: Population, ghost st0: SiteState, ghost all: seq<Event>, draws: seq<real>, k: nat,
                      i: nat, locus: nat, ploidy: nat) returns (status: Status)
      requires Valid() && pop.rep < |available| && Sweep(st0, all, draws) && k < |all|
      requires all[k] == Event(i, locus, ploidy)
      requires RunFirst(st0, mu, numLoci, alleleLen, all, draws, k) == Continue(SiteState(pop.geno, available[pop.rep]))
      modifies this, pop
      ensures Valid() && OthersAs(old(available), pop.rep)
      ensures RunFirst(st0, mu, numLoci, alleleLen, all, draws, k + 1) == Observed(status, SiteState(pop.geno, available[pop.rep]))
    {
      var stop := MutateCopy(pop, i, locus, ploidy, draws[k]);
      status := if stop.None? then Completed else Stopped(locus, stop.value);
    }

    /** The `for ploidy in range(2)` loop for one locus of one individual. */
    method MutateLocus(pop: Population, ghost st0: SiteState, ghost all: seq<Event>, draws: seq<real>, k: nat,
                       i: nat, locus: nat) returns (status: Status, m: nat)
      requires Valid() && pop.rep < |available| && Sweep(st0, all, draws) && k + 2 <= |all|
      requires all[k] == Event(i, locus, 0) && all[k + 1] == Event(i, locus, 1)
      requires RunFirst(st0, mu, numLoci, alleleLen, all, draws, k) == Continue(SiteState(pop.geno, available[pop.rep]))
      modifies this, pop
      ensures Valid() && OthersAs(old(available), pop.rep)
      ensures m <= |all| && (status == Completed ==> m == k + 2)
      ensures RunFirst(st0, mu, numLoci, alleleLen, all, draws, m) == Observed(status, SiteState(pop.geno, available[pop.rep]))
    {
      var ploidy := 0;
      var next := k;
      while ploidy < 2
        invariant 0 <= ploidy <= 2 && next == k + ploidy
        invariant Valid() && OthersAs(old(available), pop.rep)
        invariant next <= |all|
        invariant RunFirst(st0, mu, numLoci, alleleLen, all, draws, next) == Continue(SiteState(pop.geno, available[pop.rep]))
      {
        status := MutateNext(pop, st0, all, draws, next, i, locus, ploidy);
        next := next + 1;
        if status != Completed {
          return status, next;
        }
        ploidy := ploidy + 1;
      }
      return Completed, next;
    }

    /** The `for locus in range(num_loci)` loop for one individual. */
    method MutateIndividual(pop: Population, ghost st0: SiteState, ghost all: seq<Event>, draws: seq<real>, k: nat,
                            i: nat) returns (status: Status, m: nat)
      requires Valid() && pop.rep < |available| && Sweep(st0, all, draws) && IndividualAt(all, k, i, numLoci)
      requires RunFirst(st0, mu, numLoci, alleleLen, all, draws, k) == Continue(SiteState(pop.geno, available[pop.rep]))
      modifies this, pop
      ensures Valid() && OthersAs(old(available), pop.rep)
      ensures m <= |all| && (status == Completed ==> m == k + 2 * numLoci)
      ensures RunFirst(st0, mu, numLoci, alleleLen, all, draws, m) == Observed(status, SiteState(pop.geno, available[pop.rep]))
    {
      var locus := 0;
      var next := k;
      while locus < numLoci
        invariant 0 <= locus <= numLoci
        invariant next == k + 2 * locus
        invariant Valid() && OthersAs(old(available), pop.rep)
        invariant next <= |all|
        invariant RunFirst(st0, mu, numLoci, alleleLen, all, draws, next) == Continue(SiteState(pop.geno, available[pop.rep]))
      {
        Halves(locus);
        status, next := MutateLocus(pop, st0, all, draws, next, i, locus);
        if status != Completed {
          return status, next;
        }
        locus := locus + 1;
      }
      return Completed, next;
    }

    /** `mutate(pop)`: every individual in order, every locus in order, copy
        0 then copy 1, each consuming the next draw; the run stops at the
        first event that halts (`sys.exit` or an uncaught `IndexError`). */
    method Mutate(pop: Population, draws: seq<real>) returns (status: Status)
      requires Valid() && pop.rep < |available|
      requires WellShaped(pop.geno, numLoci * alleleLen)
      requires |draws| == |AllEvents(|pop.geno|, numLoci)|
      modifies this, pop
      ensures Valid() && OthersAs(old(available), pop.rep)
      ensures Run(SiteState(old(pop.geno), old(available[pop.rep])), mu, numLoci, alleleLen,
                  AllEvents(|old(pop.geno)|, numLoci), draws)
              == Observed(status, SiteState(pop.geno, available[pop.rep]))
    {
      ghost var st0 := SiteState(pop.geno, available[pop.rep]);
      ghost var all := AllEvents(|pop.geno|, numLoci);
      var m;
      status, m := MutateAll(pop, st0, all, draws);
      if status != Completed {
        RunHaltSticks(st0, mu, numLoci, alleleLen, all, draws, m, |all|);
      }
    }

    /** The `for ind in pop.individuals()` loop. */
    method MutateAll(pop: Population, ghost st0: SiteState, ghost all: seq<Event>, draws: seq<real>) returns (status: Status, m: nat)
      requires Valid() && pop.rep < |available| && Sweep(st0, all, draws)
      requires all == AllEvents(|st0.geno|, numLoci) && |pop.geno| == |st0.geno|
      requires RunFirst(st0, mu, numLoci, alleleLen, all, draws, 0) == Continue(SiteState(pop.geno, available[pop.rep]))
      modifies this, pop
      ensures Valid() && OthersAs(old(available), pop.rep)
      ensures m <= |all| && (status == Completed ==> m == |all|)
      ensures RunFirst(st0, mu, numLoci, alleleLen, all, draws, m) == Observed(status, SiteState(pop.geno, available[pop.rep]))
    {
      var n := |pop.geno|;
      m := 0;
      ghost var prev := available;
      for i := 0 to n
        invariant n == |st0.geno|
        invariant m == |AllEvents(i, numLoci)| && m <= |all|
        invariant Valid() && OthersAs(prev, pop.rep)
        invariant RunFirst(st0, mu, numLoci, alleleLen, all, draws, m) == Continue(SiteState(pop.geno, available[pop.rep]))
      {
        IndividualEvents(i, n, numLoci);
        status, m := MutateIndividual(pop, st0, all, draws, m, i);
        if status != Completed {
          return;
        }
      }
      status := Completed;
    }
  }

  /** What a stopped or completed sweep leaves, as an outcome. */
  function Observed(status: Status, st: SiteState): Outcome {
    match status
    case Completed => Continue(st)
    case Stopped(locus, why) => Halt(st, locus, why)
  }

  /** `deque(range(alleleLen))`. */
  function Slots(alleleLen: nat): (r: seq<nat>)
    ensures |r| == alleleLen && PoolOk(r, alleleLen)
    ensures forall k :: 0 <= k < alleleLen ==> r[k] == k
  {
    seq(alleleLen, k requires 0 <= k < alleleLen => k)
  }

  lemma ResetOneMore(c: Chromosome, slots: seq<nat>, s: nat)
    requires s < |slots| && slots[s] < |c|
    ensures ResetChromosome(c, slots[..s + 1]) == ResetChromosome(c, slots[..s])[slots[s] := 0]
  {
    assert slots[..s + 1] == slots[..s] + [slots[s]];
  }

  lemma {:induction false} AllEventsPrefix(i: nat, n: nat, numLoci: nat)
    requires i <= n
    ensures AllEvents(i, numLoci) <= AllEvents(n, numLoci)
    decreases n - i
  {
    if i < n {
      AllEventsPrefix(i, n - 1, numLoci);
    }
  }

  /** Once a run has halted, later events change nothing. */
  lemma {:induction false} RunHaltSticks(st: SiteState, mu: seq<real>, numLoci: nat, alleleLen: nat, events: seq<Event>, us: seq<real>, m: nat, k: nat)
    requires m <= k <= |events| == |us|
    requires WellShaped(st.geno, numLoci * alleleLen) && PoolsOk(st.pools, alleleLen)
    requires forall j :: 0 <= j < |events| ==> EventFits(events[j], |st.geno|, numLoci)
    requires RunFirst(st, mu, numLoci, alleleLen, events, us, m).Halt?
    ensures RunFirst(st, mu, numLoci, alleleLen, events, us, k) == RunFirst(st, mu, numLoci, alleleLen, events, us, m)
    decreases k - m
  {
    if k > m {
      HaltedStays(st, mu, numLoci, alleleLen, events, us, m + 1);
      RunHaltSticks(st, mu, numLoci, alleleLen, events, us, m + 1, k);
    }
  }

  lemma HaltedStays(st: SiteState, mu: seq<real>, numLoci: nat, alleleLen: nat, events: seq<Event>, us: seq<real>, k: nat)
    requires 0 < k <= |events| == |us|
    requires WellShaped(st.geno, numLoci * alleleLen) && PoolsOk(st.pools, alleleLen)
    requires forall j :: 0 <= j < |events| ==> EventFits(events[j], |st.geno|, numLoci)
    requires RunFirst(st, mu, numLoci, alleleLen, events, us, k - 1).Halt?
    ensures RunFirst(st, mu, numLoci, alleleLen, events, us, k) == RunFirst(st, mu, numLoci, alleleLen, events, us, k - 1)
  {
  }

  /** `Mutation` when the pool is empty or missing. */
  lemma MutationReclaim(st: SiteState, numLoci: nat, alleleLen: nat, e: Event)
    requires WellShaped(st.geno, numLoci * alleleLen) && PoolsOk(st.pools, alleleLen)
    requires EventFits(e, |st.geno|, numLoci)
    requires e.locus >= |st.pools| || |st.pools[e.locus]| == 0
    ensures var o := Mutation(st, numLoci, alleleLen, e);
      var r := ReclaimSites(st.geno, numLoci, alleleLen, e.locus);
      && (r.None? ==> o == Halt(st, e.locus, Exhausted))
      && (r.Some? && e.locus >= |st.pools| ==> o == Halt(SiteState(r.value.0, st.pools), e.locus, NoPool))
      && (r.Some? && e.locus < |st.pools| ==>
            o == Continue(SiteState(Mark(r.value.0, numLoci, alleleLen, e, r.value.1[|r.value.1| - 1]),
                                    st.pools[e.locus := PopRight(r.value.1)])))
  {
  }

  /** Every index listed is a flagged position. */
  lemma {:induction false} TrueIndicesSound(flags: seq<bool>)
    ensures var r := TrueIndices(flags);
      |r| <= |flags| && forall j :: 0 <= j < |r| ==> r[j] < |flags| && flags[r[j]]
  {
    if |flags| > 0 {
      var n := |flags| - 1;
      var front := flags[..n];
      TrueIndicesSound(front);
      var prev := TrueIndices(front);
      var r := TrueIndices(flags);
      forall j | 0 <= j < |r|
        ensures r[j] < |flags| && flags[r[j]]
      {
        if j < |prev| {
          assert r[j] == prev[j] && front[prev[j]] == flags[prev[j]];
        }
      }
    }
  }

  /** The indices are listed in ascending order. */
  lemma {:induction false} TrueIndicesSorted(flags: seq<bool>)
    ensures StrictlyIncreasing(TrueIndices(flags))
  {
    if |flags| > 0 {
      var n := |flags| - 1;
      var front := flags[..n];
      TrueIndicesSorted(front);
      TrueIndicesSound(front);
      var prev := TrueIndices(front);
      var r := TrueIndices(flags);
      forall a, b | 0 <= a < b < |r|
        ensures r[a] < r[b]
      {
        assert r[a] == prev[a];
        if b < |prev| {
          assert r[b] == prev[b];
        }
      }
    }
  }

  /** Every flagged position is listed. */
  lemma {:induction false} TrueIndicesComplete(flags: seq<bool>)
    ensures forall k :: 0 <= k < |flags| && flags[k] ==> k in TrueIndices(flags)
  {
    if |flags| > 0 {
      var n := |flags| - 1;
      var front := flags[..n];
      TrueIndicesComplete(front);
      var prev := TrueIndices(front);
      var r := TrueIndices(flags);
      assert r == prev + (if flags[n] then [n] else []);
      forall k | 0 <= k < |flags| && flags[k]
        ensures k in r
      {
        if k < n {
          assert front[k];
        }
      }
    }
  }

  /** `reclaim`'s new pool lists, in ascending order, exactly the
      intra-locus indices whose site is monomorphic. */
  lemma MonomorphicSlotsSpec(g: Genotypes, numLoci: nat, alleleLen: nat, locus: nat)
    requires WellShaped(g, numLoci * alleleLen) && locus < numLoci
    ensures var r := MonomorphicSlots(g, numLoci, alleleLen, locus);
      && StrictlyIncreasing(r) && PoolOk(r, alleleLen)
      && (forall s: nat :: s in r <==> s < alleleLen && SlotMonomorphic(g, numLoci, alleleLen, locus, s))
  {
    LocusFits(locus, numLoci, alleleLen);
    var flags := MonoFlags(g, numLoci * alleleLen, locus * alleleLen, alleleLen);
    TrueIndicesSound(flags);
    TrueIndicesSorted(flags);
    TrueIndicesComplete(flags);
  }

  /** The events of one individual name that individual, its loci and
      its two copies. */
  lemma {:induction false} LocusEventsFit(i: nat, l: nat)
    ensures forall k :: 0 <= k < |LocusEvents(i, l)| ==>
      var e := LocusEvents(i, l)[k]; e.ind == i && e.locus < l && e.copy < 2
  {
    if l > 0 {
      LocusEventsFit(i, l - 1);
      var prev := LocusEvents(i, l - 1);
      assert LocusEvents(i, l) == prev + [Event(i, l - 1, 0), Event(i, l - 1, 1)];
    }
  }

  /** A sweep draws exactly once per copy, per locus, per individual. */
  lemma {:induction false} AllEventsLength(n: nat, numLoci: nat)
    ensures |AllEvents(n, numLoci)| == 2 * numLoci * n
  {
    if n > 0 {
      AllEventsLength(n - 1, numLoci);
      assert 2 * numLoci * n == 2 * numLoci * (n - 1) + 2 * numLoci;
    }
  }

  lemma AllEventsNext(i: nat, numLoci: nat)
    ensures |AllEvents(i + 1, numLoci)| == |AllEvents(i, numLoci)| + 2 * numLoci
  {
  }

  lemma Halves(l: nat)
    ensures (2 * l) / 2 == l && (2 * l) % 2 == 0
    ensures (2 * l + 1) / 2 == l && (2 * l + 1) % 2 == 1
  {
  }

  /** Event `j` of one individual's events is copy `j % 2` of locus `j / 2`. */
  lemma {:induction false} LocusEventsAt(i: nat, l: nat)
    ensures forall j :: 0 <= j < 2 * l ==> LocusEvents(i, l)[j] == Event(i, j / 2, j % 2)
  {
    if l > 0 {
      LocusEventsAt(i, l - 1);
      Halves(l - 1);
      var prev := LocusEvents(i, l - 1);
      assert LocusEvents(i, l) == prev + [Event(i, l - 1, 0), Event(i, l - 1, 1)];
    }
  }

  /** In a sweep over `n` individuals, the events of individual `i` come
      after those of individuals `0 .. i-1`, in locus and copy order. */
  lemma IndividualEvents(i: nat, n: nat, numLoci: nat)
    requires i < n
    ensures IndividualAt(AllEvents(n, numLoci), |AllEvents(i, numLoci)|, i, numLoci)
    ensures |AllEvents(i + 1, numLoci)| == |AllEvents(i, numLoci)| + 2 * numLoci
  {
    var a := AllEvents(i, numLoci);
    var b := LocusEvents(i, numLoci);
    assert AllEvents(i + 1, numLoci) == a + b;
    AllEventsPrefix(i + 1, n, numLoci);
    LocusEventsAt(i, numLoci);
    var all := AllEvents(n, numLoci);
    forall j | |a| <= j < |a| + 2 * numLoci
      ensures all[j] == Event(i, (j - |a|) / 2, (j - |a|) % 2)
    {
      assert all[j] == (a + b)[j] == b[j - |a|];
    }
  }

  /** Every (individual, locus, copy) opportunity of a sweep occurs in it. */
  lemma AllEventsComplete(n: nat, numLoci: nat, e: Event)
    requires EventFits(e, n, numLoci)
    ensures e in AllEvents(n, numLoci)
  {
    IndividualEvents(e.ind, n, numLoci);
    Halves(e.locus);
    var j := |AllEvents(e.ind, numLoci)| + 2 * e.locus + e.copy;
    assert AllEvents(n, numLoci)[j] == e;
  }

  /** One individual's events are in (locus, copy) order. */
  lemma {:induction false} LocusEventsSorted(i: nat, l: nat)
    ensures Sorted(LocusEvents(i, l))
  {
    if l > 0 {
      LocusEventsSorted(i, l - 1);
      LocusEventsFit(i, l - 1);
      var prev := LocusEvents(i, l - 1);
      var r := LocusEvents(i, l);
      assert r == prev + [Event(i, l - 1, 0), Event(i, l - 1, 1)];
      forall a, b | 0 <= a < b < |r|
        ensures LexLess(r[a], r[b])
      {
        if b < |prev| {
          assert r[a] == prev[a] && r[b] == prev[b];
        } else if a < |prev| {
          assert r[a] == prev[a];
        }
      }
    }
  }

  /** A sweep visits individuals in order, then loci, then copies: its
      events are strictly increasing in that lexicographic order. */
  lemma {:induction false} AllEventsSorted(n: nat, numLoci: nat)
    ensures Sorted(AllEvents(n, numLoci))
  {
    if n > 0 {
      AllEventsSorted(n - 1, numLoci);
      LocusEventsSorted(n - 1, numLoci);
      LocusEventsFit(n - 1, numLoci);
      var a := AllEvents(n - 1, numLoci);
      var b := LocusEvents(n - 1, numLoci);
      var r := AllEvents(n, numLoci);
      assert r == a + b;
      forall x, y | 0 <= x < y < |r|
        ensures LexLess(r[x], r[y])
      {
        if y < |a| {
          assert r[x] == a[x] && r[y] == a[y];
        } else if x >= |a| {
          assert r[x] == b[x - |a|] && r[y] == b[y - |a|];
        } else {
          assert r[x] == a[x] && r[y] == b[y - |a|];
        }
      }
    }
  }

  // ---------------------------------------------------------------------
  // What one event and one reclaim change

  /** A mutation writes allele 1 at absolute site `locus * alleleLen + slot`
      of the chosen copy of the chosen individual, and nowhere else. */
  lemma MarkOnlyThatSite(g: Genotypes, numLoci: nat, alleleLen: nat, e: Event, slot: nat, i: nat, p: nat, s: nat)
    requires WellShaped(g, numLoci * alleleLen) && EventFits(e, |g|, numLoci) && slot < alleleLen
    requires i < |g| && p < 2 && s < numLoci * alleleLen
    ensures |Mark(g, numLoci, alleleLen, e, slot)| == |g|
    ensures Mark(g, numLoci, alleleLen, e, slot)[i][p][s]
      == if i == e.ind && p == e.copy && s == e.locus * alleleLen + slot then 1 else g[i][p][s]
  {
    LocusFits(e.locus, numLoci, alleleLen);
  }

  /** A successful reclaim returns the monomorphic slots as the new pool
      and sets allele 0, on both copies of every individual, at each slot
      taken as an absolute site; every other site keeps its allele. */
  lemma ReclaimResets(g: Genotypes, numLoci: nat, alleleLen: nat, locus: nat, i: nat, p: nat, s: nat)
    requires WellShaped(g, numLoci * alleleLen) && locus < numLoci
    requires ReclaimSites(g, numLoci, alleleLen, locus).Some?
    requires i < |g| && p < 2 && s < numLoci * alleleLen
    ensures var r := ReclaimSites(g, numLoci, alleleLen, locus).value;
      && r.1 == MonomorphicSlots(g, numLoci, alleleLen, locus)
      && r.0[i][p][s] == if s in r.1 then 0 else g[i][p][s]
  {
  }

  /** Reclaim fails exactly when no site of the locus is monomorphic. */
  lemma ReclaimFails(g: Genotypes, numLoci: nat, alleleLen: nat, locus: nat)
    requires WellShaped(g, numLoci * alleleLen) && locus < numLoci
    ensures ReclaimSites(g, numLoci, alleleLen, locus).None?
      <==> forall s: nat :: s < alleleLen ==> !SlotMonomorphic(g, numLoci, alleleLen, locus, s)
  {
    MonomorphicSlotsSpec(g, numLoci, alleleLen, locus);
    var slots := MonomorphicSlots(g, numLoci, alleleLen, locus);
    if slots != [] {
      assert slots[0] in slots;
    }
  }

  /** The slots are written as absolute sites, all below `alleleLen`: a
      reclaim for any locus but 0 leaves that locus's own sites as they
      were. */
  lemma ReclaimMissesOwnSites(g: Genotypes, numLoci: nat, alleleLen: nat, locus: nat, i: nat, p: nat, s: nat)
    requires WellShaped(g, numLoci * alleleLen) && 1 <= locus < numLoci
    requires ReclaimSites(g, numLoci, alleleLen, locus).Some?
    requires i < |g| && p < 2 && locus * alleleLen <= s < (locus + 1) * alleleLen
    ensures s < numLoci * alleleLen
    ensures ReclaimSites(g, numLoci, alleleLen, locus).value.0[i][p][s] == g[i][p][s]
  {
    LocusFits(locus, numLoci, alleleLen);
    MonomorphicSlotsSpec(g, numLoci, alleleLen, locus);
    assert alleleLen <= locus * alleleLen;
  }

  /** When no draw falls below its locus's rate, a sweep changes nothing. */
  lemma {:induction false} NoMutationRun(st: SiteState, mu: seq<real>, numLoci: nat, alleleLen: nat, events: seq<Event>, us: seq<real>, k: nat)
    requires k <= |events| == |us|
    requires WellShaped(st.geno, numLoci * alleleLen) && PoolsOk(st.pools, alleleLen)
    requires forall j :: 0 <= j < |events| ==> EventFits(events[j], |st.geno|, numLoci)
    requires forall j :: 0 <= j < |events| ==> events[j].locus < |mu| && !(us[j] < mu[events[j].locus])
    ensures RunFirst(st, mu, numLoci, alleleLen, events, us, k) == Continue(st)
  {
    if k > 0 {
      NoMutationRun(st, mu, numLoci, alleleLen, events, us, k - 1);
    }
  }

  // ---------------------------------------------------------------------
  // Per-locus statistics (computeNumberOfSegregatingSites, computeHeterozygosity)

  /** `len([True for site in flags if site == False])`. */
  function CountFalse(flags: seq<bool>): nat {
    if |flags| == 0 then 0
    else CountFalse(flags[..|flags| - 1]) + (if flags[|flags| - 1] then 0 else 1)
  }

  /** `computeNumberOfSegregatingSites`: the monomorphism flags of all
      sites, cut into chunks of `alleleLen`, and per chunk the number of
      sites that are not monomorphic. A zero `alleleLen` is a zero step
      for `xrange`. */
  function SegregatingCounts(g: Genotypes, numLoci: nat, alleleLen: nat): Result<seq<nat>>
    requires WellShaped(g, numLoci * alleleLen)
  {
    var flags := MonoFlags(g, numLoci * alleleLen, 0, numLoci * alleleLen);
    var chunks :- Utility.ChunksOf(flags, alleleLen);
    Ok(seq(|chunks|, k requires 0 <= k < |chunks| => CountFalse(chunks[k])))
  }

  /** A sequence of flags splits into its set and its unset ones. */
  lemma {:induction false} CountFalseTrueIndices(flags: seq<bool>)
    ensures CountFalse(flags) + |TrueIndices(flags)| == |flags|
  {
    if |flags| > 0 {
      CountFalseTrueIndices(flags[..|flags| - 1]);
    }
  }

  /** There is one segregating count per locus, and it is the number of
      the locus's sites that reclaim would not take back: `alleleLen`
      minus the monomorphic ones. */
  lemma SegregatingCountsSpec(g: Genotypes, numLoci: nat, alleleLen: nat)
    requires WellShaped(g, numLoci * alleleLen)
    ensures alleleLen == 0 <==> SegregatingCounts(g, numLoci, alleleLen).Err?
    ensures alleleLen > 0 ==>
      var r := SegregatingCounts(g, numLoci, alleleLen);
      && |r.value| == numLoci
      && forall l :: 0 <= l < numLoci ==>
           r.value[l] <= alleleLen && r.value[l] == alleleLen - |MonomorphicSlots(g, numLoci, alleleLen, l)|
  {
    if alleleLen > 0 {
      var numSites := numLoci * alleleLen;
      var flags := MonoFlags(g, numSites, 0, numSites);
      var chunks := Utility.Chunks(flags, alleleLen);
      var r := SegregatingCounts(g, numLoci, alleleLen);
      assert r == Ok(seq(|chunks|, k requires 0 <= k < |chunks| => CountFalse(chunks[k])));
      if numLoci == 0 {
        assert |chunks| == 0;
      } else {
        Utility.ChunkAt(flags, alleleLen, numLoci, 0);
        forall l | 0 <= l < numLoci
          ensures r.value[l] <= alleleLen && r.value[l] == alleleLen - |MonomorphicSlots(g, numLoci, alleleLen, l)|
        {
          Utility.ChunkAt(flags, alleleLen, numLoci, l);
          LocusFits(l, numLoci, alleleLen);
          assert chunks[l] == MonoFlags(g, numSites, l * alleleLen, alleleLen);
          CountFalseTrueIndices(chunks[l]);
        }
      }
    }
  }

  /** The alleles of copy `c` at the sites of locus `locus`. */
  function LocusSites(c: Chromosome, alleleLen: nat, locus: nat): seq<int>
    requires (locus + 1) * alleleLen <= |c|
  {
    c[locus * alleleLen .. (locus + 1) * alleleLen]
  }

  /** How many individuals carry two different allele strings at `locus`:
      at most one per individual. */
  function HetCount(g: Genotypes, numLoci: nat, alleleLen: nat, locus: nat): (c: nat)
    requires WellShaped(g, numLoci * alleleLen) && locus < numLoci
    ensures c <= |g|
  {
    if |g| == 0 then 0
    else
      LocusFits(locus, numLoci, alleleLen);
      var last := g[|g| - 1];
      HetCount(g[..|g| - 1], numLoci, alleleLen, locus)
        + (if LocusSites(last[0], alleleLen, locus) != LocusSites(last[1], alleleLen, locus) then 1 else 0)
  }

  /** `computeHeterozygosity` before its final division by the population
      size: per locus, the number of individuals whose two chunks differ.
      The chunks are made lazily, so a zero `alleleLen` fails only once
      there is an individual. */
  method HeterozygoteCounts(g: Genotypes, numLoci: nat, alleleLen: nat) returns (r: Result<seq<nat>>)
    requires WellShaped(g, numLoci * alleleLen)
    ensures r.Err? <==> alleleLen == 0 && |g| > 0
    ensures r.Ok? ==> |r.value| == numLoci
    ensures r.Ok? ==> forall l :: 0 <= l < numLoci ==> r.value[l] == HetCount(g, numLoci, alleleLen, l)
  {
    var h: seq<nat> := seq(numLoci, _ => 0);
    var i := 0;
    while i < |g|
      invariant 0 <= i <= |g| && |h| == numLoci && (alleleLen == 0 ==> i == 0)
      invariant forall l :: 0 <= l < numLoci ==> h[l] == HetCount(g[..i], numLoci, alleleLen, l)
    {
      if alleleLen == 0 {
        return Err(ValueError("xrange() arg 3 must not be zero"));
      }
      var genotype0 := Utility.Chunks(g[i][0], alleleLen);
      var genotype1 := Utility.Chunks(g[i][1], alleleLen);
      ChunkCount(g[i][0], numLoci, alleleLen);
      ChunkCount(g[i][1], numLoci, alleleLen);
      var k := 0;
      while k < |genotype0| && k < |genotype1|
        invariant 0 <= k <= numLoci && |h| == numLoci
        invariant forall l :: 0 <= l < k ==> h[l] == HetCount(g[..i + 1], numLoci, alleleLen, l)
        invariant forall l :: k <= l < numLoci ==> h[l] == HetCount(g[..i], numLoci, alleleLen, l)
      {
        Utility.ChunkAt(g[i][0], alleleLen, numLoci, k);
        Utility.ChunkAt(g[i][1], alleleLen, numLoci, k);
        HetCountNext(g, numLoci, alleleLen, k, i);
        if genotype0[k] != genotype1[k] {
          h := h[k := h[k] + 1];
        }
        k := k + 1;
      }
      i := i + 1;
    }
    assert g[..|g|] == g;
    return Ok(h);
  }

  /** Counting one more individual. */
  lemma HetCountNext(g: Genotypes, numLoci: nat, alleleLen: nat, locus: nat, i: nat)
    requires WellShaped(g, numLoci * alleleLen) && locus < numLoci && i < |g|
    ensures (locus + 1) * alleleLen <= numLoci * alleleLen
    ensures HetCount(g[..i + 1], numLoci, alleleLen, locus) == HetCount(g[..i], numLoci, alleleLen, locus)
      + (if LocusSites(g[i][0], alleleLen, locus) != LocusSites(g[i][1], alleleLen, locus) then 1 else 0)
  {
    LocusFits(locus, numLoci, alleleLen);
    assert g[..i + 1][..i] == g[..i];
  }

  /** A chromosome of `numLoci * alleleLen` sites has `numLoci` chunks. */
  lemma ChunkCount(c: Chromosome, numLoci: nat, alleleLen: nat)
    requires alleleLen > 0 && |c| == numLoci * alleleLen
    ensures |Utility.Chunks(c, alleleLen)| == numLoci
  {
    if numLoci > 0 {
      Utility.ChunkAt(c, alleleLen, numLoci, 0);
    }
  }
}
