/** The `self_gen` information field: how many generations of selfing an
    individual's line has gone through since its last outcrossing.

    Three operators write it into each offspring as it is produced:
    the pure-selfing tagger and the pure-outcrossing tagger of
    partial_selfing/common.py, and the mixed tagger of selfingsim/common.py,
    which looks at whether the offspring has a second parent. A generation
    of mating is described by the parent choice of each offspring (as the
    parent choosers yield them); `evolve` first re-initialises the field to
    0 for every individual and then runs its generations. */
module Tagging {
  import opened Wrappers
  import opened ParentChoice

  /** The three tag operators. */
  datatype Tagger =
    | Selfing      // `MySelfingTagger` of partial_selfing/common.py: `dad`'s tag + 1, `mom` ignored
    | Outcrossing  // `MyOutcrossingTagger`: 0 whatever the parents
    | Mixed        // `MySelfingTagger` of selfingsim/common.py: 0 with a `mom`, else `dad`'s tag + 1

  /** The value the operator writes for an offspring whose `dad` carries
      `dadTag`; `hasMom` says whether a second parent was passed. */
  function NewTag(t: Tagger, dadTag: int, hasMom: bool): int {
    match t
    case Selfing => dadTag + 1
    case Outcrossing => 0
    case Mixed => if hasMom then 0 else dadTag + 1
  }

  /** An individual, as far as its information field goes. */
  class Individual {
    var tag: int

    constructor (tag: int)
      ensures this.tag == tag
    {
      this.tag := tag;
    }
  }

  /** `record(pop, off, dad, mom)`: writes the offspring's field and
      reports success; the parents are left alone. */
  method Record(t: Tagger, off: Individual, dad: Individual, mom: Option<Individual>) returns (ok: bool)
    requires off != dad && (mom.Some? ==> off != mom.value)
    modifies off
    ensures ok
    ensures off.tag == NewTag(t, dad.tag, mom.Some?)
    ensures dad.tag == old(dad.tag) && (mom.Some? ==> mom.value.tag == old(mom.value.tag))
  {
    var v: int;
    match t {
      case Selfing =>
        v := dad.tag + 1;
      case Outcrossing =>
        v := 0;
      case Mixed =>
        if mom.Some? {
          v := 0;
        } else {
          v := dad.tag + 1;
        }
    }
    off.tag := v;
    return true;
  }

  // ---------------------------------------------------------------------
  // Generations

  /** The individual passed as `dad`: the only parent, or the first. */
  function Dad(c: Choice): nat {
    match c
    case One(p) => p
    case Two(p, _) => p
  }

  /** Every parent index of a generation's choices lies in a parental
      population of `n` individuals. */
  predicate Fits(cs: seq<Choice>, n: nat) {
    forall j :: 0 <= j < |cs| ==> Dad(cs[j]) < n && (cs[j].Two? ==> cs[j].second < n)
  }

  /** Each generation's parents come from the one before it, the first
      from a population of `n`. */
  predicate Pedigree(n: nat, gens: seq<seq<Choice>>)
    decreases |gens|
  {
    |gens| == 0 || (Fits(gens[0], n) && Pedigree(|gens[0]|, gens[1..]))
  }

  /** The fields of one generation of offspring, one per choice. */
  function Generation(t: Tagger, tags: seq<int>, cs: seq<Choice>): (r: seq<int>)
    requires Fits(cs, |tags|)
    ensures |r| == |cs|
  {
    seq(|cs|, j requires 0 <= j < |cs| && Fits(cs, |tags|) => NewTag(t, tags[Dad(cs[j])], cs[j].Two?))
  }

  /** The fields after running the generations in order. */
  function Evolve(t: Tagger, tags: seq<int>, gens: seq<seq<Choice>>): (r: seq<int>)
    requires Pedigree(|tags|, gens)
    decreases |gens|
  {
    if |gens| == 0 then tags else Evolve(t, Generation(t, tags, gens[0]), gens[1..])
  }

  /** `InitInfo(0)`: every field set to 0. */
  function Zeros(n: nat): (r: seq<int>)
    ensures |r| == n && forall j :: 0 <= j < n ==> r[j] == 0
  {
    seq(n, j => 0)
  }

  /** `sim.evolve(initOps = [InitInfo(0)], ...)` on a population whose
      fields are `tags`: the initialisation comes first. */
  function EvolveFromInit(t: Tagger, tags: seq<int>, gens: seq<seq<Choice>>): (r: seq<int>)
    requires Pedigree(|tags|, gens)
  {
    Evolve(t, Zeros(|tags|), gens)
  }

  /** Every field equals `v`. */
  predicate AllAre(tags: seq<int>, v: int) {
    forall j :: 0 <= j < |tags| ==> tags[j] == v
  }

  /** Every field lies between 0 and `v`. */
  predicate AllWithin(tags: seq<int>, v: int) {
    forall j :: 0 <= j < |tags| ==> 0 <= tags[j] <= v
  }

  // ---------------------------------------------------------------------
  // Properties

  /** The last generation decides the fields under pure outcrossing: after
      one or more generations every field is 0. */
  lemma {:induction false} OutcrossingZeroes(tags: seq<int>, gens: seq<seq<Choice>>)
    requires Pedigree(|tags|, gens) && |gens| > 0
    ensures AllAre(Evolve(Outcrossing, tags, gens), 0)
    decreases |gens|
  {
    var next := Generation(Outcrossing, tags, gens[0]);
    if |gens| > 1 {
      OutcrossingZeroes(next, gens[1..]);
    }
  }

  /** Pure selfing adds one per generation to fields that all start at
      `v`, whichever parents are chosen. */
  lemma {:induction false} SelfingCounts(tags: seq<int>, v: int, gens: seq<seq<Choice>>)
    requires Pedigree(|tags|, gens) && AllAre(tags, v)
    ensures AllAre(Evolve(Selfing, tags, gens), v + |gens|)
    decreases |gens|
  {
    if |gens| > 0 {
      var next := Generation(Selfing, tags, gens[0]);
      assert AllAre(next, v + 1);
      SelfingCounts(next, v + 1, gens[1..]);
    }
  }

  /** Ten generations of pure outcrossing leave every field 0. */
  lemma TenOutcrossing(tags: seq<int>, gens: seq<seq<Choice>>)
    requires Pedigree(|tags|, gens) && |gens| == 10
    ensures AllAre(EvolveFromInit(Outcrossing, tags, gens), 0)
  {
    OutcrossingZeroes(Zeros(|tags|), gens);
  }

  /** Ten generations of pure selfing from the initial 0 give 10. */
  lemma TenSelfing(tags: seq<int>, gens: seq<seq<Choice>>)
    requires Pedigree(|tags|, gens) && |gens| == 10
    ensures AllAre(EvolveFromInit(Selfing, tags, gens), 10)
  {
    SelfingCounts(Zeros(|tags|), 0, gens);
  }

  /** A second `evolve` re-initialises the fields, so selfing after any
      earlier run counts from 0, and outcrossing after any earlier run
      ends at 0. */
  lemma SequentialRuns(t1: Tagger, tags: seq<int>, gens1: seq<seq<Choice>>, gens2: seq<seq<Choice>>)
    requires Pedigree(|tags|, gens1)
    requires Pedigree(|EvolveFromInit(t1, tags, gens1)|, gens2) && |gens2| > 0
    ensures AllAre(EvolveFromInit(Selfing, EvolveFromInit(t1, tags, gens1), gens2), |gens2|)
    ensures AllAre(EvolveFromInit(Outcrossing, EvolveFromInit(t1, tags, gens1), gens2), 0)
  {
    var mid := EvolveFromInit(t1, tags, gens1);
    SelfingCounts(Zeros(|mid|), 0, gens2);
    OutcrossingZeroes(Zeros(|mid|), gens2);
  }

  /** Under the mixed tagger one generation writes 0 exactly for the
      offspring with two parents, and one more than the parent's field for
      the others. */
  lemma MixedGeneration(tags: seq<int>, cs: seq<Choice>, j: nat)
    requires Fits(cs, |tags|) && j < |cs| && tags[Dad(cs[j])] >= 0
    ensures Generation(Mixed, tags, cs)[j] == 0 <==> cs[j].Two?
    ensures cs[j].One? ==> Generation(Mixed, tags, cs)[j] == tags[cs[j].parent] + 1
  {
  }

  /** Under the mixed tagger a field never exceeds the number of
      generations run since it was 0 and is never negative. */
  lemma {:induction false} MixedBounded(tags: seq<int>, v: nat, gens: seq<seq<Choice>>)
    requires Pedigree(|tags|, gens) && AllWithin(tags, v)
    ensures AllWithin(Evolve(Mixed, tags, gens), v + |gens|)
    decreases |gens|
  {
    if |gens| > 0 {
      var next := Generation(Mixed, tags, gens[0]);
      assert AllWithin(next, v + 1);
      MixedBounded(next, v + 1, gens[1..]);
    }
  }

  /** Every offspring of every generation has one parent. */
  predicate Uniparental(gens: seq<seq<Choice>>) {
    forall k, j :: 0 <= k < |gens| && 0 <= j < |gens[k]| ==> gens[k][j].One?
  }

  /** Every offspring of every generation has two parents. */
  predicate Biparental(gens: seq<seq<Choice>>) {
    forall k, j :: 0 <= k < |gens| && 0 <= j < |gens[k]| ==> gens[k][j].Two?
  }

  /** With every offspring uniparental the mixed tagger counts like the
      selfing tagger; with every offspring biparental it writes 0 like the
      outcrossing tagger. */
  lemma {:induction false} MixedAgrees(tags: seq<int>, gens: seq<seq<Choice>>)
    requires Pedigree(|tags|, gens)
    ensures Uniparental(gens) ==> Evolve(Mixed, tags, gens) == Evolve(Selfing, tags, gens)
    ensures Biparental(gens) ==> Evolve(Mixed, tags, gens) == Evolve(Outcrossing, tags, gens)
    decreases |gens|
  {
    if |gens| > 0 {
      var rest := gens[1..];
      if Uniparental(gens) {
        assert Generation(Mixed, tags, gens[0]) == Generation(Selfing, tags, gens[0]);
        assert Uniparental(rest);
        MixedAgrees(Generation(Mixed, tags, gens[0]), rest);
      }
      if Biparental(gens) {
        assert Generation(Mixed, tags, gens[0]) == Generation(Outcrossing, tags, gens[0]);
        assert Biparental(rest);
        MixedAgrees(Generation(Mixed, tags, gens[0]), rest);
      }
    }
  }
}
