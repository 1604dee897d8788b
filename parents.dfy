/** The parent choosers of selfingsim/common.py and partial_selfing/common.py.

    Each chooser is a generator that yields, per offspring, either one
    parent (uniparental reproduction, selfing) or two (biparental). A call
    of `Next` models one resumption of the generator. Parents are
    identified by their index in the parental population; a role view
    (the males, the hermaphrodites or the females extracted by the sex
    splitter) is the ascending list of indices of that role. Random draws
    come from an `Rng` whose streams are supplied in advance. */
module ParentChoice {
  import opened Wrappers
  import opened Draws

  /** What one resumption yields. */
  datatype Choice = One(parent: nat) | Two(first: nat, second: nat)

  /** The sex simuPOP records; the hermaphrodites are coded `Female` under
      androdioecy and `Male` under gynodioecy. */
  datatype Sex = Male | Female

  // ---------------------------------------------------------------------
  // Two distinct indices

  /** The redraw loop `while first == second: second = randInt(n)`: the
      first word whose value differs from `first`, and how many words were
      used to reach it. */
  function Redraw(first: nat, ints: seq<nat>, n: nat): (r: Option<(nat, nat)>)
    requires n > 0
    ensures r.Some? ==>
      && 0 < r.value.1 <= |ints|
      && r.value.0 == ints[r.value.1 - 1] % n && r.value.0 != first
      && forall j :: 0 <= j < r.value.1 - 1 ==> ints[j] % n == first
    ensures r.None? <==> forall j :: 0 <= j < |ints| ==> ints[j] % n == first
    decreases |ints|
  {
    if |ints| == 0 then None
    else if ints[0] % n != first then Some((ints[0] % n, 1))
    else
      match Redraw(first, ints[1..], n)
      case None => None
      case Some((b, used)) => Some((b, used + 1))
  }

  /** Two indices in `0 .. n-1` as `pickTwoParents` draws them: the first
      is drawn once, the second is redrawn until it differs; the result
      also gives the words left over. */
  function PairSpec(ints: seq<nat>, n: nat): (r: Option<(nat, nat, seq<nat>)>)
    ensures r.Some? ==>
      && n > 1 && |ints| > 1
      && r.value.0 < n && r.value.1 < n && r.value.0 != r.value.1
      && r.value.0 == ints[0] % n
      && |r.value.2| < |ints| - 1 && r.value.2 == ints[|ints| - |r.value.2|..]
    ensures n == 1 ==> r.None?
  {
    if n == 0 || |ints| == 0 then None
    else
      match Redraw(ints[0] % n, ints[1..], n)
      case None => None
      case Some((b, used)) => Some((ints[0] % n, b, ints[used + 1..]))
  }

  /** The redraw result is determined by the first differing word. */
  lemma {:induction false} RedrawAt(first: nat, ints: seq<nat>, n: nat, k: nat)
    requires n > 0 && k < |ints| && ints[k] % n != first
    requires forall j :: 0 <= j < k ==> ints[j] % n == first
    ensures Redraw(first, ints, n) == Some((ints[k] % n, k + 1))
    decreases k
  {
    if k > 0 {
      RedrawAt(first, ints[1..], n, k - 1);
    }
  }

  /** `pickTwoParents` (and the biparental branches that share its loop):
      two distinct indices in `0 .. n-1`, only the second one redrawn. */
  method DistinctPair(rng: Rng, n: nat) returns (pair: Option<(nat, nat)>)
    modifies rng
    ensures rng.uniforms == old(rng.uniforms)
    ensures pair.Some? <==> PairSpec(old(rng.ints), n).Some?
    ensures pair.Some? ==> var s := PairSpec(old(rng.ints), n).value;
      pair.value == (s.0, s.1) && rng.ints == s.2
  {
    ghost var ints0 := rng.ints;
    var a := rng.RandInt(n);
    if a.None? {
      return None;
    }
    var b := rng.RandInt(n);
    if b.None? {
      return None;
    }
    ghost var c := 2;
    while b.value == a.value
      invariant rng.uniforms == old(rng.uniforms)
      invariant n > 0 && 2 <= c <= |ints0| && rng.ints == ints0[c..]
      invariant a.value == ints0[0] % n
      invariant b.Some? && b.value == ints0[c - 1] % n
      invariant forall j :: 1 <= j < c - 1 ==> ints0[j] % n == a.value
      decreases |rng.ints|
    {
      b := rng.RandInt(n);
      if b.None? {
        assert forall j :: 0 <= j < |ints0[1..]| ==> ints0[1..][j] % n == a.value;
        return None;
      }
      c := c + 1;
    }
    RedrawAt(a.value, ints0[1..], n, c - 2);
    return Some((a.value, b.value));
  }

  // ---------------------------------------------------------------------
  // Role views

  /** The ascending indices of the individuals of sex `s`
      (`pop.extractSubPops(subPops=[(0, s)])` under the sex splitter). */
  function Extract(sexes: seq<Sex>, s: Sex): (v: seq<nat>)
  {
    if |sexes| == 0 then []
    else Extract(sexes[..|sexes| - 1], s) + (if sexes[|sexes| - 1] == s then [|sexes| - 1] else [])
  }

  /** Every entry of a view is an individual of that sex. */
  lemma {:induction false} ExtractSound(sexes: seq<Sex>, s: Sex, j: nat)
    requires j < |Extract(sexes, s)|
    ensures Extract(sexes, s)[j] < |sexes| && sexes[Extract(sexes, s)[j]] == s
  {
    var init := sexes[..|sexes| - 1];
    if j < |Extract(init, s)| {
      ExtractSound(init, s, j);
      assert Extract(sexes, s)[j] == Extract(init, s)[j];
    }
  }

  /** Every individual of a sex appears in its view. */
  lemma {:induction false} ExtractComplete(sexes: seq<Sex>, s: Sex, k: nat)
    requires k < |sexes| && sexes[k] == s
    ensures k in Extract(sexes, s)
  {
    var init := sexes[..|sexes| - 1];
    if k < |sexes| - 1 {
      ExtractComplete(init, s, k);
    }
  }

  /** A view lists its individuals in ascending order. */
  lemma {:induction false} ExtractAscending(sexes: seq<Sex>, s: Sex, a: nat, b: nat)
    requires a < b < |Extract(sexes, s)|
    ensures Extract(sexes, s)[a] < Extract(sexes, s)[b]
  {
    var init := sexes[..|sexes| - 1];
    if b < |Extract(init, s)| {
      ExtractAscending(init, s, a, b);
    } else {
      ExtractSound(init, s, a);
    }
  }

  /** A view holds exactly the individuals of its sex, in ascending order. */
  lemma ExtractMembers(sexes: seq<Sex>, s: Sex)
    ensures forall k :: k in Extract(sexes, s) <==> 0 <= k < |sexes| && sexes[k] == s
    ensures forall a, b :: 0 <= a < b < |Extract(sexes, s)| ==> Extract(sexes, s)[a] < Extract(sexes, s)[b]
  {
    var v := Extract(sexes, s);
    forall k | k in v
      ensures 0 <= k < |sexes| && sexes[k] == s
    {
      var j :| 0 <= j < |v| && v[j] == k;
      ExtractSound(sexes, s, j);
    }
    forall k | 0 <= k < |sexes| && sexes[k] == s
      ensures k in v
    {
      ExtractComplete(sexes, s, k);
    }
    forall a, b | 0 <= a < b < |v|
      ensures v[a] < v[b]
    {
      ExtractAscending(sexes, s, a, b);
    }
  }

  // ---------------------------------------------------------------------
  // The three choosers as functions of the draw streams

  /** The streams after one resumption. */
  datatype Drawn = Drawn(choice: Choice, uniforms: seq<real>, ints: seq<nat>)

  /** Pure hermaphroditism: below `sstar` one index, otherwise a pair of
      distinct indices. */
  function HermSpec(npop: nat, sstar: real, us: seq<real>, ints: seq<nat>): (r: Option<Drawn>)
    ensures r.Some? ==> |us| > 0 && r.value.uniforms == us[1..]
    ensures r.Some? ==> npop > 0 && |ints| > 0
    ensures r.Some? && us[0] < sstar ==> r.value.choice == One(ints[0] % npop)
    ensures r.Some? && !(us[0] < sstar) ==>
      && r.value.choice.Two? && r.value.choice.first == ints[0] % npop
      && r.value.choice.first < npop && r.value.choice.second < npop
      && r.value.choice.first != r.value.choice.second
  {
    if |us| == 0 then None
    else if us[0] < sstar then
      if npop == 0 || |ints| == 0 then None
      else Some(Drawn(One(ints[0] % npop), us[1..], ints[1..]))
    else
      match PairSpec(ints, npop)
      case None => None
      case Some((a, b, rest)) => Some(Drawn(Two(a, b), us[1..], rest))
  }

  /** Androdioecy: below `sstar` one hermaphrodite, otherwise a male then
      a hermaphrodite. */
  function AndroSpec(males: seq<nat>, herms: seq<nat>, sstar: real, us: seq<real>, ints: seq<nat>): (r: Option<Drawn>)
    ensures r.Some? ==> |us| > 0 && r.value.uniforms == us[1..]
    ensures r.Some? && r.value.choice.One? ==> us[0] < sstar && r.value.choice.parent in herms
    ensures r.Some? && r.value.choice.Two? ==>
      !(us[0] < sstar) && r.value.choice.first in males && r.value.choice.second in herms
    ensures r.Some? && us[0] < sstar ==> r.value.choice.One?
  {
    if |us| == 0 then None
    else if us[0] < sstar then
      if |herms| == 0 || |ints| == 0 then None
      else Some(Drawn(One(herms[ints[0] % |herms|]), us[1..], ints[1..]))
    else
      if |males| == 0 || |herms| == 0 || |ints| < 2 then None
      else Some(Drawn(Two(males[ints[0] % |males|], herms[ints[1] % |herms|]), us[1..], ints[2..]))
  }

  /** Gynodioecy: below `sstar` one hermaphrodite; otherwise, when the
      second draw is below `H`, two distinct hermaphrodites, else a
      hermaphrodite then a female. */
  function GynoSpec(herms: seq<nat>, females: seq<nat>, sstar: real, h: real, us: seq<real>, ints: seq<nat>): (r: Option<Drawn>)
    ensures r.Some? ==> |us| > 0 && (r.value.choice.One? <==> us[0] < sstar)
    ensures r.Some? && r.value.choice.One? ==> r.value.choice.parent in herms
    ensures r.Some? && r.value.choice.Two? ==>
      && |us| > 1 && r.value.choice.first in herms
      && (us[1] < h ==> r.value.choice.second in herms)
      && (!(us[1] < h) ==> r.value.choice.second in females)
  {
    if |us| == 0 then None
    else if us[0] < sstar then
      if |herms| == 0 || |ints| == 0 then None
      else Some(Drawn(One(herms[ints[0] % |herms|]), us[1..], ints[1..]))
    else if |us| < 2 then None
    else if us[1] < h then
      match PairSpec(ints, |herms|)
      case None => None
      case Some((a, b, rest)) => Some(Drawn(Two(herms[a], herms[b]), us[2..], rest))
    else
      if |herms| == 0 || |females| == 0 || |ints| < 2 then None
      else Some(Drawn(Two(herms[ints[0] % |herms|], females[ints[1] % |females|]), us[2..], ints[2..]))
  }

  /** The roles gynodioecy can yield: a single parent is a hermaphrodite;
      a pair is two different hermaphrodites exactly when the second draw
      is below `H`, and otherwise a hermaphrodite and a female. A female is
      never yielded alone. */
  lemma GynoRoles(sexes: seq<Sex>, sstar: real, h: real, us: seq<real>, ints: seq<nat>)
    requires GynoSpec(Extract(sexes, Male), Extract(sexes, Female), sstar, h, us, ints).Some?
    ensures var c := GynoSpec(Extract(sexes, Male), Extract(sexes, Female), sstar, h, us, ints).value.choice;
      && (c.One? <==> us[0] < sstar)
      && (c.One? ==> c.parent < |sexes| && sexes[c.parent] == Male)
      && (c.Two? ==> c.first < |sexes| && sexes[c.first] == Male)
      && (c.Two? ==> c.second < |sexes| && (sexes[c.second] == Male <==> us[1] < h))
      && (c.Two? && us[1] < h ==> c.first != c.second)
  {
    var herms := Extract(sexes, Male);
    var females := Extract(sexes, Female);
    var c := GynoSpec(herms, females, sstar, h, us, ints).value.choice;
    if c.One? {
      var j :| 0 <= j < |herms| && herms[j] == c.parent;
      ExtractSound(sexes, Male, j);
    } else {
      var j :| 0 <= j < |herms| && herms[j] == c.first;
      ExtractSound(sexes, Male, j);
      if us[1] < h {
        var p := PairSpec(ints, |herms|).value;
        assert c == Two(herms[p.0], herms[p.1]);
        ExtractSound(sexes, Male, p.1);
        if p.0 < p.1 {
          ExtractAscending(sexes, Male, p.0, p.1);
        } else {
          ExtractAscending(sexes, Male, p.1, p.0);
        }
      } else {
        var j2 :| 0 <= j2 < |females| && females[j2] == c.second;
        ExtractSound(sexes, Female, j2);
      }
    }
  }

  /** The roles androdioecy can yield, in terms of the population's sexes:
      a single parent is always a hermaphrodite (coded `Female`), a pair is
      always a male then a hermaphrodite. */
  lemma AndroRoles(sexes: seq<Sex>, sstar: real, us: seq<real>, ints: seq<nat>)
    requires AndroSpec(Extract(sexes, Male), Extract(sexes, Female), sstar, us, ints).Some?
    ensures var c := AndroSpec(Extract(sexes, Male), Extract(sexes, Female), sstar, us, ints).value.choice;
      && (c.One? <==> us[0] < sstar)
      && (c.One? ==> c.parent < |sexes| && sexes[c.parent] == Female)
      && (c.Two? ==> c.first < |sexes| && sexes[c.first] == Male && c.second < |sexes| && sexes[c.second] == Female)
  {
    var males := Extract(sexes, Male);
    var herms := Extract(sexes, Female);
    var c := AndroSpec(males, herms, sstar, us, ints).value.choice;
    if c.One? {
      var j :| 0 <= j < |herms| && herms[j] == c.parent;
      ExtractSound(sexes, Female, j);
    } else {
      var j :| 0 <= j < |males| && males[j] == c.first;
      ExtractSound(sexes, Male, j);
      var j2 :| 0 <= j2 < |herms| && herms[j2] == c.second;
      ExtractSound(sexes, Female, j2);
    }
  }

  // ---------------------------------------------------------------------
  // The generators

  /** `pick_pure_hermaphrodite_parents`: the population size is read once,
      when the generator starts. */
  class HermChooser {
    const npop: nat
    const sstar: real

    constructor (npop: nat, sstar: real)
      ensures this.npop == npop && this.sstar == sstar
    {
      this.npop := npop;
      this.sstar := sstar;
    }

    method Next(rng: Rng) returns (c: Option<Choice>)
      modifies rng
      ensures var s := HermSpec(npop, sstar, old(rng.uniforms), old(rng.ints));
        && (c.Some? <==> s.Some?)
        && (c.Some? ==> c.value == s.value.choice && rng.uniforms == s.value.uniforms && rng.ints == s.value.ints)
    {
      var u := rng.RandUniform();
      if u.None? {
        return None;
      }
      if u.value < sstar {
        var k := rng.RandInt(npop);
        if k.None? {
          return None;
        }
        return Some(One(k.value));
      }
      var pair := DistinctPair(rng, npop);
      if pair.None? {
        return None;
      }
      return Some(Two(pair.value.0, pair.value.1));
    }
  }

  /** `pickTwoParents`: the number of parents is read once. */
  class PairChooser {
    const nPar: nat

    constructor (nPar: nat)
      ensures this.nPar == nPar
    {
      this.nPar := nPar;
    }

    method Next(rng: Rng) returns (pair: Option<(nat, nat)>)
      modifies rng
      ensures rng.uniforms == old(rng.uniforms)
      ensures pair.Some? ==> pair.value.0 < nPar && pair.value.1 < nPar && pair.value.0 != pair.value.1
      ensures pair.Some? <==> PairSpec(old(rng.ints), nPar).Some?
    {
      pair := DistinctPair(rng, nPar);
    }
  }

  /** The generators of androdioecy and gynodioecy: the role views are
      extracted afresh only when the generation counter differs from the
      one last seen, so every draw of one generation uses the same views. */
  class RoleChooser {
    const androdioecy: bool
    const sstar: real
    const h: real
    var gen: int
    /** Males under androdioecy, hermaphrodites under gynodioecy. */
    var view0: seq<nat>
    /** Hermaphrodites under androdioecy, females under gynodioecy. */
    var view1: seq<nat>
    /** The sexes of the population the views were extracted from. */
    ghost var viewSexes: seq<Sex>

    ghost predicate Valid()
      reads this
    {
      gen == -1 || (view0 == Extract(viewSexes, Male) && view1 == Extract(viewSexes, Female))
    }

    /** `gen = -1`: the first resumption always extracts. */
    constructor (androdioecy: bool, sstar: real, h: real)
      ensures Valid() && gen == -1
      ensures this.androdioecy == androdioecy && this.sstar == sstar && this.h == h
    {
      this.androdioecy := androdioecy;
      this.sstar := sstar;
      this.h := h;
      gen := -1;
      view0, view1 := [], [];
      viewSexes := [];
    }

    /** One resumption in generation `ngen` of the population `sexes`. */
    method Next(sexes: seq<Sex>, ngen: nat, rng: Rng) returns (c: Option<Choice>)
      requires Valid()
      modifies this, rng
      ensures Valid() && gen == ngen
      ensures old(gen) != ngen ==> viewSexes == sexes
      ensures old(gen) == ngen ==> view0 == old(view0) && view1 == old(view1) && viewSexes == old(viewSexes)
      ensures var s := if androdioecy then AndroSpec(view0, view1, sstar, old(rng.uniforms), old(rng.ints))
                       else GynoSpec(view0, view1, sstar, h, old(rng.uniforms), old(rng.ints));
        && (c.Some? <==> s.Some?)
        && (c.Some? ==> c.value == s.value.choice && rng.uniforms == s.value.uniforms && rng.ints == s.value.ints)
    {
      if gen != ngen {
        gen := ngen;
        view0 := Extract(sexes, Male);
        view1 := Extract(sexes, Female);
        viewSexes := sexes;
      }
      var u := rng.RandUniform();
      if u.None? {
        return None;
      }
      if u.value < sstar {
        // The single parent is a hermaphrodite: the second view under
        // androdioecy, the first under gynodioecy.
        var herms := if androdioecy then view1 else view0;
        var k := rng.RandInt(|herms|);
        if k.None? {
          return None;
        }
        return Some(One(herms[k.value]));
      }
      if androdioecy {
        var m := rng.RandInt(|view0|);
        if m.None? {
          return None;
        }
        var k := rng.RandInt(|view1|);
        if k.None? {
          return None;
        }
        return Some(Two(view0[m.value], view1[k.value]));
      }
      var u2 := rng.RandUniform();
      if u2.None? {
        return None;
      }
      if u2.value < h {
        var pair := DistinctPair(rng, |view0|);
        if pair.None? {
          return None;
        }
        return Some(Two(view0[pair.value.0], view0[pair.value.1]));
      }
      var a := rng.RandInt(|view0|);
      if a.None? {
        return None;
      }
      var b := rng.RandInt(|view1|);
      if b.None? {
        return None;
      }
      return Some(Two(view0[a.value], view1[b.value]));
    }
  }
}
