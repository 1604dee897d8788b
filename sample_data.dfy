/** The sample containers of selfingsim/data.py.

    A `BasicSample` holds where it was read from, the individuals' ids and
    their genotypes (one `[a, b]` pair per locus); a `FullSample` also
    holds, per individual, the number of generations since the last
    outcrossing. Both are set once, when built, so a sample is a value
    here. Building one looks at the first genotype to learn the number of
    loci and so fails with `IndexError` on an empty sample. */
module SampleData {
  import opened Wrappers
  import opened Json
  import opened Text

  /** One locus of one individual: the allele on each chromosome copy. */
  datatype Gene = Gene(a: string, b: string)

  type Genotype = seq<Gene>

  /** `tselfing` is `None` for a `BasicSample`. */
  datatype Sample = Sample(src: string, ids: seq<string>, genos: seq<Genotype>, nloc: nat,
                           tselfing: Option<seq<int>>)

  /** `BasicSample.__init__` / `FullSample.__init__`. */
  function NewSample(src: string, ids: seq<string>, genos: seq<Genotype>, tselfing: Option<seq<int>>): (r: Result<Sample>)
    ensures r.Err? <==> |genos| == 0
    ensures r.Err? ==> r.error == IndexError
    ensures r.Ok? ==>
      r.value.src == src && r.value.ids == ids && r.value.genos == genos
      && r.value.tselfing == tselfing && r.value.nloc == |genos[0]|
  {
    if |genos| == 0 then Err(IndexError) else Ok(Sample(src, ids, genos, |genos[0]|, tselfing))
  }

  /** What every sample the program builds satisfies: one id (and one
      selfing count) per genotype, and `nloc` taken from the first. */
  predicate WellFormed(s: Sample) {
    && |s.genos| > 0 && s.nloc == |s.genos[0]| && |s.ids| == |s.genos|
    && (s.tselfing.Some? ==> |s.tselfing.value| == |s.genos|)
  }

  /** Every genotype has `nloc` loci. */
  predicate Rectangular(s: Sample) {
    forall i :: 0 <= i < |s.genos| ==> |s.genos[i]| == s.nloc
  }

  /** Python's `s[i]`: a negative index counts from the end. */
  function PyIndex<T>(s: seq<T>, i: int): (r: Result<T>)
    ensures r.Ok? <==> -|s| <= i < |s|
    ensures 0 <= i < |s| ==> r == Ok(s[i])
    ensures -|s| <= i < 0 ==> r == Ok(s[|s| + i])
  {
    if 0 <= i < |s| then Ok(s[i])
    else if -|s| <= i < 0 then Ok(s[|s| + i])
    else Err(IndexError)
  }

  // ---------------------------------------------------------------------
  // Choosing loci and individuals

  /** `len([True for i in locs if i >= nloc])`. */
  function CountAtLeast(locs: seq<int>, nloc: nat): (c: nat)
    ensures c == 0 <==> forall k :: 0 <= k < |locs| ==> locs[k] < nloc
    ensures c <= |locs|
  {
    if |locs| == 0 then 0
    else CountAtLeast(locs[..|locs| - 1], nloc) + (if locs[|locs| - 1] >= nloc then 1 else 0)
  }

  /** `_checklocs`: all loci when none are given; otherwise the list as
      given, unless some index is `nloc` or more. Negative indices pass. */
  function CheckLocs(nloc: nat, locs: Option<seq<int>>): (r: Result<seq<int>>)
    ensures locs.None? ==> r.Ok? && |r.value| == nloc && forall j :: 0 <= j < nloc ==> r.value[j] == j
    ensures locs.Some? ==>
      (r.Ok? <==> forall k :: 0 <= k < |locs.value| ==> locs.value[k] < nloc)
    ensures locs.Some? && r.Ok? ==> r.value == locs.value
    ensures r.Err? ==> r.error.ValueError?
  {
    match locs
    case None => Ok(seq(nloc, j => j))
    case Some(l) =>
      if CountAtLeast(l, nloc) > 0 then Err(ValueError("Specified locus outside of range")) else Ok(l)
  }

  /** A list of distinct values. */
  predicate Distinct(xs: seq<nat>) {
    forall a, b :: 0 <= a < b < |xs| ==> xs[a] != xs[b]
  }

  /** What `random.sample(xrange(nsam), k)` returns: `k` distinct
      individuals of the sample. */
  predicate Drawn(picks: seq<nat>, k: int, nsam: nat) {
    |picks| == k && Distinct(picks) && forall m :: 0 <= m < |picks| ==> picks[m] < nsam
  }

  /** `[geno[j] for j in locs]`. */
  function Restrict(g: Genotype, locs: seq<int>): (r: Result<Genotype>)
    ensures r.Ok? <==> forall q :: 0 <= q < |locs| ==> -|g| <= locs[q] < |g|
    ensures r.Ok? ==> |r.value| == |locs| && forall q :: 0 <= q < |locs| ==> Ok(r.value[q]) == PyIndex(g, locs[q])
  {
    if |locs| == 0 then Ok([])
    else
      match Restrict(g, locs[..|locs| - 1])
      case Err(e) => Err(e)
      case Ok(front) =>
        match PyIndex(g, locs[|locs| - 1])
        case Err(e) => Err(e)
        case Ok(x) => Ok(front + [x])
  }

  /** `[[genos[i][j] for j in locs] for i in picks]`, the first failure
      winning. */
  function RestrictAll(genos: seq<Genotype>, picks: seq<nat>, locs: seq<int>): (r: Result<seq<Genotype>>)
    requires forall m :: 0 <= m < |picks| ==> picks[m] < |genos|
    ensures r.Ok? <==> forall m :: 0 <= m < |picks| ==> Restrict(genos[picks[m]], locs).Ok?
    ensures r.Ok? ==>
      |r.value| == |picks| && forall m :: 0 <= m < |picks| ==> r.value[m] == Restrict(genos[picks[m]], locs).value
  {
    if |picks| == 0 then Ok([])
    else
      match RestrictAll(genos, picks[..|picks| - 1], locs)
      case Err(e) => Err(e)
      case Ok(front) =>
        match Restrict(genos[picks[|picks| - 1]], locs)
        case Err(e) => Err(e)
        case Ok(g) => Ok(front + [g])
  }

  /** `sample(nsam, locs)`: `picks` stands for the draw of
      `random.sample`, which raises `ValueError` when `k` is negative or
      larger than the sample. A `FullSample` keeps the selfing counts of
      the same individuals. */
  function SubSample(s: Sample, k: int, picks: seq<nat>, locs: Option<seq<int>>): (r: Result<Sample>)
    requires WellFormed(s)
    requires 0 <= k <= |s.genos| ==> Drawn(picks, k, |s.genos|)
  {
    match CheckLocs(s.nloc, locs)
    case Err(e) => Err(e)
    case Ok(l) =>
      if k < 0 || k > |s.genos| then Err(ValueError("Sample larger than population or is negative"))
      else
        var ids := seq(k, m requires 0 <= m < k => s.ids[picks[m]]);
        var tags := match s.tselfing
          case None => None
          case Some(t) => Some(seq(k, m requires 0 <= m < k => t[picks[m]]));
        match RestrictAll(s.genos, picks, l)
        case Err(e) => Err(e)
        case Ok(genos) => NewSample(s.src, ids, genos, tags)
  }

  /** A sub-sample holds the drawn individuals in the order drawn, each
      with its id, its selfing count and the chosen loci of its genotype;
      it is well formed. */
  lemma SubSampleKeeps(s: Sample, k: int, picks: seq<nat>, locs: Option<seq<int>>)
    requires WellFormed(s)
    requires 0 <= k <= |s.genos| ==> Drawn(picks, k, |s.genos|)
    requires SubSample(s, k, picks, locs).Ok?
    ensures var r := SubSample(s, k, picks, locs).value;
      && WellFormed(r) && |r.genos| == k && r.src == s.src
      && (forall m :: 0 <= m < k ==> r.ids[m] == s.ids[picks[m]])
      && (r.tselfing.Some? <==> s.tselfing.Some?)
      && (r.tselfing.Some? ==> forall m :: 0 <= m < k ==> r.tselfing.value[m] == s.tselfing.value[picks[m]])
      && (forall m, q :: 0 <= m < k && 0 <= q < |CheckLocs(s.nloc, locs).value| ==>
            Ok(r.genos[m][q]) == PyIndex(s.genos[picks[m]], CheckLocs(s.nloc, locs).value[q]))
  {
    var l := CheckLocs(s.nloc, locs).value;
    var r := SubSample(s, k, picks, locs).value;
    assert r.genos == RestrictAll(s.genos, picks, l).value;
  }

  /** On a sample whose genotypes all have `nloc` loci, drawing between 1
      and `nsam` individuals over loci in range always succeeds; drawing
      none fails with `IndexError`, and an index at or past `nloc` with
      `ValueError`. */
  lemma SubSampleSucceeds(s: Sample, k: int, picks: seq<nat>, locs: Option<seq<int>>)
    requires WellFormed(s) && Rectangular(s)
    requires 0 <= k <= |s.genos| ==> Drawn(picks, k, |s.genos|)
    requires locs.Some? ==> forall q :: 0 <= q < |locs.value| ==> -(s.nloc as int) <= locs.value[q]
    ensures (0 < k <= |s.genos| && CheckLocs(s.nloc, locs).Ok?) ==> SubSample(s, k, picks, locs).Ok?
    ensures k == 0 && CheckLocs(s.nloc, locs).Ok? ==> SubSample(s, k, picks, locs) == Err(IndexError)
    ensures CheckLocs(s.nloc, locs).Err? ==>
      SubSample(s, k, picks, locs).Err? && SubSample(s, k, picks, locs).error.ValueError?
  {
    if 0 <= k <= |s.genos| && CheckLocs(s.nloc, locs).Ok? {
      var l := CheckLocs(s.nloc, locs).value;
      forall m | 0 <= m < |picks|
        ensures Restrict(s.genos[picks[m]], l).Ok?
      {
        assert |s.genos[picks[m]]| == s.nloc;
      }
    }
  }

  // ---------------------------------------------------------------------
  // JSON

  function GeneJson(g: Gene): Json {
    JArray([JString(g.a), JString(g.b)])
  }

  function GenotypeJson(g: Genotype): Json {
    JArray(seq(|g|, l requires 0 <= l < |g| => GeneJson(g[l])))
  }

  /** `tojson`: `[[id, tag, genotype], ...]` (the text `json.dumps` makes
      of it is not modelled). */
  function ToJson(s: Sample): (j: Json)
    requires WellFormed(s) && s.tselfing.Some?
  {
    var t := s.tselfing.value;
    JArray(seq(|s.genos|, i requires 0 <= i < |s.genos| => JArray([JString(s.ids[i]), JInt(t[i]), GenotypeJson(s.genos[i])])))
  }

  /** A gene in the form `tojson` writes it, read back. */
  function GeneOf(j: Json): Result<Gene>
  {
    if j.JArray? && |j.items| == 2 && j.items[0].JString? && j.items[1].JString? then
      Ok(Gene(j.items[0].s, j.items[1].s))
    else Err(TypeError)
  }

  /** A genotype in the form `tojson` writes it, read back. */
  function GenotypeOf(j: Json): Result<Genotype>
  {
    if !j.JArray? then Err(TypeError) else GenesOf(j.items)
  }

  function GenesOf(js: seq<Json>): Result<Genotype>
  {
    if |js| == 0 then Ok([])
    else
      match GenesOf(js[..|js| - 1])
      case Err(e) => Err(e)
      case Ok(front) =>
        match GeneOf(js[|js| - 1])
        case Err(e) => Err(e)
        case Ok(g) => Ok(front + [g])
  }

  /** A `FullSample` as `fromjson` builds it. `json.load` hands over any
      values and the constructor stores them unchecked, so ids, tags and
      genotypes stay JSON values; the constructor only asks the first
      genotype for its length. */
  datatype JsonSample = JsonSample(src: string, ids: seq<Json>, tags: seq<Json>, genos: seq<Json>, nloc: nat)

  /** `v[i]` for a non-negative integer `i`: an item of a list or a
      character of a string, `IndexError` past the end, `KeyError` on a
      dictionary (whose keys are strings) and `TypeError` on anything
      else. */
  function Item(v: Json, i: nat): (r: Result<Json>)
    ensures r.Ok? <==> (v.JArray? && i < |v.items|) || (v.JString? && i < |v.s|)
    ensures r.Ok? && v.JArray? ==> r.value == v.items[i]
    ensures r.Ok? && v.JString? ==> r.value == JString([v.s[i]])
    ensures r.Err? ==> r.error == (if v.JArray? || v.JString? then IndexError else if v.JObject? then KeyError(NatToString(i)) else TypeError)
  {
    match v
    case JArray(items) => if i < |items| then Ok(items[i]) else Err(IndexError)
    case JString(t) => if i < |t| then Ok(JString([t[i]])) else Err(IndexError)
    case JObject(_) => Err(KeyError(NatToString(i)))
    case _ => Err(TypeError)
  }

  /** `len(v)`: the items of a list, the characters of a string, the
      distinct keys of a dictionary; anything else raises `TypeError`. */
  function Len(v: Json): (r: Result<nat>)
    ensures r.Ok? <==> v.JArray? || v.JString? || v.JObject?
    ensures v.JArray? ==> r == Ok(|v.items|)
    ensures v.JString? ==> r == Ok(|v.s|)
    ensures r.Err? ==> r.error == TypeError
  {
    match v
    case JArray(items) => Ok(|items|)
    case JString(t) => Ok(|t|)
    case JObject(fields) => Ok(|set k | 0 <= k < |fields| :: fields[k].0|)
    case _ => Err(TypeError)
  }

  /** `[val[i] for val in vals]`: item `i` of every value, or the first
      failure. */
  function Column(vals: seq<Json>, i: nat): (r: Result<seq<Json>>)
    ensures r.Ok? <==> forall k :: 0 <= k < |vals| ==> Item(vals[k], i).Ok?
    ensures r.Ok? ==> |r.value| == |vals| && forall k :: 0 <= k < |vals| ==> Item(vals[k], i) == Ok(r.value[k])
    ensures r.Err? ==>
      exists k :: 0 <= k < |vals| && Item(vals[k], i) == Err(r.error) && forall j :: 0 <= j < k ==> Item(vals[j], i).Ok?
  {
    if |vals| == 0 then Ok([])
    else
      var front := vals[..|vals| - 1];
      match Column(front, i)
      case Err(e) =>
        assert forall k :: 0 <= k < |front| ==> front[k] == vals[k];
        Err(e)
      case Ok(f) =>
        match Item(vals[|vals| - 1], i)
        case Err(e) => Err(e)
        case Ok(x) => Ok(f + [x])
  }

  /** `fromjson`: the ids, tags and genotypes are items 0, 1 and 2 of
      each entry, read in three passes; the constructor then takes the
      length of the first genotype, failing with `IndexError` when there
      is none. */
  function FromJson(src: string, data: Json): (r: Result<JsonSample>)
  {
    var vals :- if Iterate(data).Some? then Ok(Iterate(data).value) else Err(TypeError);
    var ids :- Column(vals, 0);
    var tags :- Column(vals, 1);
    var genos :- Column(vals, 2);
    if |genos| == 0 then Err(IndexError)
    else
      var n :- Len(genos[0]);
      Ok(JsonSample(src, ids, tags, genos, n))
  }

  /** `fromjson` accepts exactly an iterable of entries that each have
      items 0, 1 and 2, the first entry's item 2 having a length; nothing
      is asked of the values themselves. It keeps every entry's three
      items in order, and the length of the first genotype as `nloc`. */
  lemma FromJsonAccepts(src: string, data: Json)
    ensures FromJson(src, data).Ok? <==>
      && Iterate(data).Some? && |Iterate(data).value| > 0
      && (forall k :: 0 <= k < |Iterate(data).value| ==>
            var v := Iterate(data).value[k]; Item(v, 0).Ok? && Item(v, 1).Ok? && Item(v, 2).Ok?)
      && Len(Item(Iterate(data).value[0], 2).value).Ok?
    ensures FromJson(src, data).Ok? ==>
      var vals := Iterate(data).value; var r := FromJson(src, data).value;
      && r.src == src && |r.ids| == |r.tags| == |r.genos| == |vals|
      && (forall k :: 0 <= k < |vals| ==>
            Item(vals[k], 0) == Ok(r.ids[k]) && Item(vals[k], 1) == Ok(r.tags[k]) && Item(vals[k], 2) == Ok(r.genos[k]))
      && Len(r.genos[0]) == Ok(r.nloc)
  {
  }

  /** The entries of gensamples' JSON output, whose ids, tags and alleles
      are integers, make a sample with one locus. */
  lemma FromJsonNumeric(src: string)
    ensures var gene := JArray([JInt(1), JInt(0)]);
      FromJson(src, JArray([JArray([JInt(0), JInt(0), JArray([gene])])]))
        == Ok(JsonSample(src, [JInt(0)], [JInt(0)], [JArray([gene])], 1))
  {
    var gene := JArray([JInt(1), JInt(0)]);
    var vals := [JArray([JInt(0), JInt(0), JArray([gene])])];
    assert vals[..0] == [];
    assert Column([], 0) == Ok([]) && Column([], 2) == Ok([]);
    assert [] + [JInt(0)] == [JInt(0)] && [] + [JArray([gene])] == [JArray([gene])];
    assert Column(vals, 0) == Ok([JInt(0)]);
    assert Column(vals, 1) == Ok([JInt(0)]);
    assert Column(vals, 2) == Ok([JArray([gene])]);
  }

  lemma {:induction false} GenesRoundTrip(g: Genotype)
    ensures GenesOf(seq(|g|, l requires 0 <= l < |g| => GeneJson(g[l]))) == Ok(g)
  {
    if |g| > 0 {
      var js := seq(|g|, l requires 0 <= l < |g| => GeneJson(g[l]));
      var front := g[..|g| - 1];
      assert js[..|js| - 1] == seq(|front|, l requires 0 <= l < |front| => GeneJson(front[l]));
      GenesRoundTrip(front);
      assert front + [g[|g| - 1]] == g;
    }
  }

  /** Reading back what `tojson` writes gives, attributed to the file it
      was read from, the ids as strings, the tags as integers and the
      genotypes in the form written, each of which reads back as the
      genotype itself; `nloc` is kept. */
  lemma JsonRoundTrip(s: Sample, src: string)
    requires WellFormed(s) && s.tselfing.Some?
    ensures FromJson(src, ToJson(s)).Ok?
    ensures var r := FromJson(src, ToJson(s)).value;
      && r.src == src && r.nloc == s.nloc && |r.ids| == |r.tags| == |r.genos| == |s.genos|
      && (forall k :: 0 <= k < |s.genos| ==>
            && r.ids[k] == JString(s.ids[k]) && r.tags[k] == JInt(s.tselfing.value[k])
            && GenotypeOf(r.genos[k]) == Ok(s.genos[k]))
  {
    var j := ToJson(s);
    var vals := j.items;
    assert Iterate(j) == Some(vals);
    FromJsonAccepts(src, j);
    assert Len(Item(vals[0], 2).value) == Ok(s.nloc);
    var r := FromJson(src, j).value;
    forall k | 0 <= k < |s.genos|
      ensures GenotypeOf(r.genos[k]) == Ok(s.genos[k])
    {
      assert r.genos[k] == GenotypeJson(s.genos[k]);
      GenesRoundTrip(s.genos[k]);
    }
  }
}
