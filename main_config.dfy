/** main.py: the older entry point. Its `Config` reads the JSON
    configuration into attributes when it is built, and answers any other
    attribute from the configuration's sections. `simulate` picks the
    mutation model by name.

    The settings are read in the order `Config.__init__` reads them, so the
    first missing or malformed one decides the error. Unlike the reader
    in selfingsim/simulate.py nothing is caught here: a `KeyError`
    propagates as it is. */
module MainConfig {
  import opened Wrappers
  import opened Json
  import opened Text
  import SimConfig

  // ---------------------------------------------------------------------
  // `float(x)`

  /** `float(x)`: numbers and booleans convert, strings are parsed, and
      anything else is a `TypeError`. */
  function Float(x: Json): (r: Result<real>)
    ensures AsNumber(x).Some? ==> r == Ok(AsNumber(x).value)
    ensures x.JNull? || x.JArray? || x.JObject? ==> r == Err(TypeError)
    ensures x.JString? ==> r == ParseFloat(x.s)
  {
    match x
    case JInt(i) => Ok(i as real)
    case JFloat(f) => Ok(f)
    case JBool(b) => Ok(if b then 1.0 else 0.0)
    case JString(s) => ParseFloat(s)
    case _ => Err(TypeError)
  }

  // ---------------------------------------------------------------------
  // `self.m`

  /** One entry of `theta`: `range(t['times'])` first, then, for each
      repetition, `float(t['value']) / (4 * N)`; the value is not read
      when `times` is not positive. */
  function Entry(t: Json, npop: Json): (q: Result<seq<Json>>)
  {
    var times :- Get(t, "times");
    if SimConfig.AsInt(times).None? then Err(TypeError)
    else if SimConfig.AsInt(times).value <= 0 then Ok([])
    else
      var v :- Get(t, "value");
      var f :- Float(v);
      var d :- SimConfig.Mul(JInt(4), npop);
      var m :- SimConfig.Div(JFloat(f), d);
      Ok(seq(SimConfig.AsInt(times).value, _ => m))
  }

  /** The comprehension over the entries, in order. */
  function Entries(items: seq<Json>, npop: Json): (q: Result<seq<Json>>)
  {
    if |items| == 0 then Ok([])
    else
      var first :- Entry(items[0], npop);
      var rest :- Entries(items[1..], npop);
      Ok(first + rest)
  }

  /** `self.m`: the comprehension iterates over `theta`, so a number is a
      `TypeError`, and a dictionary's keys (strings) cannot be indexed by
      `'times'`. */
  function Rates(theta: Json, npop: Json): (q: Result<seq<Json>>)
  {
    match Iterate(theta)
    case None => Err(TypeError)
    case Some(items) => Entries(items, npop)
  }

  /** An entry whose value is a number gives the same rates as
      `_getmutationrate` of selfingsim/simulate.py. */
  lemma EntryAgrees(t: Json, npop: Json)
    requires HasKey(t, "value") ==> AsNumber(Lookup(t.fields, "value").value).Some?
    ensures Entry(t, npop) == SimConfig.Entry(t, npop)
  {
    if HasKey(t, "value") {
      var v := Lookup(t.fields, "value").value;
      assert AsNumber(JFloat(AsNumber(v).value)) == AsNumber(v);
    }
  }

  /** A list of entries with numeric values gives the same rates as
      selfingsim/simulate.py, so there are as many rates as the `times`
      add up to. */
  lemma {:induction false} EntriesAgree(items: seq<Json>, npop: Json)
    requires forall k :: 0 <= k < |items| && HasKey(items[k], "value") ==>
      AsNumber(Lookup(items[k].fields, "value").value).Some?
    ensures Entries(items, npop) == SimConfig.Expand(items, npop)
  {
    if |items| > 0 {
      EntryAgrees(items[0], npop);
      assert forall k :: 0 <= k < |items[1..]| ==> items[1..][k] == items[k + 1];
      EntriesAgree(items[1..], npop);
    }
  }

  /** The rates of a list of entries number the sum of the positive
      `times`, and each entry contributes `value / (4 N)` `times` times,
      in order. */
  lemma RatesLength(items: seq<Json>, npop: Json)
    requires forall k :: 0 <= k < |items| && HasKey(items[k], "value") ==>
      AsNumber(Lookup(items[k].fields, "value").value).Some?
    requires Rates(JArray(items), npop).Ok?
    ensures forall k :: 0 <= k < |items| ==>
      HasKey(items[k], "times") && SimConfig.AsInt(Lookup(items[k].fields, "times").value).Some?
    ensures |Rates(JArray(items), npop).value| == SimConfig.TotalTimes(items)
  {
    EntriesAgree(items, npop);
    SimConfig.ExpandLength(items, npop);
  }

  /** An entry with `times` = `n > 0` and a numeric value gives `n` copies
      of the value divided by `4 N`. */
  lemma EntryCopies(t: Json, n: nat, value: real, npop: int)
    requires n > 0 && npop != 0
    requires Get(t, "times") == Ok(JInt(n)) && Get(t, "value") == Ok(JFloat(value))
    ensures Entry(t, JInt(npop)) == Ok(seq(n, _ => JFloat(value / (4 * npop) as real)))
  {
    SimConfig.RealOfProduct(4, npop);
  }

  // ---------------------------------------------------------------------
  // `Config.__init__`

  /** The attributes `__init__` sets. `postProcess` is `None` when the
      configuration has no `post process` section, and `matingFloats`
      holds the values of `a`, `tau` and `sigma` that were set. */
  datatype Settings = Settings(
    general: Json,
    population: Json,
    postProcess: Option<Json>,
    outfile: Json,
    m: seq<Json>,
    gens: Json,
    burnin: Json,
    outputPer: Json,
    mode: Json,
    model: Json,
    matingFloats: seq<real>,
    alleleLength: Json)

  /** The mating parameters read as floats, in this order. */
  const MatingNames: seq<string> := ["a", "tau", "sigma"]

  function FloatOf(mating: Json, key: string): Result<real>
  {
    var v :- Get(mating, key);
    Float(v)
  }

  /** The `try` around `a`, `tau` and `sigma`: they are set in order, and
      the first that is missing or not a number stops the setting. */
  function MatingFloats(mating: Json): (r: seq<real>)
  {
    match FloatOf(mating, "a")
    case Err(_) => []
    case Ok(a) =>
      match FloatOf(mating, "tau")
      case Err(_) => [a]
      case Ok(tau) =>
        match FloatOf(mating, "sigma")
        case Err(_) => [a, tau]
        case Ok(sigma) => [a, tau, sigma]
  }

  /** The values set are those of a prefix of `a`, `tau`, `sigma`, and
      the setting stops exactly at the first name that cannot be read. */
  lemma MatingFloatsPrefix(mating: Json)
    ensures |MatingFloats(mating)| <= 3
    ensures forall k :: 0 <= k < |MatingFloats(mating)| ==>
      FloatOf(mating, MatingNames[k]) == Ok(MatingFloats(mating)[k])
    ensures |MatingFloats(mating)| < 3 ==> FloatOf(mating, MatingNames[|MatingFloats(mating)|]).Err?
  {
  }

  /** `self.allele_length`: the population's `allele_length`, else 1. */
  function AlleleLength(p: Json): (r: Json)
    ensures HasKey(p, "allele_length") ==> r == Lookup(p.fields, "allele_length").value
    ensures !HasKey(p, "allele_length") ==> r == JInt(1)
  {
    match Get(p, "allele_length")
    case Ok(v) => v
    case Err(_) => JInt(1)
  }

  /** `self._p['N'] * self._g[key]`. */
  function Scale(p: Json, g: Json, key: string): Result<Json>
  {
    var n :- Get(p, "N");
    var x :- Get(g, key);
    SimConfig.Mul(n, x)
  }

  /** The attributes read before the scaled ones: the sections, the output
      file name, the rates and the optional post-process section. */
  datatype Head = Head(general: Json, population: Json, outfile: Json, m: seq<Json>, postProcess: Option<Json>)

  function ReadHead(cobj: Json, substs: seq<string>): (r: Result<Head>)
    ensures r.Ok? ==> HasKey(cobj, "population") && HasKey(cobj, "general")
    ensures r.Ok? ==> r.value.population == Lookup(cobj.fields, "population").value
    ensures r.Ok? ==> r.value.general == Lookup(cobj.fields, "general").value
  {
    var npop :- SimConfig.Get2(cobj, "population", "N");
    var g :- Get(cobj, "general");
    var p := Lookup(cobj.fields, "population").value;
    var out :- Get(g, "outfile");
    var outfile :- SimConfig.Format(out, substs);
    var theta :- SimConfig.Get2(p, "mutation", "theta");
    var m :- Rates(theta, npop);
    var pp := if HasKey(cobj, "post process") then Some(Lookup(cobj.fields, "post process").value) else None;
    Ok(Head(g, p, outfile, m, pp))
  }

  /** `Config(cobj, subst)`. */
  function Load(cobj: Json, substs: seq<string>): (r: Result<Settings>)
  {
    var h :- ReadHead(cobj, substs);
    var gens :- Scale(h.population, h.general, "gens");
    var burnin :- Scale(h.population, h.general, "burnin");
    var outputPer :- Scale(h.population, h.general, "output per");
    var mode :- SimConfig.Get2(h.population, "mutation", "model");
    var mating :- Get(h.population, "mating");
    var model :- Get(mating, "model");
    Ok(Settings(h.general, h.population, h.postProcess, h.outfile, h.m, gens, burnin, outputPer,
      mode, model, MatingFloats(mating), AlleleLength(h.population)))
  }

  /** `gens`, `burnin` and `output_per` are the configuration's
      `population.N` times its `general.gens`, `general.burnin` and
      `general.output per` (see `ScaleOk`); `output per` has no default
      here. */
  lemma LoadScales(cobj: Json, substs: seq<string>)
    requires Load(cobj, substs).Ok?
    ensures var s := Load(cobj, substs).value;
      && HasKey(cobj, "population") && HasKey(cobj, "general")
      && s.population == Lookup(cobj.fields, "population").value
      && s.general == Lookup(cobj.fields, "general").value
      && Scale(s.population, s.general, "gens") == Ok(s.gens)
      && Scale(s.population, s.general, "burnin") == Ok(s.burnin)
      && Scale(s.population, s.general, "output per") == Ok(s.outputPer)
  {
    var h := ReadHead(cobj, substs);
    assert h.Ok?;
    var s := Load(cobj, substs).value;
    assert s.population == h.value.population && s.general == h.value.general;
    assert Scale(s.population, s.general, "gens") == Ok(s.gens);
    assert Scale(s.population, s.general, "burnin") == Ok(s.burnin);
  }

  /** A scaled setting is `N` times the general section's value. It
      fails exactly when either is missing or `*` refuses the pair: two
      numbers multiply, and an integer `N` repeats a string or a list
      (`"gens": "5"` with `N` 10 gives ten fives). */
  lemma ScaleOk(p: Json, g: Json, key: string)
    ensures Scale(p, g, key).Ok? <==>
      HasKey(p, "N") && HasKey(g, key)
      && SimConfig.Multipliable(Lookup(p.fields, "N").value, Lookup(g.fields, key).value)
    ensures HasKey(p, "N") && HasKey(g, key) ==>
      Scale(p, g, key) == SimConfig.Mul(Lookup(p.fields, "N").value, Lookup(g.fields, key).value)
    ensures HasKey(p, "N") && HasKey(g, key) ==>
      var n := Lookup(p.fields, "N").value; var x := Lookup(g.fields, key).value;
      SimConfig.AsInt(n).Some? && x.JString? ==> Scale(p, g, key) == Ok(JString(Times(x.s, SimConfig.AsInt(n).value)))
  {
    if HasKey(p, "N") && HasKey(g, key) {
      assert Get(p, "N") == Ok(Lookup(p.fields, "N").value);
      assert Get(g, key) == Ok(Lookup(g.fields, key).value);
    }
  }

  /** A configuration without a general or population section, or
      without `N`, fails before anything else is read. */
  lemma LoadNeedsN(cobj: Json, substs: seq<string>)
    requires SimConfig.Get2(cobj, "population", "N").Err?
    ensures Load(cobj, substs) == Err(SimConfig.Get2(cobj, "population", "N").error)
  {
  }

  // ---------------------------------------------------------------------
  // `Config.__getattr__`

  /** `name.replace('_', ' ')`. */
  function Spaced(name: string): string {
    Replace(name, '_', ' ')
  }

  /** The attributes `__init__` set; only the other names reach
      `__getattr__`. */
  function Attribute(s: Settings, name: string): Option<Json>
  {
    if name == "outfile" then Some(s.outfile)
    else if name == "m" then Some(JArray(s.m))
    else if name == "gens" then Some(s.gens)
    else if name == "burnin" then Some(s.burnin)
    else if name == "output_per" then Some(s.outputPer)
    else if name == "mode" then Some(s.mode)
    else if name == "model" then Some(s.model)
    else if name == "a" && |s.matingFloats| >= 1 then Some(JFloat(s.matingFloats[0]))
    else if name == "tau" && |s.matingFloats| >= 2 then Some(JFloat(s.matingFloats[1]))
    else if name == "sigma" && |s.matingFloats| >= 3 then Some(JFloat(s.matingFloats[2]))
    else if name == "allele_length" then Some(s.alleleLength)
    else if name == "_g" then Some(s.general)
    else if name == "_p" then Some(s.population)
    else if name == "_pp" then s.postProcess
    else None
  }

  /** `self._pp`. Without a `post process` section the attribute is not
      set and reading it goes through `__getattr__('_pp')` itself: that
      finds `' pp'` in the general or the population section, or else
      recurses until the recursion error, which the `except` clauses turn
      into a failure. */
  function PostProcess(s: Settings): (r: Option<Json>)
  {
    if s.postProcess.Some? then s.postProcess
    else if HasKey(s.general, " pp") then Some(Lookup(s.general.fields, " pp").value)
    else if HasKey(s.population, " pp") then Some(Lookup(s.population.fields, " pp").value)
    else None
  }

  /** `__getattr__(name)`: the name with underscores made spaces, looked
      up in the general section, then the population section, then the
      post-process section; every failure on the way is caught, and the
      last is reported as `KeyError(name)`. */
  function Cascade(s: Settings, name: string): (r: Result<Json>)
  {
    var key := Spaced(name);
    if HasKey(s.general, key) then Ok(Lookup(s.general.fields, key).value)
    else if HasKey(s.population, key) then Ok(Lookup(s.population.fields, key).value)
    else if PostProcess(s).Some? && HasKey(PostProcess(s).value, key) then
      Ok(Lookup(PostProcess(s).value.fields, key).value)
    else Err(KeyError(name))
  }

  /** `config.<name>`: a set attribute, else `__getattr__`. */
  function GetAttr(s: Settings, name: string): (r: Result<Json>)
  {
    match Attribute(s, name)
    case Some(v) => Ok(v)
    case None => Cascade(s, name)
  }

  /** `__getattr__` fails, with `KeyError(name)`, exactly when none of the
      three sections has the spaced name; otherwise the first section that
      has it answers. */
  lemma CascadeOrder(s: Settings, name: string)
    ensures var key := Spaced(name);
      Cascade(s, name).Err? <==>
        !HasKey(s.general, key) && !HasKey(s.population, key)
        && !(PostProcess(s).Some? && HasKey(PostProcess(s).value, key))
    ensures Cascade(s, name).Err? ==> Cascade(s, name) == Err(KeyError(name))
    ensures var key := Spaced(name);
      HasKey(s.general, key) ==> Cascade(s, name) == Ok(Lookup(s.general.fields, key).value)
    ensures var key := Spaced(name);
      !HasKey(s.general, key) && HasKey(s.population, key) ==>
        Cascade(s, name) == Ok(Lookup(s.population.fields, key).value)
  {
  }

  /** Underscores and spaces trade places: `simulate.py` stores a setting
      `some key` as `some_key`, and `__getattr__('some_key')` looks up
      `some key` again. */
  lemma SpacedUnderscored(key: string)
    requires '_' !in key
    ensures Spaced(SimConfig.Underscored(key)) == key
  {
  }

  /** A setting of the general section whose name has no underscore, and
      that `__init__` did not set, is read by its underscored name. */
  lemma ReadsGeneralSetting(s: Settings, key: string)
    requires '_' !in key && HasKey(s.general, key)
    requires Attribute(s, SimConfig.Underscored(key)).None?
    ensures GetAttr(s, SimConfig.Underscored(key)) == Ok(Lookup(s.general.fields, key).value)
  {
    SpacedUnderscored(key);
  }

  // ---------------------------------------------------------------------
  // `simulate`

  /** The two simulation entry points. */
  datatype Engine = InfiniteSitesEngine(settings: Settings) | InfiniteAllelesEngine(settings: Settings)

  /** `simulate(args)`: infinite sites for the mode `'infinite sites'`,
      infinite alleles for any other mode. */
  function Simulate(cobj: Json, substs: seq<string>): (r: Result<Engine>)
  {
    var s :- Load(cobj, substs);
    if s.mode == JString("infinite sites") then Ok(InfiniteSitesEngine(s)) else Ok(InfiniteAllelesEngine(s))
  }

  /** Infinite sites runs exactly for the mode `'infinite sites'`; every
      other mode, even an unknown one, runs infinite alleles, and a
      configuration that fails to load runs nothing. */
  lemma SimulateDispatch(cobj: Json, substs: seq<string>)
    ensures Load(cobj, substs).Err? <==> Simulate(cobj, substs).Err?
    ensures Simulate(cobj, substs).Ok? ==>
      Simulate(cobj, substs).value.settings == Load(cobj, substs).value
      && (Simulate(cobj, substs).value.InfiniteSitesEngine? <==> Load(cobj, substs).value.mode == JString("infinite sites"))
  {
  }
}
