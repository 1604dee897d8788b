/** selfingsim/simulate.py: reading a simulation's settings from its JSON
    configuration into the flat parameter dictionary `Config._params`.

    Population sizes and times are given in units of `N` and rates as
    population-scaled `theta`; the reader turns generations into absolute
    counts (times `N`) and each `theta` into a per-generation rate
    `theta / (4 N)`. A setting that is missing or malformed ends the
    program with a message (`sys.exit`); some mistakes instead raise a
    Python exception, which ends it too. Both are `Err` here. The file runs
    under Python 3: `/` is true division and `str >= float` raises
    `TypeError`. */
module SimConfig {
  import opened Wrappers
  import opened Json
  import opened Text

  /** `Config._params`. */
  type Params = map<string, Json>

  // ---------------------------------------------------------------------
  // Python arithmetic on JSON numbers

  /** The integer Python sees (`bool` is a subclass of `int`). */
  function AsInt(j: Json): (r: Option<int>)
    ensures r.Some? <==> (j.JInt? || j.JBool?)
  {
    match j
    case JInt(i) => Some(i)
    case JBool(b) => Some(if b then 1 else 0)
    case _ => None
  }

  /** A string or a list, which `*` repeats. */
  predicate Repeatable(j: Json) {
    j.JString? || j.JArray?
  }

  /** `j * n` for a string or a list `j`. */
  function Repeated(j: Json, n: int): (r: Json)
    requires Repeatable(j)
  {
    if j.JString? then JString(Times(j.s, n)) else JArray(Times(j.items, n))
  }

  /** The operands `*` accepts: two numbers, or an integer (a `bool`
      included) and a string or a list, in either order. */
  predicate Multipliable(a: Json, b: Json) {
    || (AsNumber(a).Some? && AsNumber(b).Some?)
    || (AsInt(a).Some? && Repeatable(b))
    || (Repeatable(a) && AsInt(b).Some?)
  }

  /** `a * b`: on numbers an `int` when both are integers and a `float`
      otherwise; an integer and a string or a list repeat the sequence;
      any other pair raises `TypeError`. */
  function Mul(a: Json, b: Json): (r: Result<Json>)
    ensures r.Ok? <==> Multipliable(a, b)
    ensures r.Err? ==> r.error == TypeError
    ensures AsNumber(a).Some? && AsNumber(b).Some? ==> AsNumber(r.value) == Some(AsNumber(a).value * AsNumber(b).value)
    ensures AsInt(a).Some? && Repeatable(b) ==> r.value == Repeated(b, AsInt(a).value)
    ensures Repeatable(a) && AsInt(b).Some? ==> r.value == Repeated(a, AsInt(b).value)
  {
    if AsInt(a).Some? && AsInt(b).Some? then
      var x, y := AsInt(a).value, AsInt(b).value;
      RealOfProduct(x, y);
      assert AsNumber(a) == Some(x as real) && AsNumber(b) == Some(y as real);
      assert AsNumber(JInt(x * y)) == Some((x * y) as real);
      assert (x * y) as real == AsNumber(a).value * AsNumber(b).value;
      Ok(JInt(x * y))
    else if AsNumber(a).Some? && AsNumber(b).Some? then Ok(JFloat(AsNumber(a).value * AsNumber(b).value))
    else if AsInt(a).Some? && Repeatable(b) then Ok(Repeated(b, AsInt(a).value))
    else if Repeatable(a) && AsInt(b).Some? then Ok(Repeated(a, AsInt(b).value))
    else Err(TypeError)
  }

  /** An integer times a string repeats the string: with `N` 10 and
      `gens` "5" the scaled setting is ten fives, not a number. */
  lemma StringGens()
    ensures Mul(JInt(10), JString("5")) == Ok(JString("5555555555"))
  {
    var t := Times("5", 10);
    assert forall k :: 0 <= k < |t| ==> t[k] == '5';
    assert t == "5555555555";
  }

  /** Converting a product of integers to a real multiplies the
      converted factors. */
  lemma {:induction false} RealOfProduct(x: int, y: int)
    ensures (x * y) as real == (x as real) * (y as real)
    decreases if y < 0 then -y else y
  {
    if y > 0 {
      RealOfProduct(x, y - 1);
      assert x * y == x * (y - 1) + x;
    } else if y < 0 {
      RealOfProduct(x, y + 1);
      assert x * y == x * (y + 1) - x;
    }
  }

  /** `a / b`, true division. */
  function Div(a: Json, b: Json): (r: Result<Json>)
    ensures r.Ok? ==>
      AsNumber(a).Some? && AsNumber(b).Some? && AsNumber(b).value != 0.0
      && r.value == JFloat(AsNumber(a).value / AsNumber(b).value)
  {
    if AsNumber(a).None? || AsNumber(b).None? then Err(TypeError)
    else if AsNumber(b).value == 0.0 then Err(ZeroDivisionError)
    else Ok(JFloat(AsNumber(a).value / AsNumber(b).value))
  }

  /** `rate / (4 * npop)`: a population-scaled rate per generation. */
  function Unscale(rate: Json, npop: Json): (r: Result<Json>)
  {
    var d :- Mul(JInt(4), npop);
    Div(rate, d)
  }

  /** With numbers, and a population size that is not zero, the rate is
      `rate / (4 N)`. */
  lemma UnscaleValue(rate: real, npop: int)
    requires npop != 0
    ensures Unscale(JFloat(rate), JInt(npop)) == Ok(JFloat(rate / (4 * npop) as real))
  {
  }

  // ---------------------------------------------------------------------
  // `str.format`

  datatype Numbering = Unset | Automatic | Manual

  /** The position of the first `c` in `s`, or `|s|`. */
  function IndexOf(s: string, c: char): (k: nat)
    ensures k <= |s| && c !in s[..k]
    ensures k < |s| ==> s[k] == c
  {
    if |s| == 0 then 0
    else if s[0] == c then 0
    else
      var k := 1 + IndexOf(s[1..], c);
      assert s[..k] == [s[0]] + s[1..][..k - 1];
      k
  }

  function Prepend(s: string, r: Result<string>): (q: Result<string>)
    ensures q.Ok? <==> r.Ok?
    ensures q.Ok? ==> q.value == s + r.value
  {
    if r.Ok? then Ok(s + r.value) else r
  }

  /** `t.format(*substs)` from field number `next` on: `{}` takes the next
      substitution, `{k}` the `k`-th, `{{` and `}}` stand for single
      braces; other field names are looked up as keywords, of which there
      are none. */
  function FormatFrom(t: string, substs: seq<string>, next: nat, numbering: Numbering): (r: Result<string>)
    decreases |t|
  {
    if |t| == 0 then Ok("")
    else if t[0] == '{' then
      if |t| >= 2 && t[1] == '{' then Prepend("{", FormatFrom(t[2..], substs, next, numbering))
      else
        var close := IndexOf(t, '}');
        if close == |t| then Err(ValueError("Single '{' encountered in format string"))
        else
          var field := t[1..close];
          var rest := t[close + 1..];
          if |field| == 0 then
            if numbering == Manual then Err(ValueError("cannot switch from manual field specification to automatic field numbering"))
            else if next >= |substs| then Err(IndexError)
            else Prepend(substs[next], FormatFrom(rest, substs, next + 1, Automatic))
          else if AllDigits(field) then
            if numbering == Automatic then Err(ValueError("cannot switch from automatic field numbering to manual field specification"))
            else if DigitsValue(field) >= |substs| then Err(IndexError)
            else Prepend(substs[DigitsValue(field)], FormatFrom(rest, substs, next, Manual))
          else Err(KeyError(field))
    else if t[0] == '}' then
      if |t| >= 2 && t[1] == '}' then Prepend("}", FormatFrom(t[2..], substs, next, numbering))
      else Err(ValueError("Single '}' encountered in format string"))
    else Prepend([t[0]], FormatFrom(t[1..], substs, next, numbering))
  }

  /** `x.format(*substs)`: only strings have `format`. */
  function Format(x: Json, substs: seq<string>): (r: Result<Json>)
    ensures !x.JString? ==> r == Err(AttributeError("format"))
  {
    if !x.JString? then Err(AttributeError("format"))
    else
      var s :- FormatFrom(x.s, substs, 0, Unset);
      Ok(JString(s))
  }

  predicate Plain(s: string) {
    '{' !in s && '}' !in s
  }

  /** Text without braces is copied unchanged. */
  lemma {:induction false} FormatPlain(t: string, substs: seq<string>, next: nat, numbering: Numbering)
    requires Plain(t)
    ensures FormatFrom(t, substs, next, numbering) == Ok(t)
  {
    if |t| > 0 {
      assert t[0] in t;
      assert forall c :: c in t[1..] ==> c in t;
      FormatPlain(t[1..], substs, next, numbering);
      assert [t[0]] + t[1..] == t;
    }
  }

  /** Plain text around one `{}` takes the first substitution; with none
      given the field cannot be filled. */
  lemma FormatOneField(a: string, b: string, substs: seq<string>)
    requires Plain(a) && Plain(b)
    ensures |substs| > 0 ==> Format(JString(a + "{}" + b), substs) == Ok(JString(a + substs[0] + b))
    ensures |substs| == 0 ==> Format(JString(a + "{}" + b), substs) == Err(IndexError)
  {
    var t := "{}" + b;
    assert a + "{}" + b == a + t;
    FormatPrefix(a, t, substs);
    assert t[0] == '{' && t[1] == '}' && t[1..1] == "" && t[2..] == b;
    assert IndexOf(t, '}') == 1;
    FormatPlain(b, substs, 1, Automatic);
    if |substs| > 0 {
      assert FormatFrom(t, substs, 0, Unset) == Prepend(substs[0], FormatFrom(b, substs, 1, Automatic));
      assert a + (substs[0] + b) == a + substs[0] + b;
    } else {
      assert FormatFrom(t, substs, 0, Unset) == Err(IndexError);
    }
  }

  /** Plain text before the rest is copied in front of it. */
  lemma {:induction false} FormatPrefix(a: string, t: string, substs: seq<string>)
    requires Plain(a)
    ensures FormatFrom(a + t, substs, 0, Unset) == Prepend(a, FormatFrom(t, substs, 0, Unset))
  {
    if |a| > 0 {
      assert a[0] in a;
      assert forall c :: c in a[1..] ==> c in a;
      assert (a + t)[0] == a[0] && a[0] != '{' && a[0] != '}';
      assert (a + t)[1..] == a[1..] + t;
      assert FormatFrom(a + t, substs, 0, Unset) == Prepend([a[0]], FormatFrom(a[1..] + t, substs, 0, Unset));
      FormatPrefix(a[1..], t, substs);
      var rt := FormatFrom(t, substs, 0, Unset);
      if rt.Ok? {
        assert [a[0]] + (a[1..] + rt.value) == a + rt.value;
      }
    } else {
      assert a + t == t;
      var rt := FormatFrom(t, substs, 0, Unset);
      if rt.Ok? {
        assert a + rt.value == rt.value;
      }
    }
  }

  // ---------------------------------------------------------------------
  // `_addparam`

  /** `key.replace(" ", "_")`. */
  function Underscored(key: string): string {
    Replace(key, ' ', '_')
  }

  /** `cobj[sec][key]`. */
  function Get2(cobj: Json, sec: string, key: string): (r: Result<Json>)
    ensures r.Ok? <==> HasKey(cobj, sec) && HasKey(Lookup(cobj.fields, sec).value, key)
  {
    var s :- Get(cobj, sec);
    Get(s, key)
  }

  /** `except KeyError: sys.exit(message)`; other failures pass through. */
  function Catch<T>(r: Result<T>, message: string): (q: Result<T>)
    ensures r.Ok? ==> q == r
    ensures r.Err? && r.error.KeyError? ==> q == Err(Exit(message))
    ensures r.Err? && !r.error.KeyError? ==> q == r
  {
    if r.Err? && r.error.KeyError? then Err(Exit(message)) else r
  }

  /** The optional transformation given to `_addparam`. */
  datatype Modifier = Unchanged | FormatWith(substs: seq<string>) | TimesN

  /** `mod(value)`; `TimesN` reads `N` from the parameters set so far. */
  function Modify(params: Params, mod: Modifier, value: Json): Result<Json> {
    match mod
    case Unchanged => Ok(value)
    case FormatWith(substs) => Format(value, substs)
    case TimesN => if "N" in params then Mul(params["N"], value) else Err(KeyError("N"))
  }

  function NotFound(key: string): string {
    "\"" + key + "\" not found in a config file."
  }

  /** `_addparam(cobj, sec, key, mod)`: `mod(cobj[sec][key])` stored under
      the key with spaces made underscores; a `KeyError`, whether from the
      lookup or from `mod`, ends the program naming the key. */
  function AddParam(params: Params, cobj: Json, sec: string, key: string, mod: Modifier): (r: Result<Params>)
    ensures r.Ok? ==> r.value.Keys == params.Keys + {Underscored(key)}
    ensures r.Ok? ==> forall k :: k in params && k != Underscored(key) ==> r.value[k] == params[k]
    ensures r.Ok? ==> Get2(cobj, sec, key).Ok? && Modify(params, mod, Get2(cobj, sec, key).value) == Ok(r.value[Underscored(key)])
  {
    var value :- Catch(Get2(cobj, sec, key), NotFound(key));
    var v :- Catch(Modify(params, mod, value), NotFound(key));
    Ok(params[Underscored(key) := v])
  }

  /** A missing section or key ends the program naming the key; a present
      one is stored, transformed, under the underscored key and nothing
      else changes. */
  lemma AddParamOutcome(params: Params, cobj: Json, sec: string, key: string, mod: Modifier)
    requires cobj.JObject?
    requires HasKey(cobj, sec) ==> Lookup(cobj.fields, sec).value.JObject?
    ensures !(HasKey(cobj, sec) && HasKey(Lookup(cobj.fields, sec).value, key)) ==>
      AddParam(params, cobj, sec, key, mod) == Err(Exit(NotFound(key)))
    ensures HasKey(cobj, sec) && HasKey(Lookup(cobj.fields, sec).value, key) ==>
      var value := Lookup(Lookup(cobj.fields, sec).value.fields, key).value;
      && (Modify(params, mod, value).Ok? ==>
        AddParam(params, cobj, sec, key, mod) == Ok(params[Underscored(key) := Modify(params, mod, value).value]))
      && (Modify(params, mod, value).Err? ==> AddParam(params, cobj, sec, key, mod).Err?)
  {
  }

  /** A key without spaces is stored under its own name. */
  lemma UnderscoredPlain(key: string)
    requires ' ' !in key
    ensures Underscored(key) == key
  {
  }

  // ---------------------------------------------------------------------
  // `_getmutationrate`

  /** One `{value, times}` entry: `times` copies of `value / (4 N)`;
      `value` is not read when `times` is not positive. */
  function Entry(r: Json, npop: Json): (q: Result<seq<Json>>)
  {
    var t :- Get(r, "times");
    if AsInt(t).None? then Err(TypeError)
    else if AsInt(t).value <= 0 then Ok([])
    else
      var v :- Get(r, "value");
      var m :- Unscale(v, npop);
      Ok(seq(AsInt(t).value, _ => m))
  }

  /** `[r["value"] / (4 * npop) for r in rate for _ in range(r["times"])]`. */
  function Expand(rate: seq<Json>, npop: Json): (q: Result<seq<Json>>)
  {
    if |rate| == 0 then Ok([])
    else
      var first :- Entry(rate[0], npop);
      var rest :- Expand(rate[1..], npop);
      Ok(first + rest)
  }

  /** Expanding consecutive entries expands each in turn. */
  lemma {:induction false} ExpandConcat(a: seq<Json>, b: seq<Json>, npop: Json)
    requires Expand(a, npop).Ok? && Expand(b, npop).Ok?
    ensures Expand(a + b, npop) == Ok(Expand(a, npop).value + Expand(b, npop).value)
  {
    if |a| > 0 {
      assert (a + b)[0] == a[0];
      assert (a + b)[1..] == a[1..] + b;
      var first := Entry(a[0], npop).value;
      var rest := Expand(a[1..], npop).value;
      ExpandConcat(a[1..], b, npop);
      assert first + (rest + Expand(b, npop).value) == (first + rest) + Expand(b, npop).value;
    } else {
      assert a + b == b;
      assert [] + Expand(b, npop).value == Expand(b, npop).value;
    }
  }

  /** The total of the `times` counts, negative ones counting nothing. */
  function TotalTimes(rate: seq<Json>): int
    requires forall k :: 0 <= k < |rate| ==> HasKey(rate[k], "times") && AsInt(Lookup(rate[k].fields, "times").value).Some?
  {
    if |rate| == 0 then 0
    else
      assert HasKey(rate[0], "times");
      var t := AsInt(Lookup(rate[0].fields, "times").value).value;
      (if t < 0 then 0 else t) + TotalTimes(rate[1..])
  }

  /** A successful expansion has as many rates as the `times` add up to. */
  lemma {:induction false} ExpandLength(rate: seq<Json>, npop: Json)
    requires Expand(rate, npop).Ok?
    ensures forall k :: 0 <= k < |rate| ==> HasKey(rate[k], "times") && AsInt(Lookup(rate[k].fields, "times").value).Some?
    ensures |Expand(rate, npop).value| == TotalTimes(rate)
  {
    if |rate| > 0 {
      ExpandLength(rate[1..], npop);
      forall k | 0 <= k < |rate|
        ensures HasKey(rate[k], "times") && AsInt(Lookup(rate[k].fields, "times").value).Some?
      {
        if k > 0 {
          assert rate[k] == rate[1..][k - 1];
        }
      }
    }
  }

  /** An entry with `times` = `n > 0` gives `n` copies of `value / (4 N)`. */
  lemma EntryCopies(value: real, n: nat, npop: int)
    requires n > 0 && npop != 0
    ensures Entry(JObject([("value", JFloat(value)), ("times", JInt(n))]), JInt(npop))
      == Ok(seq(n, _ => JFloat(value / (4 * npop) as real)))
  {
    var r := JObject([("value", JFloat(value)), ("times", JInt(n))]);
    assert Lookup(r.fields, "times") == Some(JInt(n));
    assert Lookup(r.fields, "value") == Some(JFloat(value)) by {
      assert r.fields[1].0 != "value";
    }
    UnscaleValue(value, npop);
  }

  /** `[m] * k`. */
  function Copies(m: Json, k: Json): (r: Result<seq<Json>>)
    ensures r.Ok? <==> AsInt(k).Some?
    ensures r.Ok? ==>
      |r.value| == (if AsInt(k).value < 0 then 0 else AsInt(k).value) && forall i :: 0 <= i < |r.value| ==> r.value[i] == m
  {
    if AsInt(k).None? then Err(TypeError)
    else if AsInt(k).value <= 0 then Ok([])
    else Ok(seq(AsInt(k).value, _ => m))
  }

  /** `[r / (4 * npop) for r in rate]`. */
  function UnscaleAll(rate: seq<Json>, npop: Json): (q: Result<seq<Json>>)
    ensures q.Ok? ==> |q.value| == |rate|
    ensures q.Ok? ==> forall k :: 0 <= k < |rate| ==> Unscale(rate[k], npop) == Ok(q.value[k])
  {
    if |rate| == 0 then Ok([])
    else
      var first :- Unscale(rate[0], npop);
      var rest :- UnscaleAll(rate[1..], npop);
      Ok([first] + rest)
  }

  /** `_getmutationrate(rate, npop)`: the per-locus rates `m`.
      - a `float` is copied once per locus;
      - a list of dictionaries is expanded entry by entry;
      - a list starting with a `float` must give one rate per locus;
      - anything else ends the program. */
  function MutationRates(params: Params, rate: Json, npop: Json): (r: Result<Params>)
    ensures rate.JArray? && |rate.items| == 0 ==> r == Err(IndexError)
    ensures !rate.JFloat? && !rate.JArray? ==> r == Err(Exit("Mutation parameters in wrong format."))
    ensures r.Ok? <==> Rates(params, rate, npop).Ok?
    ensures r.Ok? ==> r.value == params["m" := JArray(Rates(params, rate, npop).value)]
  {
    var ms :- Rates(params, rate, npop);
    Ok(params["m" := JArray(ms)])
  }

  /** The rates `_getmutationrate` stores under `m`. */
  function Rates(params: Params, rate: Json, npop: Json): (r: Result<seq<Json>>)
  {
    if rate.JFloat? then
      var m :- Unscale(rate, npop);
      var loci :- if "loci" in params then Ok(params["loci"]) else Err(KeyError("loci"));
      Copies(m, loci)
    else if rate.JArray? && |rate.items| == 0 then Err(IndexError)
    else if rate.JArray? && rate.items[0].JObject? then Expand(rate.items, npop)
    else if rate.JArray? && rate.items[0].JFloat? then
      var loci :- if "loci" in params then Ok(params["loci"]) else Err(KeyError("loci"));
      if AsNumber(loci) != Some(|rate.items| as real) then Err(Exit("Mutation parametrs not fully specified."))
      else UnscaleAll(rate.items, npop)
    else Err(Exit("Mutation parameters in wrong format."))
  }

  /** A scalar `theta` gives each of the `loci` loci the rate
      `theta / (4 N)`. */
  lemma ScalarRate(params: Params, theta: real, npop: int, loci: nat)
    requires npop != 0 && "loci" in params && params["loci"] == JInt(loci)
    ensures MutationRates(params, JFloat(theta), JInt(npop))
      == Ok(params["m" := JArray(seq(loci, _ => JFloat(theta / (4 * npop) as real)))])
  {
    UnscaleValue(theta, npop);
    var m := JFloat(theta / (4 * npop) as real);
    var ms := Copies(m, JInt(loci)).value;
    assert ms == seq(loci, _ => m);
  }

  /** A list of `float`s whose length differs from the number of loci
      under Python's numeric `==` (so `3.0` and `True` count as 3 and 1)
      ends the program; one of the right length gives locus `k` the rate
      `theta_k / (4 N)`. */
  lemma RateListLength(params: Params, rates: seq<Json>, npop: Json)
    requires |rates| > 0 && rates[0].JFloat? && "loci" in params
    ensures AsNumber(params["loci"]) != Some(|rates| as real) ==>
      MutationRates(params, JArray(rates), npop) == Err(Exit("Mutation parametrs not fully specified."))
    ensures AsNumber(params["loci"]) == Some(|rates| as real) ==>
      (MutationRates(params, JArray(rates), npop).Ok? <==> UnscaleAll(rates, npop).Ok?)
    ensures MutationRates(params, JArray(rates), npop).Ok? ==>
      var ms := MutationRates(params, JArray(rates), npop).value["m"].items;
      |ms| == |rates| && AsNumber(params["loci"]) == Some(|rates| as real)
      && forall k :: 0 <= k < |rates| ==> Unscale(rates[k], npop) == Ok(ms[k])
  {
  }

  /** A `float` number of loci, or `True` for one locus, accepts a rate
      list of that length. */
  lemma NumericLoci(params: Params, theta: real, npop: int)
    requires npop != 0
    ensures var p := params["loci" := JFloat(3.0)];
      MutationRates(p, JArray([JFloat(theta), JFloat(theta), JFloat(theta)]), JInt(npop)).Ok?
    ensures var p := params["loci" := JBool(true)];
      MutationRates(p, JArray([JFloat(theta)]), JInt(npop)).Ok?
  {
    UnscaleValue(theta, npop);
    var m := JFloat(theta);
    assert UnscaleAll([m], JInt(npop)).Ok?;
    assert UnscaleAll([m, m], JInt(npop)).Ok?;
    assert [m, m, m][1..] == [m, m];
    assert UnscaleAll([m, m, m], JInt(npop)).Ok?;
  }

  // ---------------------------------------------------------------------
  // `_addmutation`

  /** `_addmutation(cobj)`: the mutation model, its rates and the allele
      length (1 under infinite alleles). Any `KeyError` on the way ends the
      program as an unrecognised model. */
  function AddMutation(params: Params, cobj: Json): (r: Result<Params>)
  {
    var mutation :- Catch(Get2(cobj, "population", "mutation"), "Settings for mutational model not found in a config file.");
    Catch(MutationModel(params, mutation), "Unrecognized mutation model.")
  }

  /** The body of `_addmutation`'s second `try`. */
  function MutationModel(params: Params, mutation: Json): (r: Result<Params>)
  {
    var model :- Get(mutation, "model");
    var npop :- if "N" in params then Ok(params["N"]) else Err(KeyError("N"));
    if model == JString("infinite alleles") || model == JString("infinite sites") then
      var p1 := params["mutation_model" := model];
      var theta :- Get(mutation, "theta");
      var p2 :- MutationRates(p1, theta, npop);
      if model == JString("infinite alleles") then Ok(p2["allele_length" := JInt(1)])
      else
        var len :- Get(mutation, "allele length");
        Ok(p2["allele_length" := len])
    else Err(Exit("Unrecognized mutation model."))
  }

  /** A configured mutation model is one of the two names; infinite alleles
      has alleles of length 1, infinite sites the configured length; the
      rates are those of `theta`. */
  lemma AddMutationOutcome(params: Params, cobj: Json)
    requires AddMutation(params, cobj).Ok?
    ensures var mutation := Get2(cobj, "population", "mutation").value;
      var p := AddMutation(params, cobj).value;
      && "mutation_model" in p && "allele_length" in p && "m" in p
      && (p["mutation_model"] == JString("infinite alleles") || p["mutation_model"] == JString("infinite sites"))
      && Get(mutation, "model") == Ok(p["mutation_model"])
      && (p["mutation_model"] == JString("infinite alleles") ==> p["allele_length"] == JInt(1))
      && (p["mutation_model"] == JString("infinite sites") ==> Get(mutation, "allele length") == Ok(p["allele_length"]))
      && MutationRates(params["mutation_model" := p["mutation_model"]], Get(mutation, "theta").value, params["N"]).Ok?
      && p["m"] == MutationRates(params["mutation_model" := p["mutation_model"]], Get(mutation, "theta").value, params["N"]).value["m"]
  {
  }

  /** Any other model name ends the program. */
  lemma UnknownMutationModel(params: Params, cobj: Json, model: Json)
    requires "N" in params
    requires Get2(cobj, "population", "mutation").Ok?
    requires Get(Get2(cobj, "population", "mutation").value, "model") == Ok(model)
    requires model != JString("infinite alleles") && model != JString("infinite sites")
    ensures AddMutation(params, cobj) == Err(Exit("Unrecognized mutation model."))
  {
  }

  // ---------------------------------------------------------------------
  // `_addmating`

  /** `_pure_hermaphroditism(mating)`: `s*`, or else `s tilde` and `tau`. */
  function PureHermaphroditism(params: Params, mating: Json): (r: Result<Params>)
  {
    match Get(mating, "s*")
    case Ok(s) => Ok(params["sstar" := s])
    case Err(e) =>
      if !e.KeyError? then Err(e)
      else
        var stilde :- Get(mating, "s tilde");
        var tau :- Get(mating, "tau");
        Ok(params["stilde" := stilde]["tau" := tau])
  }

  /** `_androdioecy(mating)`. */
  function Androdioecy(params: Params, mating: Json): (r: Result<Params>)
  {
    var p :- PureHermaphroditism(params, mating);
    var nh :- Get(mating, "N_hermaphrodites");
    Ok(p["N_hermaphrodites" := nh])
  }

  /** The `except KeyError` branch of `_gynodioecy`. */
  function GynodioecyFallback(params: Params, mating: Json): (r: Result<Params>)
  {
    var tau :- Get(mating, "tau");
    var a :- Get(mating, "a");
    var sigma :- Get(mating, "sigma");
    Ok(params["tau" := tau]["a" := a]["sigma" := sigma])
  }

  /** `_gynodioecy(mating)`: `s*` and `H`, or else `tau`, `a` and `sigma`
      (keeping an `s*` already stored), then the number of
      hermaphrodites. */
  function Gynodioecy(params: Params, mating: Json): (r: Result<Params>)
  {
    var p :- match Get(mating, "s*")
      case Ok(s) =>
        (match Get(mating, "H")
         case Ok(h) => Ok(params["sstar" := s]["H" := h])
         case Err(e) => if e.KeyError? then GynodioecyFallback(params["sstar" := s], mating) else Err(e))
      case Err(e) => if e.KeyError? then GynodioecyFallback(params, mating) else Err(e);
    var nh :- Get(mating, "N_hermaphrodites");
    Ok(p["N_hermaphrodites" := nh])
  }

  /** `_addmating(cobj)`: the mating model and its parameters. */
  function AddMating(params: Params, cobj: Json): (r: Result<Params>)
  {
    var mating :- Catch(Get2(cobj, "population", "mating"), "mating scheme not specified.");
    var model :- Catch(Get(mating, "model"), "Mating model(scheme) not specified.");
    var p := params["mating_model" := model];
    if model == JString("pure hermaphroditism") then PureHermaphroditism(p, mating)
    else if model == JString("androdioecy") then Androdioecy(p, mating)
    else if model == JString("gynodioecy") then Gynodioecy(p, mating)
    else Err(Exit("Unrecognized mating model."))
  }

  /** A configured mating model is one of the three names; any other name
      ends the program. */
  lemma AddMatingModel(params: Params, cobj: Json)
    requires Get2(cobj, "population", "mating").Ok?
    requires Get(Get2(cobj, "population", "mating").value, "model").Ok?
    ensures var model := Get(Get2(cobj, "population", "mating").value, "model").value;
      && (AddMating(params, cobj).Ok? ==>
        "mating_model" in AddMating(params, cobj).value && AddMating(params, cobj).value["mating_model"] == model
        && (model == JString("pure hermaphroditism") || model == JString("androdioecy") || model == JString("gynodioecy")))
      && (!(model == JString("pure hermaphroditism") || model == JString("androdioecy") || model == JString("gynodioecy")) ==>
        AddMating(params, cobj) == Err(Exit("Unrecognized mating model.")))
  {
    var mating := Get2(cobj, "population", "mating").value;
    var model := Get(mating, "model").value;
    var p := params["mating_model" := model];
    if model == JString("gynodioecy") {
      GynodioecyKeeps(p, mating, "mating_model");
    } else if model == JString("androdioecy") {
      assert PureHermaphroditism(p, mating).Ok? ==> PureHermaphroditism(p, mating).value["mating_model"] == model;
    }
  }

  /** `_gynodioecy` only adds settings. */
  lemma GynodioecyKeeps(params: Params, mating: Json, k: string)
    requires k in params && k !in {"sstar", "H", "tau", "a", "sigma", "N_hermaphrodites"}
    ensures Gynodioecy(params, mating).Ok? ==>
      k in Gynodioecy(params, mating).value && Gynodioecy(params, mating).value[k] == params[k]
  {
  }

  /** Gynodioecy with `s*` and `H` stores those two; without `s*` it stores
      `tau`, `a` and `sigma` instead. Both store the number of
      hermaphrodites. */
  lemma GynodioecyChoice(params: Params, mating: Json)
    requires mating.JObject? && Gynodioecy(params, mating).Ok?
    ensures var p := Gynodioecy(params, mating).value;
      && "N_hermaphrodites" in p && Get(mating, "N_hermaphrodites") == Ok(p["N_hermaphrodites"])
      && (HasKey(mating, "s*") && HasKey(mating, "H") ==>
        "sstar" in p && "H" in p && Get(mating, "s*") == Ok(p["sstar"]) && Get(mating, "H") == Ok(p["H"]))
      && (!HasKey(mating, "s*") ==>
        "tau" in p && "a" in p && "sigma" in p && "sstar" !in p - params.Keys
        && Get(mating, "tau") == Ok(p["tau"]) && Get(mating, "a") == Ok(p["a"]) && Get(mating, "sigma") == Ok(p["sigma"]))
  {
  }

  // ---------------------------------------------------------------------
  // `_addinitgenotype`

  /** `all(i >= 0.0 for i in init)`: stops at the first negative number;
      a value that is not a number cannot be compared. */
  function AllNonNegative(items: seq<Json>): (r: Result<bool>)
  {
    if |items| == 0 then Ok(true)
    else if AsNumber(items[0]).None? then Err(TypeError)
    else if AsNumber(items[0]).value < 0.0 then Ok(false)
    else AllNonNegative(items[1..])
  }

  /** When the test passes every item is a non-negative number. */
  lemma {:induction false} AllNonNegativeSound(items: seq<Json>, k: nat)
    requires AllNonNegative(items) == Ok(true) && k < |items|
    ensures AsNumber(items[k]).Some? && AsNumber(items[k]).value >= 0.0
  {
    if k > 0 {
      AllNonNegativeSound(items[1..], k - 1);
    }
  }

  /** The sum of numbers. */
  function Total(items: seq<Json>): real
    requires forall k :: 0 <= k < |items| ==> AsNumber(items[k]).Some?
  {
    if |items| == 0 then 0.0 else AsNumber(items[0]).value + Total(items[1..])
  }

  /** The value `_addinitgenotype(cobj)` stores: `"unique"` and
      `"monomorphic"` are kept, a positive `int` is a number of alleles, and
      a list of non-negative numbers becomes frequencies. */
  function InitGenotype(cobj: Json): (r: Result<Json>)
  {
    var init :- Get2(cobj, "population", "init");
    if init == JString("unique") || init == JString("monomorphic") then Ok(JArray([init]))
    else if init.JInt? && init.i > 0 then Ok(JArray([JString("count"), init]))
    else
      match Iterate(init)
      case None => Err(Exit("Unknown init."))
      case Some(items) => Frequencies(items)
  }

  /** The list branch of `_addinitgenotype`: the test for negative
      numbers, then each number divided by their sum. */
  function Frequencies(items: seq<Json>): (r: Result<Json>)
  {
    match AllNonNegative(items)
    case Err(_) => Err(Exit("Unknown init."))
    case Ok(ok) =>
      if !ok then Err(Exit("Initial frequencies of alleles must be all non-negative."))
      else
        assert forall k :: 0 <= k < |items| ==> AsNumber(items[k]).Some? by {
          forall k | 0 <= k < |items| ensures AsNumber(items[k]).Some? {
            AllNonNegativeSound(items, k);
          }
        }
        var norm := Total(items);
        if |items| > 0 && norm == 0.0 then Err(ZeroDivisionError)
        else
          Ok(JArray([JString("frequency"),
            JArray(seq(|items|, k requires 0 <= k < |items| && norm != 0.0 => JFloat(AsNumber(items[k]).value / norm)))]))
  }

  /** `_addinitgenotype(cobj)`: stores the initial genotype and changes
      nothing else. */
  function AddInitGenotype(params: Params, cobj: Json): (r: Result<Params>)
    ensures r.Ok? <==> InitGenotype(cobj).Ok?
    ensures r.Ok? ==> r.value == params["initial_genotype" := InitGenotype(cobj).value]
  {
    var g :- InitGenotype(cobj);
    Ok(params["initial_genotype" := g])
  }

  /** A list of non-negative counts, not all zero, becomes the list of
      their proportions, in order. */
  lemma InitFrequencies(cobj: Json, counts: seq<Json>)
    requires Get2(cobj, "population", "init") == Ok(JArray(counts))
    requires forall k :: 0 <= k < |counts| ==> AsNumber(counts[k]).Some? && AsNumber(counts[k]).value >= 0.0
    requires Total(counts) != 0.0
    ensures InitGenotype(cobj).Ok?
    ensures var g := InitGenotype(cobj).value;
      g.JArray? && |g.items| == 2 && g.items[0] == JString("frequency")
      && g.items[1].JArray? && |g.items[1].items| == |counts|
      && forall k :: 0 <= k < |counts| ==> g.items[1].items[k] == JFloat(AsNumber(counts[k]).value / Total(counts))
  {
    AllNonNegativeTrue(counts);
    assert InitGenotype(cobj) == Frequencies(counts);
  }

  lemma {:induction false} AllNonNegativeTrue(items: seq<Json>)
    requires forall k :: 0 <= k < |items| ==> AsNumber(items[k]).Some? && AsNumber(items[k]).value >= 0.0
    ensures AllNonNegative(items) == Ok(true)
  {
    if |items| > 0 {
      assert forall k :: 0 <= k < |items[1..]| ==> items[1..][k] == items[k + 1];
      AllNonNegativeTrue(items[1..]);
    }
  }

  /** A negative entry met before any value that is not a number ends the
      program. */
  lemma InitNegative(cobj: Json, counts: seq<Json>, k: nat)
    requires Get2(cobj, "population", "init") == Ok(JArray(counts))
    requires k < |counts| && AsNumber(counts[k]).Some? && AsNumber(counts[k]).value < 0.0
    requires forall j :: 0 <= j < k ==> AsNumber(counts[j]).Some? && AsNumber(counts[j]).value >= 0.0
    ensures InitGenotype(cobj) == Err(Exit("Initial frequencies of alleles must be all non-negative."))
  {
    NegativeFound(counts, k);
  }

  lemma {:induction false} NegativeFound(items: seq<Json>, k: nat)
    requires k < |items| && AsNumber(items[k]).Some? && AsNumber(items[k]).value < 0.0
    requires forall j :: 0 <= j < k ==> AsNumber(items[j]).Some? && AsNumber(items[j]).value >= 0.0
    ensures AllNonNegative(items) == Ok(false)
  {
    if k > 0 {
      assert forall j :: 0 <= j < k - 1 ==> items[1..][j] == items[j + 1];
      NegativeFound(items[1..], k - 1);
    }
  }

  /** A number that is neither a positive `int` nor a known name ends the
      program, as do `null` and booleans. */
  lemma InitScalar(cobj: Json)
    requires Get2(cobj, "population", "init").Ok?
    requires var init := Get2(cobj, "population", "init").value;
      init.JNull? || init.JBool? || init.JFloat? || (init.JInt? && init.i <= 0)
    ensures InitGenotype(cobj) == Err(Exit("Unknown init."))
  {
  }

  // ---------------------------------------------------------------------
  // `Config`

  /** `_params["output_per"]`: `N` times `output per` when given, else `N`
      times the (already scaled) `gens` times `burnin`. */
  function OutputPer(params: Params, cobj: Json): (r: Result<Json>)
    requires "N" in params && "gens" in params && "burnin" in params
  {
    match Get2(cobj, "general", "output per")
    case Ok(x) => Mul(params["N"], x)
    case Err(e) =>
      if !e.KeyError? then Err(e)
      else
        var g :- Mul(params["gens"], params["burnin"]);
        Mul(params["N"], g)
  }

  /** The first four simple settings: `N`, `loci`, `r` and `outfile`. */
  function BasicParams(cobj: Json, substs: seq<string>): (r: Result<Params>)
    ensures r.Ok? ==> "N" in r.value && Get2(cobj, "population", "N") == Ok(r.value["N"])
  {
    KeysWithoutSpaces();
    var p1 :- AddParam(map[], cobj, "population", "N", Unchanged);
    var p2 :- AddParam(p1, cobj, "population", "loci", Unchanged);
    var p3 :- AddParam(p2, cobj, "population", "r", Unchanged);
    AddParam(p3, cobj, "general", "outfile", FormatWith(substs))
  }

  /** The simple settings of `Config(cobj, substs)`, in order. */
  function SimpleParams(cobj: Json, substs: seq<string>): (r: Result<Params>)
    ensures r.Ok? ==> "N" in r.value && "gens" in r.value && "burnin" in r.value
  {
    KeysWithoutSpaces();
    var p4 :- BasicParams(cobj, substs);
    var p5 :- AddParam(p4, cobj, "general", "gens", TimesN);
    var p6 :- AddParam(p5, cobj, "general", "burnin", TimesN);
    AddParam(p6, cobj, "general", "debug", Unchanged)
  }

  /** The simple settings' keys have no spaces. */
  lemma KeysWithoutSpaces()
    ensures Underscored("N") == "N" && Underscored("loci") == "loci" && Underscored("r") == "r"
    ensures Underscored("outfile") == "outfile" && Underscored("gens") == "gens"
    ensures Underscored("burnin") == "burnin" && Underscored("debug") == "debug"
  {
    UnderscoredPlain("N");
    UnderscoredPlain("loci");
    UnderscoredPlain("r");
    UnderscoredPlain("outfile");
    UnderscoredPlain("gens");
    UnderscoredPlain("burnin");
    UnderscoredPlain("debug");
  }

  /** The simple settings followed by the output period. */
  function Scaled(cobj: Json, substs: seq<string>): (r: Result<Params>)
    ensures r.Ok? ==> "N" in r.value && "gens" in r.value && "burnin" in r.value && "output_per" in r.value
  {
    var p7 :- SimpleParams(cobj, substs);
    var out :- OutputPer(p7, cobj);
    Ok(p7["output_per" := out])
  }

  /** `Config(cobj, substs)`: the simple settings, the output period, then
      mating, mutation and initial genotypes, in that order. */
  function Setup(cobj: Json, substs: seq<string>): (r: Result<Params>)
  {
    var p8 :- Scaled(cobj, substs);
    Models(p8, cobj)
  }

  /** The settings object; `_params` is filled step by step. */
  class Config {
    var params: Params

    constructor ()
      ensures params == map[]
    {
      params := map[];
    }

    /** `__getattr__`: `KeyError` for a setting that is not there. */
    function Attr(name: string): (r: Result<Json>)
      reads this
      ensures r.Ok? <==> name in params
      ensures r.Ok? ==> r.value == params[name]
    {
      if name in params then Ok(params[name]) else Err(KeyError(name))
    }

    /** Applies one step: the new settings, or the failure that ends the
        program. */
    method Apply(step: Result<Params>) returns (failure: Option<PyError>)
      modifies this
      ensures step.Ok? ==> failure == None && params == step.value
      ensures step.Err? ==> failure == Some(step.error) && params == old(params)
    {
      if step.Err? {
        return Some(step.error);
      }
      params := step.value;
      failure := None;
    }

    /** `_addparam`. */
    method AddParamTo(cobj: Json, sec: string, key: string, mod: Modifier) returns (failure: Option<PyError>)
      modifies this
      ensures var s := AddParam(old(params), cobj, sec, key, mod);
        (s.Ok? ==> failure == None && params == s.value) && (s.Err? ==> failure == Some(s.error))
    {
      var value := Catch(Get2(cobj, sec, key), NotFound(key));
      if value.Err? {
        return Some(value.error);
      }
      var v := Catch(Modify(params, mod, value.value), NotFound(key));
      if v.Err? {
        return Some(v.error);
      }
      params := params[Underscored(key) := v.value];
      failure := None;
    }
  }

  /** The simple settings, one `_addparam` after another. */
  method AddSimpleParams(c: Config, cobj: Json, substs: seq<string>) returns (failure: Option<PyError>)
    requires c.params == map[]
    modifies c
    ensures var s := SimpleParams(cobj, substs);
      (s.Ok? ==> failure == None && c.params == s.value) && (s.Err? ==> failure == Some(s.error))
  {
    failure := c.AddParamTo(cobj, "population", "N", Unchanged);
    if failure.Some? { return; }
    failure := c.AddParamTo(cobj, "population", "loci", Unchanged);
    if failure.Some? { return; }
    failure := c.AddParamTo(cobj, "population", "r", Unchanged);
    if failure.Some? { return; }
    failure := c.AddParamTo(cobj, "general", "outfile", FormatWith(substs));
    if failure.Some? { return; }
    failure := c.AddParamTo(cobj, "general", "gens", TimesN);
    if failure.Some? { return; }
    failure := c.AddParamTo(cobj, "general", "burnin", TimesN);
    if failure.Some? { return; }
    failure := c.AddParamTo(cobj, "general", "debug", Unchanged);
  }

  /** The simple settings, then the output period. */
  method AddScaledParams(c: Config, cobj: Json, substs: seq<string>) returns (failure: Option<PyError>)
    requires c.params == map[]
    modifies c
    ensures var s := Scaled(cobj, substs);
      (s.Ok? ==> failure == None && c.params == s.value) && (s.Err? ==> failure == Some(s.error))
  {
    failure := AddSimpleParams(c, cobj, substs);
    if failure.Some? { return; }
    var out := OutputPer(c.params, cobj);
    if out.Err? { return Some(out.error); }
    c.params := c.params["output_per" := out.value];
  }

  /** The mating, mutation and initial-genotype steps, in that order. */
  function Models(params: Params, cobj: Json): (r: Result<Params>)
  {
    var p9 :- AddMating(params, cobj);
    var p10 :- AddMutation(p9, cobj);
    AddInitGenotype(p10, cobj)
  }

  /** Applies the mating, mutation and initial-genotype steps. */
  method AddModels(c: Config, cobj: Json) returns (failure: Option<PyError>)
    modifies c
    ensures var s := Models(old(c.params), cobj);
      (s.Ok? ==> failure == None && c.params == s.value) && (s.Err? ==> failure == Some(s.error))
  {
    ghost var p8 := c.params;
    var s9 := AddMating(c.params, cobj);
    failure := c.Apply(s9);
    if failure.Some? {
      assert Models(p8, cobj) == Err(s9.error);
      return;
    }
    var s10 := AddMutation(c.params, cobj);
    failure := c.Apply(s10);
    if failure.Some? {
      assert Models(p8, cobj) == Err(s10.error);
      return;
    }
    var s11 := AddInitGenotype(c.params, cobj);
    failure := c.Apply(s11);
    assert Models(p8, cobj) == s11;
  }

  /** `Config(cobj, substs)`, step by step. */
  method NewConfig(cobj: Json, substs: seq<string>) returns (r: Result<Config>)
    ensures Setup(cobj, substs).Ok? ==> r.Ok? && fresh(r.value) && r.value.params == Setup(cobj, substs).value
    ensures Setup(cobj, substs).Err? ==> r == Err(Setup(cobj, substs).error)
  {
    var c := new Config();
    var f := AddScaledParams(c, cobj, substs);
    if f.Some? { return Err(f.value); }
    f := AddModels(c, cobj);
    if f.Some? { return Err(f.value); }
    r := Ok(c);
  }

  /** The values of the simple settings. */
  lemma SimpleParamsValues(cobj: Json, substs: seq<string>)
    requires SimpleParams(cobj, substs).Ok?
    ensures var p := SimpleParams(cobj, substs).value;
      && Get2(cobj, "population", "N") == Ok(p["N"])
      && Mul(p["N"], Get2(cobj, "general", "gens").value) == Ok(p["gens"])
      && Mul(p["N"], Get2(cobj, "general", "burnin").value) == Ok(p["burnin"])
  {
    KeysWithoutSpaces();
    var p4 := BasicParams(cobj, substs).value;
    var p5 := AddParam(p4, cobj, "general", "gens", TimesN).value;
    var p6 := AddParam(p5, cobj, "general", "burnin", TimesN).value;
    var p7 := AddParam(p6, cobj, "general", "debug", Unchanged).value;
    assert p7 == SimpleParams(cobj, substs).value;
    assert p5["gens"] == p7["gens"] && p6["burnin"] == p7["burnin"];
  }

  /** The simple settings and the output period, as `Config` stores them. */
  lemma ScaledValues(cobj: Json, substs: seq<string>)
    requires Scaled(cobj, substs).Ok?
    ensures ScaledAsConfigured(cobj, Scaled(cobj, substs).value)
  {
    var p7 := SimpleParams(cobj, substs).value;
    SimpleParamsValues(cobj, substs);
    assert Scaled(cobj, substs).value == p7["output_per" := OutputPer(p7, cobj).value];
  }

  /** `gens` and `burnin` are `N` times the configured values, and
      `output_per` is `N` times `output per`, or, without it, `N` times the
      scaled `gens` times the scaled `burnin`. */
  predicate ScaledAsConfigured(cobj: Json, p: Params)
  {
    && "N" in p && "gens" in p && "burnin" in p && "output_per" in p
    && Get2(cobj, "population", "N") == Ok(p["N"])
    && Get2(cobj, "general", "gens").Ok? && Get2(cobj, "general", "burnin").Ok?
    && Mul(p["N"], Get2(cobj, "general", "gens").value) == Ok(p["gens"])
    && Mul(p["N"], Get2(cobj, "general", "burnin").value) == Ok(p["burnin"])
    && (Get2(cobj, "general", "output per").Ok? ==>
      Mul(p["N"], Get2(cobj, "general", "output per").value) == Ok(p["output_per"]))
    && (Get2(cobj, "general", "output per").Err? ==>
      Mul(p["gens"], p["burnin"]).Ok? && Mul(p["N"], Mul(p["gens"], p["burnin"]).value) == Ok(p["output_per"]))
  }

  /** The later steps keep the scaled settings, so a loaded configuration
      holds them as configured. */
  lemma SetupScales(cobj: Json, substs: seq<string>)
    requires Setup(cobj, substs).Ok?
    ensures ScaledAsConfigured(cobj, Setup(cobj, substs).value)
  {
    ScaledValues(cobj, substs);
    SetupKeepsScaled(cobj, substs);
    KeepsScaled(cobj, Scaled(cobj, substs).value, Setup(cobj, substs).value);
  }

  /** Settings that agree on the scaled keys agree on being as
      configured. */
  lemma KeepsScaled(cobj: Json, p: Params, q: Params)
    requires ScaledAsConfigured(cobj, p)
    requires forall k :: k in {"N", "gens", "burnin", "output_per"} ==> k in q && q[k] == p[k]
    ensures ScaledAsConfigured(cobj, q)
  {
    assert "N" in {"N", "gens", "burnin", "output_per"};
    assert "gens" in {"N", "gens", "burnin", "output_per"};
    assert "burnin" in {"N", "gens", "burnin", "output_per"};
    assert "output_per" in {"N", "gens", "burnin", "output_per"};
  }

  /** Mating, mutation and the initial genotype leave the scaled settings
      alone. */
  lemma SetupKeepsScaled(cobj: Json, substs: seq<string>)
    requires Setup(cobj, substs).Ok?
    ensures forall k :: k in {"N", "gens", "burnin", "output_per"} ==>
      k in Setup(cobj, substs).value && Setup(cobj, substs).value[k] == Scaled(cobj, substs).value[k]
  {
    SetupStages(cobj, substs);
    MatingMutationKeep(cobj, Scaled(cobj, substs).value);
  }

  /** The results of the steps of a configuration that loads. */
  lemma SetupStages(cobj: Json, substs: seq<string>)
    requires Setup(cobj, substs).Ok?
    ensures Scaled(cobj, substs).Ok?
    ensures var p9 := AddMating(Scaled(cobj, substs).value, cobj);
      p9.Ok? && AddMutation(p9.value, cobj).Ok?
      && Setup(cobj, substs).value == AddMutation(p9.value, cobj).value["initial_genotype" := InitGenotype(cobj).value]
  {
  }

  /** Mating and mutation leave the scaled settings alone. */
  lemma MatingMutationKeep(cobj: Json, p8: Params)
    requires "N" in p8 && "gens" in p8 && "burnin" in p8 && "output_per" in p8
    requires AddMating(p8, cobj).Ok? && AddMutation(AddMating(p8, cobj).value, cobj).Ok?
    ensures var p10 := AddMutation(AddMating(p8, cobj).value, cobj).value;
      forall k :: k in {"N", "gens", "burnin", "output_per"} ==> k in p10 && p10[k] == p8[k]
  {
    var p9 := AddMating(p8, cobj).value;
    forall k | k in {"N", "gens", "burnin", "output_per"}
      ensures k in AddMutation(p9, cobj).value && AddMutation(p9, cobj).value[k] == p8[k]
    {
      AddMatingKeeps(p8, cobj, k);
      AddMutationKeeps(p9, cobj, k);
    }
  }

  /** `_addmating` only sets the mating settings. */
  lemma AddMatingKeeps(params: Params, cobj: Json, k: string)
    requires AddMating(params, cobj).Ok? && k in params
    requires k !in {"mating_model", "sstar", "stilde", "tau", "H", "a", "sigma", "N_hermaphrodites"}
    ensures k in AddMating(params, cobj).value && AddMating(params, cobj).value[k] == params[k]
  {
    var mating := Get2(cobj, "population", "mating").value;
    var model := Get(mating, "model").value;
    var p := params["mating_model" := model];
    if model == JString("gynodioecy") {
      GynodioecyKeeps(p, mating, k);
    }
  }

  /** `_addmutation` only sets the mutation settings. */
  lemma AddMutationKeeps(params: Params, cobj: Json, k: string)
    requires AddMutation(params, cobj).Ok? && k in params
    requires k !in {"mutation_model", "m", "allele_length"}
    ensures k in AddMutation(params, cobj).value && AddMutation(params, cobj).value[k] == params[k]
  {
  }

  /** A configuration that loads names one of the two mutation models. */
  lemma SetupModel(cobj: Json, substs: seq<string>)
    requires Setup(cobj, substs).Ok?
    ensures var p := Setup(cobj, substs).value;
      "mutation_model" in p
      && (p["mutation_model"] == JString("infinite alleles") || p["mutation_model"] == JString("infinite sites"))
  {
    var p8 := Scaled(cobj, substs).value;
    var p9 := AddMating(p8, cobj).value;
    var p10 := AddMutation(p9, cobj).value;
    AddMutationOutcome(p9, cobj);
    assert Setup(cobj, substs).value == p10["initial_genotype" := InitGenotype(cobj).value];
  }

  /** What `simulate` runs. */
  datatype Run = InfiniteAllelesRun(config: Params)

  /** `simulate(args)`: infinite sites is disabled and ends the program;
      infinite alleles runs. */
  function Simulate(cobj: Json, substs: seq<string>): (r: Result<Run>)
  {
    var p :- Setup(cobj, substs);
    if "mutation_model" !in p then Err(KeyError("mutation_model"))
    else if p["mutation_model"] == JString("infinite sites") then Err(Exit("The infinite-sites model is disabled"))
    else if p["mutation_model"] == JString("infinite alleles") then Ok(InfiniteAllelesRun(p))
    else Err(Exit("Unknown mutational model specified"))
  }

  /** `simulate` runs the infinite-alleles model exactly when the
      configuration loads with that model; a configuration with infinite
      sites ends the program, and the branch for an unknown model is never
      reached. */
  lemma SimulateOutcome(cobj: Json, substs: seq<string>)
    ensures Simulate(cobj, substs).Ok? <==>
      Setup(cobj, substs).Ok? && "mutation_model" in Setup(cobj, substs).value
      && Setup(cobj, substs).value["mutation_model"] == JString("infinite alleles")
    ensures Setup(cobj, substs).Ok? && Simulate(cobj, substs).Err? ==>
      Simulate(cobj, substs) == Err(Exit("The infinite-sites model is disabled"))
    ensures Setup(cobj, substs).Err? ==> Simulate(cobj, substs) == Err(Setup(cobj, substs).error)
  {
    if Setup(cobj, substs).Ok? {
      SetupModel(cobj, substs);
    }
  }
}
