/** partial_selfing/gensamples.py: reading one generation out of a
    simulation's tab-separated output, drawing a sample of individuals from
    it, and writing a drawn sample in the PHASE and NEXUS layouts.

    Files are sequences of lines without their line ends; the draw of
    `random.sample` is a parameter. */
module GenSamples {
  import opened Wrappers
  import opened Text
  import SampleData
  import SampleFormats
  import Pop2Phase
  import SampleNames

  // ---------------------------------------------------------------------
  // Reading a generation (`getgeneration`)

  /** An individual of one replicate at the chosen generation: the
      selfing count of its first row and, per row, the alleles the row
      carries from its sixth field on. */
  datatype Individual = Individual(selfing: int, geno: seq<seq<int>>)

  /** Replicate, then individual id, to the individual's record. */
  type Generation = map<int, map<int, Individual>>

  /** Python 2's `round(x)`: to the nearest whole number, halves away from
      zero. */
  function Round(x: real): int {
    if x >= 0.0 then (x + 0.5).Floor else -((0.5 - x).Floor)
  }

  /** `int(round(float(f)))`. */
  function ParseField(f: string): Result<int> {
    var x :- ParseFloat(f);
    Ok(Round(x))
  }

  /** The fields of a row, the first that is not a number failing. */
  function ParseFields(parts: seq<string>): (r: Result<seq<int>>)
    ensures r.Ok? ==> |r.value| == |parts|
  {
    if |parts| == 0 then Ok([])
    else
      var x :- ParseField(parts[0]);
      var rest :- ParseFields(parts[1..]);
      Ok([x] + rest)
  }

  /** One line of the file read as whole numbers. */
  function Row(line: string): Result<seq<int>> {
    ParseFields(SplitOn(line, '\t'))
  }

  /** `fields[5:]`: empty when the row is shorter. */
  function Alleles(row: seq<int>): seq<int> {
    if |row| >= 5 then row[5..] else []
  }

  /** What one row does to the generation read so far: a row of another
      generation changes nothing; a row of this one adds its alleles to
      its individual, creating the individual (with the row's selfing
      count) on its first row. Missing fields raise `IndexError`. */
  function Absorb(d: Generation, row: seq<int>, gen: int): Result<Generation> {
    if |row| < 2 then Err(IndexError)
    else if row[1] != gen then Ok(d)
    else if |row| < 3 then Err(IndexError)
    else
      var rep, ind := row[0], row[2];
      var inner := if rep in d then d[rep] else map[];
      if ind in inner then
        Ok(d[rep := inner[ind := Individual(inner[ind].selfing, inner[ind].geno + [Alleles(row)])]])
      else if |row| < 4 then Err(IndexError)
      else Ok(d[rep := inner[ind := Individual(row[3], [Alleles(row)])]])
  }

  /** The lines after the header read in order; the first failure stops
      the reading. */
  function Scan(lines: seq<string>, gen: int): Result<Generation> {
    if |lines| == 0 then Ok(map[])
    else
      var d :- Scan(lines[..|lines| - 1], gen);
      var row :- Row(lines[|lines| - 1]);
      Absorb(d, row, gen)
  }

  /** `getgeneration`: the first line is a header (`StopIteration` when the
      file is empty). */
  function GetGeneration(lines: seq<string>, gen: int): Result<Generation> {
    if |lines| == 0 then Err(StopIteration) else Scan(lines[1..], gen)
  }

  /** `getgeneration`, filling the dictionary one line at a time. */
  method ReadGeneration(lines: seq<string>, gen: int) returns (r: Result<Generation>)
    ensures r == GetGeneration(lines, gen)
  {
    if |lines| == 0 {
      return Err(StopIteration);
    }
    var body := lines[1..];
    var data: Generation := map[];
    var k := 0;
    while k < |body|
      invariant 0 <= k <= |body|
      invariant Scan(body[..k], gen) == Ok(data)
    {
      assert body[..k + 1][..k] == body[..k];
      var row := Row(body[k]);
      if row.Err? {
        ScanStops(body, k + 1, gen);
        return Err(row.error);
      }
      var next := AddRow(data, row.value, gen);
      if next.Err? {
        ScanStops(body, k + 1, gen);
        return Err(next.error);
      }
      data := next.value;
      k := k + 1;
    }
    assert body[..k] == body;
    r := Ok(data);
  }

  /** One pass of the loop of `getgeneration` on a parsed row, updating
      the nested dictionary in place. */
  method AddRow(data: Generation, fields: seq<int>, gen: int) returns (r: Result<Generation>)
    ensures r == Absorb(data, fields, gen)
  {
    if |fields| < 2 {
      return Err(IndexError);
    }
    if fields[1] != gen {
      return Ok(data);
    }
    if |fields| < 3 {
      return Err(IndexError);
    }
    var rep, ind := fields[0], fields[2];
    var d := data;
    if rep !in d {
      d := d[rep := map[]];
    }
    var inner := d[rep];
    assert inner == if rep in data then data[rep] else map[];
    if ind in inner {
      var rec := inner[ind];
      d := d[rep := inner[ind := Individual(rec.selfing, rec.geno + [Alleles(fields)])]];
    } else {
      if |fields| < 4 {
        return Err(IndexError);
      }
      d := d[rep := inner[ind := Individual(fields[3], [Alleles(fields)])]];
    }
    assert d == Absorb(data, fields, gen).value;
    r := Ok(d);
  }

  /** A failure part-way through ends the whole reading. */
  lemma {:induction false} ScanStops(lines: seq<string>, k: nat, gen: int)
    requires k <= |lines| && Scan(lines[..k], gen).Err?
    ensures Scan(lines, gen) == Scan(lines[..k], gen)
    decreases |lines| - k
  {
    if k < |lines| {
      assert lines[..k + 1][..k] == lines[..k];
      ScanStops(lines, k + 1, gen);
    } else {
      assert lines[..k] == lines;
    }
  }

  /** Every line parsed as numbers, the first failure stopping. */
  function Rows(lines: seq<string>): (r: Result<seq<seq<int>>>)
    ensures r.Ok? ==> |r.value| == |lines|
  {
    if |lines| == 0 then Ok([])
    else
      var rs :- Rows(lines[..|lines| - 1]);
      var row :- Row(lines[|lines| - 1]);
      Ok(rs + [row])
  }

  /** The grouping of rows already parsed. */
  function Group(rows: seq<seq<int>>, gen: int): Result<Generation> {
    if |rows| == 0 then Ok(map[])
    else
      var d :- Group(rows[..|rows| - 1], gen);
      Absorb(d, rows[|rows| - 1], gen)
  }

  /** Reading succeeds only on lines that are all numeric, and then it is
      the grouping of the parsed rows. */
  lemma {:induction false} ScanGroups(lines: seq<string>, gen: int)
    ensures Scan(lines, gen).Ok? ==> Rows(lines).Ok?
    ensures Rows(lines).Ok? ==> Scan(lines, gen) == Group(Rows(lines).value, gen)
  {
    if |lines| > 0 {
      var front := lines[..|lines| - 1];
      ScanGroups(front, gen);
      if Rows(lines).Ok? {
        var rs := Rows(lines).value;
        assert rs[..|rs| - 1] == Rows(front).value;
      }
    }
  }

  /** A row of generation `gen` belonging to individual `ind` of replicate
      `rep`. */
  predicate Hit(row: seq<int>, gen: int, rep: int, ind: int) {
    |row| >= 3 && row[1] == gen && row[0] == rep && row[2] == ind
  }

  /** The rows of individual `ind` of replicate `rep` at generation `gen`,
      in file order. */
  function Matching(rows: seq<seq<int>>, gen: int, rep: int, ind: int): seq<seq<int>> {
    if |rows| == 0 then []
    else
      var last := rows[|rows| - 1];
      Matching(rows[..|rows| - 1], gen, rep, ind) + (if Hit(last, gen, rep, ind) then [last] else [])
  }

  function AllelesOf(rows: seq<seq<int>>): (r: seq<seq<int>>)
    ensures |r| == |rows|
  {
    seq(|rows|, k requires 0 <= k < |rows| => Alleles(rows[k]))
  }

  /** The grouping: an individual is present exactly when it has a row of
      the generation; its selfing count is that of its first such row and
      its alleles are those of all of its rows, in file order. */
  lemma {:induction false} GroupedBy(rows: seq<seq<int>>, gen: int, rep: int, ind: int)
    requires Group(rows, gen).Ok?
    ensures var d := Group(rows, gen).value;
            var m := Matching(rows, gen, rep, ind);
            && ((rep in d && ind in d[rep]) <==> |m| > 0)
            && (|m| > 0 ==> |m[0]| >= 4 && d[rep][ind] == Individual(m[0][3], AllelesOf(m)))
  {
    if |rows| > 0 {
      var front := rows[..|rows| - 1];
      var row := rows[|rows| - 1];
      GroupedBy(front, gen, rep, ind);
      var d0 := Group(front, gen).value;
      var m0 := Matching(front, gen, rep, ind);
      if Hit(row, gen, rep, ind) {
        var m := m0 + [row];
        assert Matching(rows, gen, rep, ind) == m;
        assert AllelesOf(m) == AllelesOf(m0) + [Alleles(row)];
        if |m0| > 0 {
          assert m[0] == m0[0];
        }
      }
    }
  }

  /** Whether the row at this point of the file is read without error,
      given the rows before it. */
  predicate Accepted(before: seq<seq<int>>, row: seq<int>, gen: int) {
    && |row| >= 2
    && (row[1] == gen ==>
          |row| >= 3 && (|Matching(before, gen, row[0], row[2])| == 0 ==> |row| >= 4))
  }

  /** Grouping fails exactly when some row lacks a field it needs: the
      generation, then the individual, then (on the individual's first
      row) the selfing count; the failure is then an `IndexError`. */
  lemma {:induction false} GroupAccepts(rows: seq<seq<int>>, gen: int)
    ensures Group(rows, gen).Ok? <==> forall k :: 0 <= k < |rows| ==> Accepted(rows[..k], rows[k], gen)
    ensures Group(rows, gen).Err? ==> Group(rows, gen).error == IndexError
  {
    if |rows| > 0 {
      var n := |rows| - 1;
      var front := rows[..n];
      GroupAccepts(front, gen);
      assert forall k :: 0 <= k < n ==> front[..k] == rows[..k] && front[k] == rows[k];
      if Group(front, gen).Ok? {
        var row := rows[n];
        if |row| >= 3 && row[1] == gen {
          GroupedBy(front, gen, row[0], row[2]);
        }
      }
    }
  }

  /** Every replicate the reading records holds at least one individual. */
  lemma {:induction false} ReplicatesNonEmpty(rows: seq<seq<int>>, gen: int, rep: int)
    requires Group(rows, gen).Ok? && rep in Group(rows, gen).value
    ensures Group(rows, gen).value[rep] != map[]
  {
    if |rows| > 0 {
      var front := rows[..|rows| - 1];
      var row := rows[|rows| - 1];
      if rep in Group(front, gen).value {
        ReplicatesNonEmpty(front, gen, rep);
      }
      if |row| >= 3 && row[1] == gen && row[0] == rep {
        assert row[2] in Group(rows, gen).value[rep];
      }
    }
  }

  /** A row of whole numbers written with `str` and tabs is read back as
      those numbers. */
  lemma {:induction false} RowOfInts(xs: seq<int>)
    requires |xs| > 0
    ensures Row(Join("\t", IntStrings(xs))) == Ok(xs)
  {
    var parts := IntStrings(xs);
    forall k | 0 <= k < |parts| ensures '\t' !in parts[k] {
      MapSeqAt(IntToString, xs, k);
      SpaceNotIn(parts[k], '\t');
    }
    SplitJoin(parts, '\t');
    ParseIntsBack(xs);
  }

  /** `[str(x) for x in xs]`. */
  function IntStrings(xs: seq<int>): (r: seq<string>)
    ensures |r| == |xs|
  {
    MapSeq(IntToString, xs)
  }

  lemma {:induction false} ParseIntsBack(xs: seq<int>)
    ensures ParseFields(IntStrings(xs)) == Ok(xs)
  {
    if |xs| > 0 {
      FieldOfInt(xs[0]);
      assert IntStrings(xs)[1..] == IntStrings(xs[1..]);
      ParseIntsBack(xs[1..]);
      assert [xs[0]] + xs[1..] == xs;
    }
  }

  /** `int(round(float(str(i)))) == i`. */
  lemma FieldOfInt(i: int)
    ensures ParseField(IntToString(i)) == Ok(i)
  {
    var s := IntToString(i);
    if i < 0 {
      SignedPlain(NatToString(-i));
    } else {
      DigitsPlain(NatToString(i));
    }
    NoSpaceStrip(s);
    SplitOnNone(s, '.');
    ParseIntRoundTrip(i);
    RoundWhole(i);
  }

  /** Rounding a whole number changes nothing. */
  lemma RoundWhole(i: int)
    ensures Round(i as real) == i
  {
  }

  /** Rounding moves a number by at most a half, and a half is rounded
      away from zero. */
  lemma RoundNearest(x: real)
    ensures -0.5 <= Round(x) as real - x <= 0.5
    ensures Round(x) as real - x == 0.5 ==> x >= 0.0
    ensures Round(x) as real - x == -0.5 ==> x < 0.0
  {
  }

  // ---------------------------------------------------------------------
  // Drawing a sample (`getsample`, `simplify`)

  /** What `simplify` returns and `json.dump` writes: an individual's id,
      its selfing count and its alleles paired position by position. */
  datatype Entry = Entry(id: int, selfing: int, pairs: seq<(int, int)>)

  /** The length of the shortest row (`zip` stops there); 0 for no rows. */
  function Shortest(rows: seq<seq<int>>): (w: nat)
    ensures forall k :: 0 <= k < |rows| ==> w <= |rows[k]|
    ensures |rows| > 0 ==> exists k :: 0 <= k < |rows| && w == |rows[k]|
  {
    if |rows| == 0 then 0
    else if |rows| == 1 then |rows[0]|
    else
      var w := Shortest(rows[1..]);
      if |rows[0]| < w then |rows[0]| else w
  }

  /** `list((i, j) for i, j in zip(*geno))`: every tuple of `zip` has one
      element per row, so unpacking it into two fails with `ValueError`
      unless the individual has exactly two rows (or `zip` yields
      nothing). */
  function Columns(geno: seq<seq<int>>): Result<seq<(int, int)>> {
    var w := Shortest(geno);
    if w == 0 then Ok([])
    else if |geno| != 2 then Err(ValueError("wrong number of values to unpack"))
    else Ok(seq(w, k requires 0 <= k < w => (geno[0][k], geno[1][k])))
  }

  /** `simplify`. */
  function Simplify(id: int, rec: Individual): Result<Entry> {
    var pairs :- Columns(rec.geno);
    Ok(Entry(id, rec.selfing, pairs))
  }

  function Firsts(pairs: seq<(int, int)>): (r: seq<int>)
    ensures |r| == |pairs|
  {
    seq(|pairs|, k requires 0 <= k < |pairs| => pairs[k].0)
  }

  function Seconds(pairs: seq<(int, int)>): (r: seq<int>)
    ensures |r| == |pairs|
  {
    seq(|pairs|, k requires 0 <= k < |pairs| => pairs[k].1)
  }

  /** An individual with two rows is simplified into the pairs of its
      rows' alleles, as far as the shorter row goes: unzipping the pairs
      gives the two rows back, cut to that length. */
  lemma SimplifyTwoRows(id: int, selfing: int, a: seq<int>, b: seq<int>)
    ensures var r := Simplify(id, Individual(selfing, [a, b]));
            var w := if |a| < |b| then |a| else |b|;
            && r.Ok? && r.value.id == id && r.value.selfing == selfing
            && Firsts(r.value.pairs) == a[..w] && Seconds(r.value.pairs) == b[..w]
  {
    var w := Shortest([a, b]);
    assert [a, b][1..] == [b];
  }

  /** An individual with other than two rows, each holding alleles,
      cannot be simplified. */
  lemma SimplifyNeedsTwoRows(id: int, rec: Individual)
    requires |rec.geno| != 2
    requires forall k :: 0 <= k < |rec.geno| ==> |rec.geno[k]| > 0
    ensures Simplify(id, rec).Err? <==> |rec.geno| > 0
  {
    if |rec.geno| > 0 {
      var k :| 0 <= k < |rec.geno| && Shortest(rec.geno) == |rec.geno[k]|;
    }
  }

  /** An id that can be drawn: recorded, with a record `simplify` takes. */
  predicate Usable(rep: map<int, Individual>, id: int) {
    id in rep && Simplify(id, rep[id]).Ok?
  }

  /** `[simplify(i, d[i]) for i in ids]`: the first id that is missing
      raises `KeyError`. */
  function Picked(rep: map<int, Individual>, ids: seq<nat>): Result<seq<Entry>> {
    if |ids| == 0 then Ok([])
    else if ids[0] !in rep then Err(KeyError(IntToString(ids[0])))
    else
      var e :- Simplify(ids[0], rep[ids[0]]);
      var rest :- Picked(rep, ids[1..]);
      Ok([e] + rest)
  }

  /** `getsample(d, s)`, with `picks` the draw of `random.sample`; sorting
      the simplified records by id lists the drawn ids in ascending order,
      which is what the second `Picked` does. */
  function GetSample(d: Generation, s: int, picks: seq<nat>): Result<seq<Entry>> {
    if 0 !in d then Err(KeyError("0"))
    else if s < 0 || s > |d[0]| then Err(ValueError("sample larger than population"))
    else
      match Picked(d[0], picks)
      case Err(e) => Err(e)
      case Ok(_) => Picked(d[0], Pop2Phase.Kept(|d[0]|, picks))
  }

  /** Picking succeeds exactly when every id is usable, and then gives one
      simplified record per id, in the order of the ids. */
  lemma {:induction false} PickedOk(rep: map<int, Individual>, ids: seq<nat>)
    ensures Picked(rep, ids).Ok? <==> forall m :: 0 <= m < |ids| ==> Usable(rep, ids[m])
    ensures Picked(rep, ids).Ok? ==>
      |Picked(rep, ids).value| == |ids|
      && forall m :: 0 <= m < |ids| ==> Picked(rep, ids).value[m] == Simplify(ids[m], rep[ids[m]]).value
  {
    if |ids| > 0 {
      PickedOk(rep, ids[1..]);
      assert forall m :: 1 <= m < |ids| ==> ids[1..][m - 1] == ids[m];
    }
  }

  /** With a valid draw, a sample is drawn exactly when every drawn
      individual is usable. */
  lemma SampleOk(d: Generation, s: int, picks: seq<nat>)
    requires 0 in d && 0 <= s <= |d[0]| && SampleData.Drawn(picks, s, |d[0]|)
    ensures GetSample(d, s, picks).Ok? <==> forall m :: 0 <= m < |picks| ==> Usable(d[0], picks[m])
  {
    var rep := d[0];
    var kept := Pop2Phase.Kept(|rep|, picks);
    PickedOk(rep, picks);
    PickedOk(rep, kept);
  }

  /** A drawn sample holds `s` records: those of the drawn ids in
      ascending order, each simplified from its individual's record. */
  lemma SampleRecords(d: Generation, s: int, picks: seq<nat>)
    requires 0 in d && 0 <= s <= |d[0]| && SampleData.Drawn(picks, s, |d[0]|)
    requires GetSample(d, s, picks).Ok?
    ensures var r := GetSample(d, s, picks).value;
      && |r| == s && |Pop2Phase.Kept(|d[0]|, picks)| == s
      && forall m :: 0 <= m < |r| ==>
           r[m].id == Pop2Phase.Kept(|d[0]|, picks)[m] && Usable(d[0], r[m].id)
           && r[m] == Simplify(r[m].id, d[0][r[m].id]).value
  {
    var rep := d[0];
    var kept := Pop2Phase.Kept(|rep|, picks);
    PickedOk(rep, kept);
    Pop2Phase.KeptCount(|rep|, picks, s);
  }

  /** A drawn sample lists every drawn individual once, in strictly
      increasing order of id, and no other. */
  lemma SampleSorted(d: Generation, s: int, picks: seq<nat>)
    requires 0 in d && 0 <= s <= |d[0]| && SampleData.Drawn(picks, s, |d[0]|)
    requires GetSample(d, s, picks).Ok?
    ensures var r := GetSample(d, s, picks).value;
      && (forall p, q :: 0 <= p < q < |r| ==> r[p].id < r[q].id)
      && (forall m :: 0 <= m < |r| ==> r[m].id in picks)
      && (forall m :: 0 <= m < |picks| ==> exists p :: 0 <= p < |r| && r[p].id == picks[m])
  {
    var rep := d[0];
    var kept := Pop2Phase.Kept(|rep|, picks);
    var r := GetSample(d, s, picks).value;
    SampleRecords(d, s, picks);
    Pop2Phase.KeptSorted(|rep|, picks);
    forall m | 0 <= m < |picks|
      ensures exists p :: 0 <= p < |r| && r[p].id == picks[m]
    {
      Pop2Phase.KeptComplete(|rep|, picks, picks[m]);
      var p :| 0 <= p < |kept| && kept[p] == picks[m];
      assert r[p].id == picks[m];
    }
  }

  // ---------------------------------------------------------------------
  // Output names (`sample`)

  /** The name of replicate `i`'s file: the input's name without its last
      extension, the sample size, `i + 1` zero-padded to three digits and
      `json`, joined by dots. */
  function SampleFileName(file: string, size: int, i: nat): string {
    var parts := SplitOn(file, '.');
    Join(".", FileFields(parts[..|parts| - 1], size, i))
  }

  function FileFields(base: seq<string>, size: int, i: nat): seq<string> {
    base + [IntToString(size), SampleNames.ZeroPad(i + 1, 3), "json"]
  }

  /** The parts a string splits into hold no separator. */
  lemma {:induction false} SplitOnParts(s: string, c: char)
    ensures forall k :: 0 <= k < |SplitOn(s, c)| ==> c !in SplitOn(s, c)[k]
    decreases |s|
  {
    if |s| > 0 {
      SplitOnParts(s[1..], c);
      var rest := SplitOn(s[1..], c);
      if s[0] != c {
        assert SplitOn(s, c) == [[s[0]] + rest[0]] + rest[1..];
      }
    }
  }

  /** `str(i)` holds no dot. */
  lemma IntStringDotless(i: int)
    ensures '.' !in IntToString(i)
  {
    var s := IntToString(i);
    if i < 0 {
      assert s == "-" + NatToString(-i);
      forall j | 1 <= j < |s| ensures s[j] != '.' {
        assert s[j] == NatToString(-i)[j - 1];
        assert IsDigit(NatToString(-i)[j - 1]);
      }
    } else {
      forall j | 0 <= j < |s| ensures s[j] != '.' {
        assert IsDigit(s[j]);
      }
    }
  }

  /** The name splits at its dots into the base's parts, the size, the
      padded replicate number and `json`; the number reads back as
      `i + 1`. */
  lemma SampleFileNameFields(file: string, size: int, i: nat)
    ensures var parts := SplitOn(file, '.');
      var fields := SplitOn(SampleFileName(file, size, i), '.');
      && fields == FileFields(parts[..|parts| - 1], size, i)
      && ParseInt(fields[|fields| - 2]) == Ok(i + 1)
  {
    var parts := SplitOn(file, '.');
    var base := parts[..|parts| - 1];
    var fields := FileFields(base, size, i);
    SplitOnParts(file, '.');
    IntStringDotless(size);
    var pad := SampleNames.ZeroPad(i + 1, 3);
    assert '.' !in pad by {
      forall j | 0 <= j < |pad| ensures pad[j] != '.' {
        assert IsDigit(pad[j]);
      }
    }
    forall k | 0 <= k < |fields| ensures '.' !in fields[k] {
      if k < |base| {
        assert fields[k] == parts[k];
      }
    }
    SplitJoin(fields, '.');
    assert fields[|fields| - 2] == pad;
    SampleNames.ZeroPadRoundTrip(i + 1, 3);
  }

  /** Every replicate of a run writes a file of its own. */
  lemma SampleFileNamesDistinct(file: string, size: int, i: nat, j: nat)
    requires i != j
    ensures SampleFileName(file, size, i) != SampleFileName(file, size, j)
  {
    SampleFileNameFields(file, size, i);
    SampleFileNameFields(file, size, j);
  }

  // ---------------------------------------------------------------------
  // Writing a sample (`phase`, `nexus`)

  /** The name a record is written under. */
  function SampleName(e: Entry): string {
    "sample." + IntToString(e.id)
  }

  /** The alleles of a record as the strings `str` gives. */
  function GenesOf(pairs: seq<(int, int)>): (g: SampleData.Genotype)
    ensures |g| == |pairs|
  {
    if |pairs| == 0 then []
    else [SampleData.Gene(IntToString(pairs[0].0), IntToString(pairs[0].1))] + GenesOf(pairs[1..])
  }

  /** `[str(j) for i in d[2] for j in i]`. */
  function Flattened(pairs: seq<(int, int)>): seq<string> {
    SampleFormats.GeneFields(GenesOf(pairs))
  }

  /** One record's PHASE line: its name, a tab, then its alleles
      tab-separated (so a record without alleles ends in a tab). */
  function PhaseRecordLine(e: Entry): string {
    SampleName(e) + "\t" + Join("\t", Flattened(e.pairs))
  }

  /** The lines `phase` writes: the sample size, the number of loci (taken
      from the first record; `IndexError` for an empty sample), a marker
      `M` per locus, then one line per record. */
  function PhaseLines(data: seq<Entry>): Result<seq<string>> {
    if |data| == 0 then Err(IndexError)
    else
      var loc := |data[0].pairs|;
      Ok([NatToString(|data|), NatToString(loc), Repeat('M', loc)] + PhaseBody(data))
  }

  /** One PHASE line per record. */
  function PhaseBody(data: seq<Entry>): (r: seq<string>)
    ensures |r| == |data|
  {
    MapSeq(PhaseRecordLine, data)
  }

  /** `phase`, writing the records one at a time. */
  method WritePhase(data: seq<Entry>) returns (r: Result<seq<string>>)
    ensures r == PhaseLines(data)
  {
    if |data| == 0 {
      return Err(IndexError);
    }
    var loc := |data[0].pairs|;
    var body := CollectEach(data, PhaseRecordLine);
    r := Ok([NatToString(|data|), NatToString(loc), Repeat('M', loc)] + body);
  }

  /** The ids the PHASE reader of `selfingsim/data.py` finds. */
  function Names(data: seq<Entry>): (r: seq<string>)
    ensures |r| == |data|
  {
    MapSeq(SampleName, data)
  }

  /** The genotypes the PHASE reader finds. */
  function Genos(data: seq<Entry>): (r: seq<SampleData.Genotype>)
    ensures |r| == |data|
  {
    MapSeq(EntryGenes, data)
  }

  function EntryGenes(e: Entry): SampleData.Genotype {
    GenesOf(e.pairs)
  }

  lemma NameIsField(e: Entry)
    ensures SampleFormats.Field(SampleName(e))
  {
    var s := IntToString(e.id);
    NoSpaceConcat("sample.", s);
  }

  lemma {:induction false} GenesAreFields(pairs: seq<(int, int)>)
    ensures forall l :: 0 <= l < |GenesOf(pairs)| ==>
      SampleFormats.Field(GenesOf(pairs)[l].a) && SampleFormats.Field(GenesOf(pairs)[l].b)
  {
    if |pairs| > 0 {
      GenesAreFields(pairs[1..]);
      var g := GenesOf(pairs);
      assert forall l :: 1 <= l < |g| ==> g[l] == GenesOf(pairs[1..])[l - 1];
    }
  }

  /** A record's PHASE line is read back as its name and alleles. */
  lemma PhaseRecordRead(e: Entry)
    ensures SampleFormats.PhaseRecord(PhaseRecordLine(e)) == Ok((SampleName(e), GenesOf(e.pairs)))
  {
    var name := SampleName(e);
    var g := GenesOf(e.pairs);
    NameIsField(e);
    GenesAreFields(e.pairs);
    if |e.pairs| > 0 {
      var f := Flattened(e.pairs);
      assert ([name] + f)[1..] == f;
      assert PhaseRecordLine(e) == SampleFormats.PhaseLine(name, g);
      SampleFormats.PhaseRecordRoundTrip(name, g);
    } else {
      var line := PhaseRecordLine(e);
      assert line == name + "\t";
      WordLengthOfWord(name, "\t");
      assert line[..|name|] == name && line[|name|..] == "\t";
      assert Words(line) == [name] + Words("\t");
      assert Words("\t") == Words("");
      assert SampleFormats.Pairs([]) == [];
    }
  }

  lemma {:induction false} PhaseRecordsRead(data: seq<Entry>)
    ensures SampleFormats.PhaseRecords(PhaseBody(data)) == Ok((Names(data), Genos(data)))
  {
    var body := PhaseBody(data);
    if |data| > 0 {
      PhaseRecordRead(data[0]);
      PhaseRecordsRead(data[1..]);
      assert body[1..] == PhaseBody(data[1..]);
      assert Names(data) == [SampleName(data[0])] + Names(data[1..]);
      assert Genos(data) == [EntryGenes(data[0])] + Genos(data[1..]);
    }
  }

  /** What `phase` writes is a PHASE file that `fromphase` of
      `selfingsim/data.py` reads back: the records' names as ids and
      their alleles as genotypes, with the first record's number of
      loci. */
  lemma PhaseReadBack(data: seq<Entry>, src: string)
    requires |data| > 0
    ensures PhaseLines(data).Ok?
    ensures SampleFormats.ParsePhase(src, PhaseLines(data).value)
      == Ok(SampleData.Sample(src, Names(data), Genos(data), |data[0].pairs|, None))
  {
    var loc := |data[0].pairs|;
    var lines := PhaseLines(data).value;
    ParseNatString(loc);
    NoSpaceStrip(Repeat('M', loc));
    assert lines[1] == NatToString(loc) && lines[2] == Repeat('M', loc);
    assert lines[3..] == PhaseBody(data);
    PhaseRecordsRead(data);
  }

  /** The line end `nexus` writes: CRLF with `-w`, LF otherwise. */
  function Newline(windows: bool): string {
    if windows then "\r\n" else "\n"
  }

  /** `"{}/{}".format(*i)`. */
  function Slashed(p: (int, int)): string {
    IntToString(p.0) + "/" + IntToString(p.1)
  }

  /** A record's NEXUS tokens: its name, then an `a/b` token per locus. */
  function NexusTokens(e: Entry): (r: seq<string>)
    ensures |r| == |e.pairs| + 1
  {
    [SampleName(e)] + Slashes(e.pairs)
  }

  /** The `a/b` tokens of the loci, in order. */
  function Slashes(pairs: seq<(int, int)>): (r: seq<string>)
    ensures |r| == |pairs|
  {
    if |pairs| == 0 then [] else [Slashed(pairs[0])] + Slashes(pairs[1..])
  }

  lemma {:induction false} SlashesAt(pairs: seq<(int, int)>, k: nat)
    requires k < |pairs|
    ensures Slashes(pairs)[k] == Slashed(pairs[k])
  {
    if k > 0 {
      SlashesAt(pairs[1..], k - 1);
    }
  }

  /** One record's NEXUS line: its tokens, space-separated. */
  function NexusRecordLine(e: Entry): string {
    Join(" ", NexusTokens(e))
  }

  /** The six lines before the records; the number of loci is taken from
      the first record. */
  function NexusHeader(loc: nat): seq<string> {
    ["#NEXUS", "begin gdadata;", "dimensions npops=1 nloci=" + NatToString(loc) + ";",
     "format missing=? separator=/;", "matrix", "pop1:"]
  }

  /** The lines `nexus` writes (`IndexError` for an empty sample). */
  function NexusLines(data: seq<Entry>): Result<seq<string>> {
    if |data| == 0 then Err(IndexError)
    else
      Ok(NexusHeader(|data[0].pairs|) + NexusBody(data) + [";", "end;"])
  }

  /** One NEXUS line per record. */
  function NexusBody(data: seq<Entry>): (r: seq<string>)
    ensures |r| == |data|
  {
    MapSeq(NexusRecordLine, data)
  }

  /** `nexus`, printing line after line with the chosen line end. */
  method WriteNexus(data: seq<Entry>, windows: bool) returns (r: Result<string>)
    ensures NexusLines(data).Err? ==> r == Err(NexusLines(data).error)
    ensures NexusLines(data).Ok? ==> r == Ok(Terminated(NexusLines(data).value, Newline(windows)))
  {
    if |data| == 0 {
      return Err(IndexError);
    }
    var nl := Newline(windows);
    var header := NexusHeader(|data[0].pairs|);
    var records := PrintEach(data, NexusRecordLine, nl);
    TerminatedAppend(header, NexusBody(data), nl);
    TerminatedAppend(header + NexusBody(data), [";", "end;"], nl);
    r := Ok(Terminated(header, nl) + records + Terminated([";", "end;"], nl));
  }

  /** A record's NEXUS line splits at the spaces into its name and one
      token per locus, each token splitting at the slash into the two
      alleles. */
  lemma NexusRecordTokens(e: Entry)
    ensures SplitOn(NexusRecordLine(e), ' ') == NexusTokens(e)
    ensures forall k :: 0 <= k < |e.pairs| ==>
      SplitOn(NexusTokens(e)[k + 1], '/') == [IntToString(e.pairs[k].0), IntToString(e.pairs[k].1)]
  {
    var toks := NexusTokens(e);
    NexusTokensPlain(e);
    forall k | 0 <= k < |toks| ensures ' ' !in toks[k] {
      SpaceNotIn(toks[k], ' ');
    }
    SplitJoin(toks, ' ');
    forall k | 0 <= k < |e.pairs|
      ensures SplitOn(toks[k + 1], '/') == [IntToString(e.pairs[k].0), IntToString(e.pairs[k].1)]
    {
      SlashesAt(e.pairs, k);
      SlashedPlain(e.pairs[k]);
    }
  }

  /** No token holds whitespace. */
  lemma NexusTokensPlain(e: Entry)
    ensures forall k :: 0 <= k < |NexusTokens(e)| ==> NoSpace(NexusTokens(e)[k])
  {
    var toks := NexusTokens(e);
    NameIsField(e);
    forall k | 1 <= k < |toks| ensures NoSpace(toks[k]) {
      SlashesAt(e.pairs, k - 1);
      SlashedPlain(e.pairs[k - 1]);
    }
  }

  /** A locus token holds no whitespace and splits at its one slash. */
  lemma SlashedPlain(p: (int, int))
    ensures NoSpace(Slashed(p))
    ensures SplitOn(Slashed(p), '/') == [IntToString(p.0), IntToString(p.1)]
  {
    var a, b := IntToString(p.0), IntToString(p.1);
    IntStringPlain(p.0);
    IntStringPlain(p.1);
    assert Slashed(p) == a + ['/'] + b;
    SplitOnFirst(a, '/', b);
    SplitOnNone(b, '/');
    NoSpaceConcat(a, "/");
    NoSpaceConcat(a + "/", b);
  }

  /** `str(i)` holds no whitespace and no slash. */
  lemma IntStringPlain(i: int)
    ensures NoSpace(IntToString(i)) && '/' !in IntToString(i)
  {
    var s := IntToString(i);
    if i < 0 {
      SignedPlain(NatToString(-i));
      assert s == "-" + NatToString(-i);
      forall j | 1 <= j < |s| ensures s[j] != '/' {
        assert s[j] == NatToString(-i)[j - 1];
        assert IsDigit(NatToString(-i)[j - 1]);
      }
    } else {
      forall j | 0 <= j < |s| ensures s[j] != '/' {
        assert IsDigit(s[j]);
      }
    }
  }

  /** The text `nexus` writes splits at its line feeds into the lines,
      each with a carriage return before the line feed exactly when `-w`
      is given. */
  lemma NexusLineEnds(data: seq<Entry>, windows: bool)
    requires |data| > 0
    ensures NexusLines(data).Ok?
    ensures var lines := NexusLines(data).value;
      SplitOn(Terminated(lines, Newline(windows)), '\n')
        == seq(|lines|, k requires 0 <= k < |lines| => lines[k] + (if windows then "\r" else "")) + [""]
  {
    var lines := NexusLines(data).value;
    var cr := if windows then "\r" else "";
    assert Newline(windows) == cr + "\n";
    forall k | 0 <= k < |lines| ensures '\n' !in lines[k] {
      NexusLinePlain(data, k);
    }
    SplitTerminated(lines, cr);
  }

  lemma NexusLinePlain(data: seq<Entry>, k: nat)
    requires |data| > 0 && k < |NexusLines(data).value|
    ensures '\n' !in NexusLines(data).value[k]
  {
    var lines := NexusLines(data).value;
    var n := |data|;
    if 6 <= k < 6 + n {
      MapSeqAt(NexusRecordLine, data, k - 6);
      assert lines[k] == NexusRecordLine(data[k - 6]);
      RecordLinePlain(data[k - 6]);
    } else if k < 6 {
      HeaderPlain(|data[0].pairs|, k);
    }
  }

  lemma RecordLinePlain(e: Entry)
    ensures '\n' !in NexusRecordLine(e)
  {
    NexusTokensPlain(e);
    var toks := NexusTokens(e);
    forall j | 0 <= j < |toks| ensures '\n' !in toks[j] {
      SpaceNotIn(toks[j], '\n');
    }
    JoinWithout(toks, ' ', '\n');
  }

  lemma HeaderPlain(loc: nat, k: nat)
    requires k < 6
    ensures '\n' !in NexusHeader(loc)[k]
  {
    if k == 2 {
      var digits := NatToString(loc);
      DigitsPlain(digits);
      SpaceNotIn(digits, '\n');
    }
  }
}
