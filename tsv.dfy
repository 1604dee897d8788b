/** `FullSample.fromtsv` of selfingsim/data.py: reading the per-chromosome
    table a simulation writes into one sample per replicate.

    The file is a list of lines. The first is a header and is skipped; each
    other line is split on tabs into a row: the replicate, the generation,
    the individual's id, its selfing count, a further field, then one
    allele per locus. Only the rows of the requested generation are kept;
    consecutive rows of one replicate form its group; within a group,
    consecutive rows are taken two by two as the two chromosomes of one
    individual. */
module Tsv {
  import opened Wrappers
  import opened Text
  import opened SampleData
  import opened Utility

  type Row = seq<string>

  /** `csv.reader` with a tab delimiter: the line split on tabs. */
  function Fields(line: string): Row {
    SplitOn(line, '\t')
  }

  // ---------------------------------------------------------------------
  // Selecting the generation

  /** `int(row[1]) == gen`, with `IndexError` for a row of fewer than two
      fields and `ValueError` for a generation that is not a number. */
  function Keep(row: Row, gen: int): Result<bool> {
    if |row| < 2 then Err(IndexError)
    else
      match ParseInt(row[1])
      case Err(e) => Err(e)
      case Ok(g) => Ok(g == gen)
  }

  /** Rows already selected, put before those still to come. */
  function Prefix<T>(xs: seq<T>, rest: Result<seq<T>>): Result<seq<T>> {
    match rest
    case Err(e) => Err(e)
    case Ok(ys) => Ok(xs + ys)
  }

  /** `[row for row in reader if int(row[1]) == gen]`: the first row that
      cannot be compared with the generation stops the reading. */
  function Selected(lines: seq<string>, gen: int): (r: Result<seq<Row>>)
  {
    if |lines| == 0 then Ok([])
    else
      var row := Fields(lines[0]);
      match Keep(row, gen)
      case Err(e) => Err(e)
      case Ok(b) => Prefix(if b then [row] else [], Selected(lines[1..], gen))
  }

  lemma PrefixNothing<T>(rest: Result<seq<T>>)
    ensures Prefix([], rest) == rest
  {
    if rest.Ok? {
      assert [] + rest.value == rest.value;
    }
  }

  lemma PrefixTwice<T>(xs: seq<T>, ys: seq<T>, rest: Result<seq<T>>)
    ensures Prefix(xs, Prefix(ys, rest)) == Prefix(xs + ys, rest)
  {
    if rest.Ok? {
      assert xs + (ys + rest.value) == xs + ys + rest.value;
    }
  }

  /** The list comprehension, one line at a time. */
  method SelectRows(lines: seq<string>, gen: int) returns (r: Result<seq<Row>>)
    ensures r == Selected(lines, gen)
  {
    var rows: seq<Row> := [];
    var k := 0;
    assert lines[0..] == lines;
    PrefixNothing(Selected(lines, gen));
    while k < |lines|
      invariant 0 <= k <= |lines|
      invariant Selected(lines, gen) == Prefix(rows, Selected(lines[k..], gen))
    {
      assert lines[k..][0] == lines[k] && lines[k..][1..] == lines[k + 1..];
      var row := Fields(lines[k]);
      if |row| < 2 {
        return Err(IndexError);
      }
      var g := ParseInt(row[1]);
      if g.Err? {
        return Err(g.error);
      }
      var picked := if g.value == gen then [row] else [];
      PrefixTwice(rows, picked, Selected(lines[k + 1..], gen));
      rows := rows + picked;
      k := k + 1;
    }
    assert rows + [] == rows;
    r := Ok(rows);
  }

  /** Every selected row has at least two fields and belongs to `gen`. */
  lemma {:induction false} SelectedSound(lines: seq<string>, gen: int, j: nat)
    requires Selected(lines, gen).Ok? && j < |Selected(lines, gen).value|
    ensures |Selected(lines, gen).value[j]| >= 2
    ensures ParseInt(Selected(lines, gen).value[j][1]) == Ok(gen)
    ensures Selected(lines, gen).value[j] in Table(lines)
  {
    var row := Fields(lines[0]);
    var rest := Selected(lines[1..], gen);
    if Keep(row, gen).value && j == 0 {
      assert Selected(lines, gen).value[0] == row == Table(lines)[0];
    } else {
      var j' := if Keep(row, gen).value then j - 1 else j;
      assert Selected(lines, gen).value[j] == rest.value[j'];
      SelectedSound(lines[1..], gen, j');
      assert Table(lines) == [row] + Table(lines[1..]);
    }
  }

  /** The rows of all lines. */
  function Table(lines: seq<string>): (r: seq<Row>)
    ensures |r| == |lines|
  {
    seq(|lines|, i requires 0 <= i < |lines| => Fields(lines[i]))
  }

  /** A line of the generation is kept; a line whose generation cannot be
      read makes the whole selection fail. */
  lemma {:induction false} SelectedComplete(lines: seq<string>, gen: int, i: nat)
    requires i < |lines|
    ensures Keep(Fields(lines[i]), gen).Err? ==> Selected(lines, gen).Err?
    ensures Keep(Fields(lines[i]), gen) == Ok(true) && Selected(lines, gen).Ok? ==>
      Fields(lines[i]) in Selected(lines, gen).value
  {
    if i > 0 {
      assert lines[1..][i - 1] == lines[i];
      SelectedComplete(lines[1..], gen, i - 1);
    }
  }

  // ---------------------------------------------------------------------
  // Grouping by replicate

  /** The replicate of a row, `x[0]`; every selected row has one. */
  function Key(row: Row): string {
    if |row| > 0 then row[0] else ""
  }

  /** `groupby(rows, lambda x: x[0])`: maximal runs of consecutive rows
      with one replicate. */
  function Groups(rows: seq<Row>): (gs: seq<seq<Row>>)
    ensures |gs| == 0 <==> |rows| == 0
    ensures forall i :: 0 <= i < |gs| ==> |gs[i]| > 0
    ensures |gs| > 0 ==> Key(gs[|gs| - 1][0]) == Key(rows[|rows| - 1])
  {
    if |rows| == 0 then []
    else
      var gs := Groups(rows[..|rows| - 1]);
      var last := rows[|rows| - 1];
      if |gs| > 0 && Key(gs[|gs| - 1][0]) == Key(last) then
        gs[..|gs| - 1] + [gs[|gs| - 1] + [last]]
      else
        gs + [[last]]
  }

  /** Concatenating the groups gives back the rows. */
  lemma {:induction false} GroupsFlatten(rows: seq<Row>)
    ensures Flatten(Groups(rows)) == rows
  {
    if |rows| > 0 {
      var front := rows[..|rows| - 1];
      var last := rows[|rows| - 1];
      var gs := Groups(front);
      GroupsFlatten(front);
      assert front + [last] == rows;
      if |gs| > 0 && Key(gs[|gs| - 1][0]) == Key(last) {
        var init := gs[..|gs| - 1];
        assert Groups(rows) == init + [gs[|gs| - 1] + [last]];
        assert init + [gs[|gs| - 1]] == gs;
        FlattenExtend(init, gs[|gs| - 1], last);
      } else {
        assert Groups(rows) == gs + [[last]];
        FlattenSnoc(gs, [last]);
      }
    }
  }

  lemma FlattenExtend<T>(init: seq<seq<T>>, g: seq<T>, x: T)
    ensures Flatten(init + [g + [x]]) == Flatten(init + [g]) + [x]
  {
    FlattenSnoc(init, g + [x]);
    FlattenSnoc(init, g);
    assert Flatten(init) + (g + [x]) == (Flatten(init) + g) + [x];
  }

  lemma {:induction false} FlattenSnoc<T>(ss: seq<seq<T>>, s: seq<T>)
    ensures Flatten(ss + [s]) == Flatten(ss) + s
  {
    if |ss| == 0 {
      assert ss + [s] == [s];
    } else {
      assert (ss + [s])[1..] == ss[1..] + [s];
      FlattenSnoc(ss[1..], s);
    }
  }

  /** Every row of a group has the group's replicate. */
  lemma {:induction false} GroupKey(rows: seq<Row>, i: nat, j: nat)
    requires i < |Groups(rows)| && j < |Groups(rows)[i]|
    ensures Key(Groups(rows)[i][j]) == Key(Groups(rows)[i][0])
  {
    var front := rows[..|rows| - 1];
    var last := rows[|rows| - 1];
    var gs := Groups(front);
    var r := Groups(rows);
    if |gs| > 0 && Key(gs[|gs| - 1][0]) == Key(last) {
      var n := |gs| - 1;
      if i < n {
        assert r[i] == gs[i];
        GroupKey(front, i, j);
      } else {
        assert r[n] == gs[n] + [last];
        if j < |gs[n]| {
          GroupKey(front, n, j);
        }
      }
    } else if i < |gs| {
      assert r[i] == gs[i];
      GroupKey(front, i, j);
    } else {
      assert r[i] == [last];
    }
  }

  /** Consecutive groups have different replicates: the groups are
      maximal. */
  lemma {:induction false} GroupsDiffer(rows: seq<Row>, i: nat)
    requires i + 1 < |Groups(rows)|
    ensures Key(Groups(rows)[i][0]) != Key(Groups(rows)[i + 1][0])
  {
    var front := rows[..|rows| - 1];
    var last := rows[|rows| - 1];
    var gs := Groups(front);
    var r := Groups(rows);
    if |gs| > 0 && Key(gs[|gs| - 1][0]) == Key(last) {
      var n := |gs| - 1;
      assert r == gs[..n] + [gs[n] + [last]];
      assert r[i] == gs[i] && r[i + 1][0] == gs[i + 1][0];
      GroupsDiffer(front, i);
    } else {
      assert r == gs + [[last]];
      if i + 1 < |gs| {
        assert r[i] == gs[i] && r[i + 1] == gs[i + 1];
        GroupsDiffer(front, i);
      } else {
        assert r[i] == gs[|gs| - 1] && r[i + 1] == [last];
      }
    }
  }

  /** `groupby`, one row at a time: a row of the current replicate extends
      the last group, another opens a new group. */
  method GroupRows(rows: seq<Row>) returns (gs: seq<seq<Row>>)
    ensures gs == Groups(rows)
  {
    gs := [];
    var k := 0;
    while k < |rows|
      invariant 0 <= k <= |rows|
      invariant gs == Groups(rows[..k])
    {
      assert rows[..k + 1][..k] == rows[..k];
      var row := rows[k];
      if |gs| > 0 && Key(gs[|gs| - 1][0]) == Key(row) {
        gs := gs[..|gs| - 1] + [gs[|gs| - 1] + [row]];
      } else {
        gs := gs + [[row]];
      }
      k := k + 1;
    }
    assert rows[..k] == rows;
  }

  // ---------------------------------------------------------------------
  // Pairing chromosomes

  /** `vals[5:]`: the alleles of a chromosome. */
  function Alleles(row: Row): Row {
    if |row| <= 5 then [] else row[5..]
  }

  /** `zip(a, b)` into genes: as many as the shorter chromosome has. */
  function Zip(a: Row, b: Row): (g: Genotype)
    ensures |g| == if |a| < |b| then |a| else |b|
    ensures forall l :: 0 <= l < |g| ==> g[l] == Gene(a[l], b[l])
  {
    var n := if |a| < |b| then |a| else |b|;
    seq(n, l requires 0 <= l < n => Gene(a[l], b[l]))
  }

  /** One individual from its two chromosomes: both must carry its id
      (`ValueError` otherwise), the first also its selfing count, read as
      `int(float(x))`. */
  function Individual(r0: Row, r1: Row): (r: Result<(string, int, Genotype)>)
  {
    if |r0| < 3 || |r1| < 3 then Err(IndexError)
    else if r0[2] != r1[2] then Err(ValueError("Chromosomes come from different individual"))
    else if |r0| < 4 then Err(IndexError)
    else
      match TruncateFloat(r0[3])
      case Err(e) => Err(e)
      case Ok(t) => Ok((r0[2], t, Zip(Alleles(r0), Alleles(r1))))
  }

  /** The ids, selfing counts and genotypes read so far. */
  datatype Columns = Columns(ids: seq<string>, tags: seq<int>, genos: seq<Genotype>)

  function Before(c: Columns, rest: Result<Columns>): Result<Columns> {
    match rest
    case Err(e) => Err(e)
    case Ok(d) => Ok(Columns(c.ids + d.ids, c.tags + d.tags, c.genos + d.genos))
  }

  /** `izip(irawdata, irawdata)`: the rows two by two, a last unpaired
      row being dropped. */
  function Paired(group: seq<Row>): (ps: seq<(Row, Row)>)
    ensures |ps| == |group| / 2
  {
    seq(|group| / 2, i requires 0 <= i < |group| / 2 => (group[2 * i], group[2 * i + 1]))
  }

  /** The individuals of a group's pairs; the first failing pair stops the
      reading. */
  function Records(ps: seq<(Row, Row)>): (r: Result<Columns>)
    ensures r.Ok? ==> |r.value.ids| == |r.value.tags| == |r.value.genos| == |ps|
  {
    if |ps| == 0 then Ok(Columns([], [], []))
    else
      match Individual(ps[0].0, ps[0].1)
      case Err(e) => Err(e)
      case Ok((id, t, g)) => Before(Columns([id], [t], [g]), Records(ps[1..]))
  }

  lemma BeforeNothing(rest: Result<Columns>)
    ensures Before(Columns([], [], []), rest) == rest
  {
    if rest.Ok? {
      var d := rest.value;
      assert [] + d.ids == d.ids && [] + d.tags == d.tags && [] + d.genos == d.genos;
    }
  }

  lemma BeforeTwice(c: Columns, e: Columns, rest: Result<Columns>)
    ensures Before(c, Before(e, rest))
      == Before(Columns(c.ids + e.ids, c.tags + e.tags, c.genos + e.genos), rest)
  {
    if rest.Ok? {
      var d := rest.value;
      assert c.ids + (e.ids + d.ids) == c.ids + e.ids + d.ids;
      assert c.tags + (e.tags + d.tags) == c.tags + e.tags + d.tags;
      assert c.genos + (e.genos + d.genos) == c.genos + e.genos + d.genos;
    }
  }

  /** The loop over `izip(irawdata, irawdata)`. */
  method PairRows(group: seq<Row>) returns (r: Result<Columns>)
    ensures r == Records(Paired(group))
  {
    var ps := Paired(group);
    var c := Columns([], [], []);
    var k := 0;
    assert ps[0..] == ps;
    BeforeNothing(Records(ps));
    while k < |ps|
      invariant 0 <= k <= |ps|
      invariant Records(ps) == Before(c, Records(ps[k..]))
    {
      assert ps[k..][0] == ps[k] && ps[k..][1..] == ps[k + 1..];
      var (r0, r1) := ps[k];
      var v := Individual(r0, r1);
      if v.Err? {
        return Err(v.error);
      }
      var (id, t, g) := v.value;
      BeforeTwice(c, Columns([id], [t], [g]), Records(ps[k + 1..]));
      c := Columns(c.ids + [id], c.tags + [t], c.genos + [g]);
      k := k + 1;
    }
    assert c.ids + [] == c.ids && c.tags + [] == c.tags && c.genos + [] == c.genos;
    r := Ok(c);
  }

  /** Individual `i` comes from pair `i`. */
  lemma {:induction false} RecordsAt(ps: seq<(Row, Row)>, i: nat)
    requires Records(ps).Ok? && i < |ps|
    ensures Individual(ps[i].0, ps[i].1) == Ok((
      Records(ps).value.ids[i], Records(ps).value.tags[i], Records(ps).value.genos[i]))
  {
    var c := Records(ps).value;
    var d := Records(ps[1..]).value;
    if i > 0 {
      RecordsAt(ps[1..], i - 1);
      assert c.ids[i] == d.ids[i - 1] && c.tags[i] == d.tags[i - 1] && c.genos[i] == d.genos[i - 1];
    }
  }

  /** One failing pair makes the group fail. */
  lemma {:induction false} RecordsFail(ps: seq<(Row, Row)>, i: nat)
    requires i < |ps| && Individual(ps[i].0, ps[i].1).Err?
    ensures Records(ps).Err?
  {
    if i > 0 && Individual(ps[0].0, ps[0].1).Ok? {
      RecordsFail(ps[1..], i - 1);
    }
  }

  /** The group reports the error of its first failing pair. */
  lemma {:induction false} RecordsFirstFailure(ps: seq<(Row, Row)>, i: nat)
    requires i < |ps| && Individual(ps[i].0, ps[i].1).Err?
    requires forall j :: 0 <= j < i ==> Individual(ps[j].0, ps[j].1).Ok?
    ensures Records(ps) == Err(Individual(ps[i].0, ps[i].1).error)
  {
    if i > 0 {
      var rest := ps[1..];
      assert rest[i - 1] == ps[i];
      forall j | 0 <= j < i - 1
        ensures Individual(rest[j].0, rest[j].1).Ok?
      {
        assert rest[j] == ps[j + 1];
      }
      RecordsFirstFailure(rest, i - 1);
      var x := Individual(ps[0].0, ps[0].1).value;
      assert Records(ps) == Before(Columns([x.0], [x.1], [x.2]), Records(rest));
    }
  }

  /** Two chromosomes of one pair that carry different individual ids
      make the group fail with `ValueError`, once the pairs before them
      have been read. */
  lemma MismatchedIds(fname: string, group: seq<Row>, i: nat)
    requires i < |group| / 2 && |group[2 * i]| >= 3 && |group[2 * i + 1]| >= 3
    requires group[2 * i][2] != group[2 * i + 1][2]
    requires forall j :: 0 <= j < i ==> Individual(group[2 * j], group[2 * j + 1]).Ok?
    ensures GroupSample(fname, group) == Err(ValueError("Chromosomes come from different individual"))
  {
    var ps := Paired(group);
    forall j | 0 <= j < i
      ensures Individual(ps[j].0, ps[j].1).Ok?
    {
      PairedAt(group, j);
    }
    PairedAt(group, i);
    RecordsFirstFailure(ps, i);
  }

  /** With every pair readable the group is read in full. */
  lemma {:induction false} RecordsSucceed(ps: seq<(Row, Row)>)
    requires forall i :: 0 <= i < |ps| ==> Individual(ps[i].0, ps[i].1).Ok?
    ensures Records(ps).Ok?
  {
    if |ps| > 0 {
      assert Individual(ps[0].0, ps[0].1).Ok?;
      RecordsSucceed(ps[1..]);
    }
  }

  /** Pair `i` is made of rows `2i` and `2i + 1` of the group. */
  lemma PairedAt(group: seq<Row>, i: nat)
    requires i < |group| / 2
    ensures 2 * i + 1 < |group| && Paired(group)[i] == (group[2 * i], group[2 * i + 1])
  {
  }

  // ---------------------------------------------------------------------
  // The samples

  /** `FullSample(fname, ids, genos, inbgens)` of one group; a group of a
      single row has no individual and fails on `genos[0]`. */
  function GroupSample(fname: string, group: seq<Row>): (r: Result<Sample>)
  {
    match Records(Paired(group))
    case Err(e) => Err(e)
    case Ok(c) => NewSample(fname, c.ids, c.genos, Some(c.tags))
  }

  /** Results taken in order: the first failure, or all the values. */
  function Collect<T>(rs: seq<Result<T>>): (r: Result<seq<T>>)
    ensures r.Ok? ==> |r.value| == |rs|
  {
    if |rs| == 0 then Ok([])
    else
      match rs[0]
      case Err(e) => Err(e)
      case Ok(x) => Prefix([x], Collect(rs[1..]))
  }

  /** A collection that succeeded holds each result's value in place. */
  lemma {:induction false} CollectAt<T>(rs: seq<Result<T>>, k: nat)
    requires Collect(rs).Ok? && k < |rs|
    ensures rs[k] == Ok(Collect(rs).value[k])
  {
    if k > 0 {
      CollectAt(rs[1..], k - 1);
    }
  }

  /** One failing result makes the collection fail. */
  lemma {:induction false} CollectFails<T>(rs: seq<Result<T>>, k: nat)
    requires k < |rs| && rs[k].Err?
    ensures Collect(rs).Err?
  {
    if k > 0 && rs[0].Ok? {
      CollectFails(rs[1..], k - 1);
    }
  }

  /** Each group's sample, or the error reading it. */
  function GroupResults(fname: string, gs: seq<seq<Row>>): (rs: seq<Result<Sample>>)
    ensures |rs| == |gs|
  {
    seq(|gs|, k requires 0 <= k < |gs| => GroupSample(fname, gs[k]))
  }

  /** The groups' samples in order; the first failure stops the reading. */
  function GroupSamples(fname: string, gs: seq<seq<Row>>): (r: Result<seq<Sample>>)
  {
    Collect(GroupResults(fname, gs))
  }

  /** `fromtsv(fname, gen)` on the file's lines. */
  function FromTsv(fname: string, lines: seq<string>, gen: int): (r: Result<seq<Sample>>)
  {
    if |lines| == 0 then Err(StopIteration)
    else
      match Selected(lines[1..], gen)
      case Err(e) => Err(e)
      case Ok(rows) =>
        if |rows| % 2 != 0 then Err(ValueError("Number of chromosomes not mulitple of 2"))
        else GroupSamples(fname, Groups(rows))
  }

  /** The loop over the groups. */
  method SampleGroups(fname: string, gs: seq<seq<Row>>) returns (r: Result<seq<Sample>>)
    ensures r == GroupSamples(fname, gs)
  {
    ghost var rs := GroupResults(fname, gs);
    var samples: seq<Sample> := [];
    var k := 0;
    assert rs[0..] == rs;
    PrefixNothing(Collect(rs));
    while k < |gs|
      invariant 0 <= k <= |gs|
      invariant Collect(rs) == Prefix(samples, Collect(rs[k..]))
    {
      assert rs[k..][0] == GroupSample(fname, gs[k]) && rs[k..][1..] == rs[k + 1..];
      var c := PairRows(gs[k]);
      if c.Err? {
        return Err(c.error);
      }
      var s := NewSample(fname, c.value.ids, c.value.genos, Some(c.value.tags));
      if s.Err? {
        return Err(s.error);
      }
      PrefixTwice(samples, [s.value], Collect(rs[k + 1..]));
      samples := samples + [s.value];
      k := k + 1;
    }
    assert samples + [] == samples;
    r := Ok(samples);
  }

  /** `fromtsv`. */
  method ReadTsv(fname: string, lines: seq<string>, gen: int) returns (r: Result<seq<Sample>>)
    ensures r == FromTsv(fname, lines, gen)
  {
    if |lines| == 0 {
      return Err(StopIteration);
    }
    var rows := SelectRows(lines[1..], gen);
    if rows.Err? {
      return Err(rows.error);
    }
    if |rows.value| % 2 != 0 {
      return Err(ValueError("Number of chromosomes not mulitple of 2"));
    }
    var gs := GroupRows(rows.value);
    r := SampleGroups(fname, gs);
  }

  // ---------------------------------------------------------------------
  // Properties of the whole

  /** An odd number of selected chromosomes is refused before any group
      is read. */
  lemma OddRowsRefused(fname: string, lines: seq<string>, gen: int)
    requires |lines| > 0 && Selected(lines[1..], gen).Ok? && |Selected(lines[1..], gen).value| % 2 == 1
    ensures FromTsv(fname, lines, gen) == Err(ValueError("Number of chromosomes not mulitple of 2"))
  {
  }

  /** A generation the file does not record gives no sample at all. */
  lemma NoRecordedGeneration(fname: string, lines: seq<string>, gen: int)
    requires |lines| > 0 && Selected(lines[1..], gen) == Ok([])
    ensures FromTsv(fname, lines, gen) == Ok([])
  {
  }

  /** The `k`-th sample is read from the `k`-th group, and any group
      that cannot be read makes the file fail. */
  lemma GroupSamplesAt(fname: string, gs: seq<seq<Row>>, k: nat)
    requires k < |gs|
    ensures GroupSamples(fname, gs).Ok? ==>
      GroupSample(fname, gs[k]) == Ok(GroupSamples(fname, gs).value[k])
    ensures GroupSample(fname, gs[k]).Err? ==> GroupSamples(fname, gs).Err?
  {
    var rs := GroupResults(fname, gs);
    if Collect(rs).Ok? {
      CollectAt(rs, k);
    }
    if rs[k].Err? {
      CollectFails(rs, k);
    }
  }

  /** Every sample read is a well-formed sample of the file, with one
      selfing count per individual, read from its group's rows. */
  lemma GroupSampleShape(fname: string, group: seq<Row>)
    requires GroupSample(fname, group).Ok?
    ensures var s := GroupSample(fname, group).value;
      && WellFormed(s) && s.src == fname && s.tselfing.Some?
      && |s.genos| == |group| / 2 && |group| >= 2
      && s.ids == Records(Paired(group)).value.ids && s.tselfing.value == Records(Paired(group)).value.tags
  {
  }
}
