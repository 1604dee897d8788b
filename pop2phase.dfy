/** inbreeding/pop2phase.py: turning a saved population into rows of
    per-locus codes, and sampling those rows for PHASE.

    Each locus has its own code book: the first time a haplotype (the
    locus's alleles on one chromosome) is seen it gets the book's next
    code, so that codes are dense and identify haplotypes. The `csv` step
    writes one row per individual, the codes of its two chromosomes
    interleaved locus by locus; the `phase` step draws individuals and loci
    from such rows and may shuffle the columns. */
module Pop2Phase {
  import opened Wrappers
  import opened Utility
  import opened SampleData
  import opened Text

  // ---------------------------------------------------------------------
  // One locus's code book

  /** The dictionary `codes` of one locus: the haplotype length once it is
      known (`codes['length']`), the next code (`codes['idx']`) and the
      code of each haplotype seen (keyed by `str(locus)`, which tells
      different haplotypes apart). */
  datatype CodeBook = CodeBook(length: Option<nat>, idx: nat, table: map<seq<int>, nat>)

  /** `{'idx': 0}`. */
  const Fresh: CodeBook := CodeBook(None, 0, map[])

  /** `encode(locus, codes)`: the code of `locus` and the book afterwards.
      The first haplotype fixes the length; one of another length raises
      `ValueError` and leaves the book alone. */
  function Encode(b: CodeBook, locus: seq<int>): (Result<nat>, CodeBook) {
    var len := if b.length.Some? then b.length.value else |locus|;
    var b1 := b.(length := Some(len));
    if len != |locus| then (Err(ValueError("wrong number of sites in a locus")), b)
    else if locus in b.table then (Ok(b.table[locus]), b1)
    else (Ok(b.idx), b1.(table := b.table[locus := b.idx], idx := b.idx + 1))
  }

  /** What every book the program builds satisfies: each code below `idx`
      belongs to exactly one haplotype, every haplotype has one, and all
      have the recorded length. */
  predicate Dense(b: CodeBook) {
    && (forall h :: h in b.table ==> b.length == Some(|h|))
    && (forall h1, h2 :: h1 in b.table && h2 in b.table && b.table[h1] == b.table[h2] ==> h1 == h2)
    && b.table.Values == Below(b.idx)
  }

  /** The codes `0 .. n - 1`. */
  function Below(n: nat): (r: set<nat>)
    ensures forall c: nat :: c in r <==> c < n
  {
    if n == 0 then {} else Below(n - 1) + {n - 1}
  }

  lemma FreshDense()
    ensures Dense(Fresh)
  {
  }

  /** A haplotype already seen gets its code back and the book is
      unchanged. */
  lemma EncodeSeen(b: CodeBook, locus: seq<int>)
    requires Dense(b) && locus in b.table
    ensures Encode(b, locus) == (Ok(b.table[locus]), b)
  {
  }

  /** A new haplotype of the right length gets the next code, which then
      moves on by one. */
  lemma EncodeUnseen(b: CodeBook, locus: seq<int>)
    requires locus !in b.table && (b.length == None || b.length == Some(|locus|))
    ensures Encode(b, locus).0 == Ok(b.idx)
    ensures Encode(b, locus).1 == CodeBook(Some(|locus|), b.idx + 1, b.table[locus := b.idx])
  {
  }

  /** A haplotype of another length than the first is refused. */
  lemma EncodeWrongLength(b: CodeBook, locus: seq<int>)
    requires b.length.Some? && b.length.value != |locus|
    ensures Encode(b, locus) == (Err(ValueError("wrong number of sites in a locus")), b)
  {
  }

  /** Encoding keeps a book dense and the code it returns is the
      haplotype's entry. */
  lemma EncodeKeepsDense(b: CodeBook, locus: seq<int>)
    requires Dense(b)
    ensures Dense(Encode(b, locus).1)
    ensures Encode(b, locus).0.Ok? ==>
      locus in Encode(b, locus).1.table && Encode(b, locus).1.table[locus] == Encode(b, locus).0.value
  {
    var len := if b.length.Some? then b.length.value else |locus|;
    if len != |locus| {
      assert Encode(b, locus).1 == b;
    } else if locus in b.table {
      assert Encode(b, locus).1 == b.(length := Some(len));
    } else {
      var b2 := CodeBook(Some(len), b.idx + 1, b.table[locus := b.idx]);
      assert Encode(b, locus) == (Ok(b.idx), b2);
      ValuesAdd(b.table, locus, b.idx);
      assert b2.table.Values == Below(b2.idx);
    }
  }

  /** Adding a new key adds its value to the map's values. */
  lemma ValuesAdd<K, V>(m: map<K, V>, k: K, v: V)
    requires k !in m
    ensures m[k := v].Values == m.Values + {v}
  {
    var m2 := m[k := v];
    forall c | c in m2.Values
      ensures c in m.Values + {v}
    {
      var h :| h in m2 && m2[h] == c;
      if h != k {
        assert h in m && m[h] == c;
      }
    }
    forall c | c in m.Values
      ensures c in m2.Values
    {
      var h :| h in m && m[h] == c;
      assert h != k && m2[h] == c;
    }
    assert m2[k] == v;
  }

  /** The sequence of calls in the unit test of `encode`. */
  lemma EncodeExample()
    ensures var (c1, b1) := Encode(Fresh, [0, 0, 0]);
      var (c2, b2) := Encode(b1, [0, 1, 0]);
      var (c3, b3) := Encode(b2, [1, 1, 0]);
      var (c4, b4) := Encode(b3, [0, 1, 0]);
      var (c5, b5) := Encode(b4, [0, 0, 0]);
      var (c6, _) := Encode(b5, [0, 0]);
      c1 == Ok(0) && c2 == Ok(1) && c3 == Ok(2) && c4 == Ok(1) && c5 == Ok(0) && c6.Err?
  {
    var b1 := Encode(Fresh, [0, 0, 0]).1;
    assert b1 == CodeBook(Some(3), 1, map[[0, 0, 0] := 0]);
    var b2 := Encode(b1, [0, 1, 0]).1;
    assert [0, 1, 0] != [0, 0, 0] by { assert [0, 1, 0][1] != [0, 0, 0][1]; }
    assert b2 == CodeBook(Some(3), 2, map[[0, 0, 0] := 0, [0, 1, 0] := 1]);
    var b3 := Encode(b2, [1, 1, 0]).1;
    assert [1, 1, 0] != [0, 0, 0] && [1, 1, 0] != [0, 1, 0] by {
      assert [1, 1, 0][0] != [0, 0, 0][0] && [1, 1, 0][0] != [0, 1, 0][0];
    }
    assert b3.table == map[[0, 0, 0] := 0, [0, 1, 0] := 1, [1, 1, 0] := 2];
    assert Encode(b3, [0, 1, 0]) == (Ok(1), b3);
    assert Encode(b3, [0, 0, 0]) == (Ok(0), b3);
  }

  // ---------------------------------------------------------------------
  // The books of all loci

  /** `loci_dict` after encoding `locus` in book `k`: `KeyError` when
      there is no book `k`. */
  function EncodeAt(books: map<int, CodeBook>, k: int, locus: seq<int>): (Result<nat>, map<int, CodeBook>) {
    if k !in books then (Err(KeyError(IntToString(k))), books)
    else
      var (r, b) := Encode(books[k], locus);
      (r, books[k := b])
  }

  /** `convert_genotype(genotype, loci_dict)`: the `k`-th haplotype is
      encoded in book `k`, in order; the first failure stops it, the books
      keeping what was encoded before. */
  function Convert(books: map<int, CodeBook>, genotype: seq<seq<int>>): (r: (Result<seq<nat>>, map<int, CodeBook>))
    ensures r.0.Ok? ==> |r.0.value| == |genotype|
  {
    if |genotype| == 0 then (Ok([]), books)
    else
      var k := |genotype| - 1;
      var (codes, b1) := Convert(books, genotype[..k]);
      if codes.Err? then (codes, b1)
      else
        var (c, b2) := EncodeAt(b1, k, genotype[k]);
        if c.Err? then (Err(c.error), b2) else (Ok(codes.value + [c.value]), b2)
  }

  /** After a failure the rest of the genotype is not looked at. */
  lemma {:induction false} ConvertStuck(books: map<int, CodeBook>, genotype: seq<seq<int>>, m: nat)
    requires m <= |genotype| && Convert(books, genotype[..m]).0.Err?
    ensures Convert(books, genotype) == Convert(books, genotype[..m])
  {
    if m < |genotype| {
      var k := |genotype| - 1;
      assert genotype[..k][..m] == genotype[..m];
      ConvertStuck(books, genotype[..k], m);
    } else {
      assert genotype[..m] == genotype;
    }
  }

  /** Code `k` is the `k`-th haplotype's code in book `k`, and book `k` is
      the one left by that encoding; the other books are untouched. */
  lemma {:induction false} ConvertAt(books: map<int, CodeBook>, genotype: seq<seq<int>>, k: nat)
    requires Convert(books, genotype).0.Ok? && k < |genotype|
    ensures k in books && k in Convert(books, genotype).1
    ensures Encode(books[k], genotype[k])
      == (Ok(Convert(books, genotype).0.value[k]), Convert(books, genotype).1[k])
  {
    var n := |genotype| - 1;
    var (codes, b1) := Convert(books, genotype[..n]);
    ConvertKeys(books, genotype[..n]);
    if k < n {
      assert genotype[..n][k] == genotype[k];
      ConvertAt(books, genotype[..n], k);
    } else {
      ConvertOthers(books, genotype[..n], n, n);
    }
  }

  /** Encoding never adds or removes books. */
  lemma {:induction false} ConvertKeys(books: map<int, CodeBook>, genotype: seq<seq<int>>)
    ensures Convert(books, genotype).1.Keys == books.Keys
  {
    if |genotype| > 0 {
      ConvertKeys(books, genotype[..|genotype| - 1]);
    }
  }

  /** Books from `j` on are untouched by the first `j` haplotypes. */
  lemma {:induction false} ConvertOthers(books: map<int, CodeBook>, genotype: seq<seq<int>>, j: nat, n: nat)
    requires |genotype| <= j && n == |genotype|
    ensures forall i :: i in books && (i < 0 || i >= j) ==>
      i in Convert(books, genotype).1 && Convert(books, genotype).1[i] == books[i]
  {
    ConvertKeys(books, genotype);
    if n > 0 {
      ConvertOthers(books, genotype[..n - 1], j, n - 1);
    }
  }

  /** A haplotype with no book: `loci_dict` has fewer books than the
      genotype has loci. */
  lemma ConvertMissingBook(books: map<int, CodeBook>, genotype: seq<seq<int>>)
    requires |genotype| > 0 && (forall k :: 0 <= k < |genotype| - 1 ==> k in books)
    requires |genotype| - 1 !in books
    ensures Convert(books, genotype).0.Err?
  {
    var n := |genotype| - 1;
    var (codes, b1) := Convert(books, genotype[..n]);
    ConvertKeys(books, genotype[..n]);
  }

  /** `{i: {'idx': 0} for i in range(n)}`. */
  function FreshBooks(n: nat): (r: map<int, CodeBook>)
    ensures forall i :: i in r <==> 0 <= i < n
    ensures forall i :: i in r ==> r[i] == Fresh
  {
    if n == 0 then map[] else FreshBooks(n - 1)[n - 1 := Fresh]
  }

  /** `loci_dict`, a dictionary of code books keyed by position. */
  class LociDict {
    var books: map<int, CodeBook>

    /** `{i: {'idx': 0} for i in range(pop_size)}`. */
    constructor (popSize: nat)
      ensures books == FreshBooks(popSize)
    {
      books := FreshBooks(popSize);
    }

    /** `convert_genotype(genotype, self)`. */
    method ConvertGenotype(genotype: seq<seq<int>>) returns (r: Result<seq<nat>>)
      modifies this
      ensures (r, books) == Convert(old(books), genotype)
    {
      ghost var b0 := books;
      var codes: seq<nat> := [];
      var k := 0;
      while k < |genotype|
        invariant 0 <= k <= |genotype|
        invariant (Ok(codes), books) == Convert(b0, genotype[..k])
      {
        assert genotype[..k + 1][..k] == genotype[..k];
        if k !in books {
          ConvertStuck(b0, genotype, k + 1);
          return Err(KeyError(IntToString(k)));
        }
        var (c, b) := Encode(books[k], genotype[k]);
        books := books[k := b];
        if c.Err? {
          ConvertStuck(b0, genotype, k + 1);
          return Err(c.error);
        }
        codes := codes + [c.value];
        k := k + 1;
      }
      assert genotype[..k] == genotype;
      r := Ok(codes);
    }
  }

  // ---------------------------------------------------------------------
  // `to_csv`

  /** `itertools.chain.from_iterable(zip(a, b))`: the two lists' entries
      alternately, as far as the shorter goes. */
  function Interleave(a: seq<nat>, b: seq<nat>): (r: seq<nat>)
    ensures |r| == 2 * (if |a| < |b| then |a| else |b|)
  {
    if |a| == 0 || |b| == 0 then [] else [a[0], b[0]] + Interleave(a[1..], b[1..])
  }

  /** Column `2i` holds the first chromosome's code at locus `i`, column
      `2i + 1` the second's. */
  lemma {:induction false} InterleaveAt(a: seq<nat>, b: seq<nat>, i: nat)
    requires i < |a| && i < |b|
    ensures 2 * i + 1 < |Interleave(a, b)|
    ensures Interleave(a, b)[2 * i] == a[i] && Interleave(a, b)[2 * i + 1] == b[i]
  {
    if i > 0 {
      InterleaveAt(a[1..], b[1..], i - 1);
      var r := Interleave(a, b);
      assert r == [a[0], b[0]] + Interleave(a[1..], b[1..]);
      assert r[2 * i] == Interleave(a[1..], b[1..])[2 * (i - 1)];
      assert r[2 * i + 1] == Interleave(a[1..], b[1..])[2 * (i - 1) + 1];
    }
  }

  /** Python 2 integer division, which rounds toward minus infinity. */
  function FloorDiv(a: int, b: int): int
    requires b != 0
  {
    if b > 0 then a / b else (-a) / (-b)
  }

  /** An individual: its two chromosomes' alleles. */
  datatype Individual = Individual(copy0: seq<int>, copy1: seq<int>)

  /** One individual's row: both chromosomes cut into loci of `lenLocus`
      sites and encoded, first chromosome first, then interleaved. */
  function RowOf(books: map<int, CodeBook>, ind: Individual, lenLocus: int): (Result<seq<nat>>, map<int, CodeBook>) {
    match ChunksOf(ind.copy0, lenLocus)
    case Err(e) => (Err(e), books)
    case Ok(loci0) =>
      var (g0, b1) := Convert(books, loci0);
      if g0.Err? then (Err(g0.error), b1)
      else
        match ChunksOf(ind.copy1, lenLocus)
        case Err(e) => (Err(e), b1)
        case Ok(loci1) =>
          var (g1, b2) := Convert(b1, loci1);
          if g1.Err? then (Err(g1.error), b2)
          else (Ok(Interleave(g0.value, g1.value)), b2)
  }

  /** The rows of the individuals in order, sharing the books; the first
      failure stops it. */
  function Rows(books: map<int, CodeBook>, pop: seq<Individual>, lenLocus: int): (r: (Result<seq<seq<nat>>>, map<int, CodeBook>))
    ensures r.0.Ok? ==> |r.0.value| == |pop|
  {
    if |pop| == 0 then (Ok([]), books)
    else
      var k := |pop| - 1;
      var (rows, b1) := Rows(books, pop[..k], lenLocus);
      if rows.Err? then (rows, b1)
      else
        var (row, b2) := RowOf(b1, pop[k], lenLocus);
        if row.Err? then (Err(row.error), b2) else (Ok(rows.value + [row.value]), b2)
  }

  lemma {:induction false} RowsStuck(books: map<int, CodeBook>, pop: seq<Individual>, lenLocus: int, m: nat)
    requires m <= |pop| && Rows(books, pop[..m], lenLocus).0.Err?
    ensures Rows(books, pop, lenLocus) == Rows(books, pop[..m], lenLocus)
  {
    if m < |pop| {
      var k := |pop| - 1;
      assert pop[..k][..m] == pop[..m];
      RowsStuck(books, pop[..k], lenLocus, m);
    } else {
      assert pop[..m] == pop;
    }
  }

  /** `to_csv` on a population of `pop`, `totNumLoci` sites per chromosome
      and `nloci` loci: one book per individual (not per locus), then the
      rows. */
  function CsvRows(pop: seq<Individual>, totNumLoci: nat, nloci: int): (r: Result<seq<seq<nat>>>)
    ensures r.Ok? ==> |r.value| == |pop|
  {
    if nloci == 0 then Err(ZeroDivisionError)
    else Rows(FreshBooks(|pop|), pop, FloorDiv(totNumLoci, nloci)).0
  }

  /** `to_csv`, individual by individual. */
  method ToCsv(pop: seq<Individual>, totNumLoci: nat, nloci: int) returns (r: Result<seq<seq<nat>>>)
    ensures r == CsvRows(pop, totNumLoci, nloci)
  {
    if nloci == 0 {
      return Err(ZeroDivisionError);
    }
    var lenLocus := FloorDiv(totNumLoci, nloci);
    var dict := new LociDict(|pop|);
    ghost var b0 := dict.books;
    var rows: seq<seq<nat>> := [];
    var k := 0;
    while k < |pop|
      invariant 0 <= k <= |pop|
      invariant (Ok(rows), dict.books) == Rows(b0, pop[..k], lenLocus)
    {
      assert pop[..k + 1][..k] == pop[..k];
      var row := AppendRow(dict, pop[k], lenLocus);
      if row.Err? {
        RowsStuck(b0, pop, lenLocus, k + 1);
        return Err(row.error);
      }
      rows := rows + [row.value];
      k := k + 1;
    }
    assert pop[..k] == pop;
    r := Ok(rows);
  }

  /** The body of `to_csv`'s loop: one individual's row. */
  method AppendRow(dict: LociDict, ind: Individual, lenLocus: int) returns (r: Result<seq<nat>>)
    modifies dict
    ensures (r, dict.books) == RowOf(old(dict.books), ind, lenLocus)
  {
    var loci0 := ChunksOf(ind.copy0, lenLocus);
    if loci0.Err? {
      return Err(loci0.error);
    }
    var g0 := dict.ConvertGenotype(loci0.value);
    if g0.Err? {
      return Err(g0.error);
    }
    var loci1 := ChunksOf(ind.copy1, lenLocus);
    assert loci1.Ok?;
    var g1 := dict.ConvertGenotype(loci1.value);
    if g1.Err? {
      return Err(g1.error);
    }
    r := Ok(Interleave(g0.value, g1.value));
  }

  /** A population with fewer individuals than loci per chromosome fails:
      the books are keyed by individual, so the last locus has none. */
  lemma FewerIndividualsThanLoci(ind: Individual, lenLocus: nat)
    requires lenLocus > 0 && |ind.copy0| == 2 * lenLocus
    ensures RowOf(FreshBooks(1), ind, lenLocus).0 == Err(KeyError("1"))
  {
    var books := FreshBooks(1);
    var loci := Chunks(ind.copy0, lenLocus);
    ChunksCount(ind.copy0, lenLocus);
    ChunksSizes(ind.copy0, lenLocus);
    assert |loci| == 2 by {
      ChunkExact(ind.copy0, lenLocus);
    }
    var g := loci[..1];
    assert loci[..1][..0] == [];
    assert Convert(books, g).0.Ok?;
    assert loci[..2] == loci;
    ConvertKeys(books, g);
    assert Convert(books, loci).0 == Err(KeyError(IntToString(1)));
    assert IntToString(1) == "1";
  }

  /** A list of `2n` elements cut into pieces of `n` gives two pieces. */
  lemma ChunkExact<T>(l: seq<T>, n: nat)
    requires n > 0 && |l| == 2 * n
    ensures |Chunks(l, n)| == 2
  {
    assert l[n..][..] == l[n..];
    assert |l[n..]| == n;
  }

  // ---------------------------------------------------------------------
  // `write_csv`

  /** `str` of each code. */
  function Strings(row: seq<nat>): (r: seq<string>)
    ensures |r| == |row|
  {
    seq(|row|, j requires 0 <= j < |row| => NatToString(row[j]))
  }

  /** A row as `csv.writer` writes it (codes need no quoting). */
  function CsvLine(row: seq<nat>): string {
    Join(",", Strings(row))
  }

  /** The lines `write_csv` writes: the number of individuals, then one
      line per individual. */
  function CsvLines(rows: seq<seq<nat>>): (r: seq<string>)
    ensures |r| == 1 + |rows| && r[0] == NatToString(|rows|)
    ensures forall i :: 0 <= i < |rows| ==> r[1 + i] == CsvLine(rows[i])
  {
    [NatToString(|rows|)] + seq(|rows|, i requires 0 <= i < |rows| => CsvLine(rows[i]))
  }

  /** Reading the codes of a row back gives the row. */
  lemma {:induction false} ParseAllStrings(row: seq<nat>)
    ensures ParseAll(Strings(row)) == Ok(row)
  {
    if |row| > 0 {
      ParseNatString(row[0]);
      assert Strings(row)[1..] == Strings(row[1..]);
      ParseAllStrings(row[1..]);
      assert [row[0]] + row[1..] == row;
    }
  }

  /** A line `write_csv` wrote splits at commas and reads back as the
      individual's codes; the first line reads back as the population
      size, which is what `sample_loci` reads first. */
  lemma CsvRoundTrip(rows: seq<seq<nat>>, i: nat)
    requires i < |rows| && |rows[i]| > 0
    ensures ParseInt(CsvLines(rows)[0]) == Ok(|rows|)
    ensures ParseList(CsvLines(rows)[1 + i]) == Ok(rows[i])
  {
    ParseNatString(|rows|);
    var fields := Strings(rows[i]);
    forall k | 0 <= k < |fields|
      ensures ',' !in fields[k]
    {
      assert AllDigits(fields[k]);
    }
    SplitJoin(fields, ',');
    ParseAllStrings(rows[i]);
  }

  // ---------------------------------------------------------------------
  // `sample_loci`

  /** The indices below `n` that occur in `idx`, in ascending order. */
  function Kept(n: nat, idx: seq<nat>): (r: seq<nat>)
    ensures |r| <= n
    ensures forall m :: 0 <= m < |r| ==> r[m] < n && r[m] in idx
  {
    if n == 0 then [] else Kept(n - 1, idx) + (if n - 1 in idx then [n - 1] else [])
  }

  /** Every index below `n` that occurs in `idx` is kept. */
  lemma {:induction false} KeptComplete(n: nat, idx: seq<nat>, i: nat)
    requires i < n && i in idx
    ensures i in Kept(n, idx)
  {
    if i < n - 1 {
      KeptComplete(n - 1, idx, i);
    }
  }

  /** The kept indices strictly increase. */
  lemma {:induction false} KeptSorted(n: nat, idx: seq<nat>)
    ensures forall p, q :: 0 <= p < q < |Kept(n, idx)| ==> Kept(n, idx)[p] < Kept(n, idx)[q]
  {
    if n > 0 {
      KeptSorted(n - 1, idx);
    }
  }

  /** The elements of a list as a set. */
  function Elements(s: seq<nat>): set<nat> {
    set x | x in s
  }

  /** A list without repetitions has as many elements as its set. */
  lemma {:induction false} DistinctCard(s: seq<nat>)
    requires Distinct(s)
    ensures |Elements(s)| == |s|
  {
    if |s| > 0 {
      var k := |s| - 1;
      assert Elements(s) == Elements(s[..k]) + {s[k]};
      assert s[k] !in Elements(s[..k]);
      DistinctCard(s[..k]);
    }
  }

  /** Drawing `k` distinct indices below `n` keeps exactly `k` of them. */
  lemma KeptCount(n: nat, idx: seq<nat>, k: nat)
    requires Drawn(idx, k, n)
    ensures |Kept(n, idx)| == k
  {
    var r := Kept(n, idx);
    KeptSorted(n, idx);
    DistinctCard(idx);
    DistinctCard(r);
    forall x | x in Elements(idx)
      ensures x in Elements(r)
    {
      KeptComplete(n, idx, x);
    }
    assert Elements(r) == Elements(idx);
  }

  /** `[l for i, l in enumerate(rows) if i in idx]`: the rows drawn, in the
      file's order. */
  function Picked(rows: seq<seq<string>>, idx: seq<nat>): (r: seq<seq<string>>)
    ensures |r| == |Kept(|rows|, idx)|
  {
    var kept := Kept(|rows|, idx);
    seq(|kept|, m requires 0 <= m < |kept| => rows[kept[m]])
  }

  /** `sorted(chain.from_iterable((2 * i, 2 * i + 1) for i in loci))` for
      distinct loci below `total`: both columns of each chosen locus, in
      ascending order. */
  function Columns(total: nat, loci: seq<nat>): (r: seq<nat>)
    ensures |r| == 2 * |Kept(total, loci)|
  {
    var kept := Kept(total, loci);
    seq(2 * |kept|, c requires 0 <= c < 2 * |kept| => 2 * kept[c / 2] + c % 2)
  }

  /** Column `c` is wanted exactly when its locus `c / 2` was drawn. */
  lemma ColumnsIn(total: nat, loci: seq<nat>, c: nat)
    ensures c in Columns(total, loci) <==> c < 2 * total && c / 2 in loci
  {
    var kept := Kept(total, loci);
    var cols := Columns(total, loci);
    if c < 2 * total && c / 2 in loci {
      KeptComplete(total, loci, c / 2);
      var m :| 0 <= m < |kept| && kept[m] == c / 2;
      assert cols[2 * m + c % 2] == c;
    }
    if c in cols {
      var q :| 0 <= q < |cols| && cols[q] == c;
      assert kept[q / 2] == c / 2;
    }
  }

  /** The wanted columns strictly increase, as `sorted` leaves them. */
  lemma ColumnsSorted(total: nat, loci: seq<nat>, p: nat, q: nat)
    requires p < q < |Columns(total, loci)|
    ensures Columns(total, loci)[p] < Columns(total, loci)[q]
  {
    KeptSorted(total, loci);
    var kept := Kept(total, loci);
    if p / 2 < q / 2 {
      assert kept[p / 2] < kept[q / 2];
    }
  }

  /** `operator.itemgetter(*cols)(row)`. */
  function Get(row: seq<string>, cols: seq<nat>): (r: Result<seq<string>>)
    ensures r.Ok? <==> forall q :: 0 <= q < |cols| ==> cols[q] < |row|
    ensures r.Ok? ==> |r.value| == |cols| && forall q :: 0 <= q < |cols| ==> r.value[q] == row[cols[q]]
  {
    if forall q :: 0 <= q < |cols| ==> cols[q] < |row| then
      Ok(seq(|cols|, q requires 0 <= q < |cols| && cols[q] < |row| => row[cols[q]]))
    else Err(IndexError)
  }

  /** `[itemgetter(*cols)(row) for row in rows]`. */
  function GetAll(rows: seq<seq<string>>, cols: seq<nat>): (r: Result<seq<seq<string>>>)
    ensures r.Ok? <==> forall m :: 0 <= m < |rows| ==> Get(rows[m], cols).Ok?
    ensures r.Ok? ==> |r.value| == |rows| && forall m :: 0 <= m < |rows| ==> r.value[m] == Get(rows[m], cols).value
  {
    if forall m :: 0 <= m < |rows| ==> Get(rows[m], cols).Ok? then
      Ok(seq(|rows|, m requires 0 <= m < |rows| && Get(rows[m], cols).Ok? => Get(rows[m], cols).value))
    else Err(IndexError)
  }

  /** What `random.sample(range(pop_size), nsample)` must return when it
      returns, `pop_size` being read from the file's first row. */
  predicate SampleDrawn(table: seq<seq<string>>, nsample: int, idx: seq<nat>) {
    (|table| > 0 && |table[0]| > 0 && ParseInt(table[0][0]).Ok? && 0 <= nsample <= ParseInt(table[0][0]).value)
      ==> Drawn(idx, nsample, ParseInt(table[0][0]).value)
  }

  /** `sample_loci(c, nloci, nsample)` on the rows of the file. `idx` is
      what `random.sample(range(pop_size), nsample)` draws and `loci` what
      `random.sample(range(totalloci), nloci)` draws. An impossible first
      draw ends the program; an impossible second raises `ValueError`, and
      drawing no loci leaves `itemgetter` without arguments. */
  function SampleLoci(table: seq<seq<string>>, nloci: int, nsample: int, idx: seq<nat>, loci: seq<nat>): (r: Result<seq<seq<string>>>)
    requires SampleDrawn(table, nsample, idx)
  {
    if |table| == 0 then Err(StopIteration)
    else if |table[0]| == 0 then Err(IndexError)
    else
      match ParseInt(table[0][0])
      case Err(e) => Err(e)
      case Ok(popSize) =>
        if nsample < 0 || nsample > popSize then Err(Exit("sample larger than population or is negative"))
        else
          var inds := Picked(table[1..], idx);
          if |inds| == 0 then Err(IndexError)
          else
            var total := |inds[0]| / 2;
            if nloci < 0 || nloci > total then Err(ValueError("sample larger than population or is negative"))
            else if !Drawn(loci, nloci, total) then Err(ValueError("not a sample of the loci"))
            else if nloci == 0 then Err(TypeError)
            else GetAll(inds, Columns(total, loci))
  }

  /** A successful sample has one row per drawn individual (when the file
      holds all `pop_size` of them), each holding, in ascending order, the
      two columns of every drawn locus. */
  lemma SampleLociShape(table: seq<seq<string>>, nloci: int, nsample: int, idx: seq<nat>, loci: seq<nat>)
    requires SampleDrawn(table, nsample, idx)
    requires SampleLoci(table, nloci, nsample, idx, loci).Ok?
    ensures var popSize := ParseInt(table[0][0]).value;
      var rows := SampleLoci(table, nloci, nsample, idx, loci).value;
      && (|table| - 1 == popSize ==> |rows| == nsample)
      && forall m :: 0 <= m < |rows| ==> |rows[m]| == 2 * nloci
  {
    var popSize := ParseInt(table[0][0]).value;
    var inds := Picked(table[1..], idx);
    var total := |inds[0]| / 2;
    if |table| - 1 == popSize {
      KeptCount(|table[1..]|, idx, nsample);
    }
    KeptCount(total, loci, nloci);
  }

  /** The five individuals of the unit test of `sample_loci`, five loci
      of one site each. */
  const ExampleRows: seq<seq<string>> := [
    ["0", "1", "0", "1", "0", "1", "0", "1", "0", "1"],
    ["1", "0", "1", "0", "1", "0", "1", "0", "1", "0"],
    ["0", "1", "2", "1", "0", "1", "2", "1", "0", "1"],
    ["2", "1", "0", "1", "2", "1", "0", "1", "2", "1"],
    ["0", "1", "0", "1", "0", "1", "0", "1", "0", "1"]]

  lemma ParseFive()
    ensures ParseInt("5") == Ok(5)
  {
    assert NatToString(5) == "5";
    ParseNatString(5);
  }

  lemma KeptExample()
    ensures Kept(5, [1, 3]) == [1, 3]
  {
    assert Kept(1, [1, 3]) == [];
    assert Kept(2, [1, 3]) == [1];
    assert Kept(3, [1, 3]) == [1];
    assert Kept(4, [1, 3]) == [1, 3];
  }

  lemma ColumnsExample()
    ensures Columns(5, [1, 3]) == [2, 3, 6, 7]
  {
    KeptExample();
    var cols := Columns(5, [1, 3]);
    assert cols[0] == 2 * 1 + 0 && cols[1] == 2 * 1 + 1;
    assert cols[2] == 2 * 3 + 0 && cols[3] == 2 * 3 + 1;
  }

  lemma PickedExample()
    ensures Picked(ExampleRows, [1, 3]) == [ExampleRows[1], ExampleRows[3]]
  {
    KeptExample();
  }

  lemma GetExample()
    ensures GetAll([ExampleRows[1], ExampleRows[3]], [2, 3, 6, 7]) == Ok([["1", "0", "1", "0"], ["0", "1", "0", "1"]])
  {
    var cols: seq<nat> := [2, 3, 6, 7];
    assert forall q :: 0 <= q < |cols| ==> cols[q] < 10;
    var g1 := Get(ExampleRows[1], cols).value;
    assert g1[0] == "1" && g1[1] == "0" && g1[2] == "1" && g1[3] == "0";
    var g3 := Get(ExampleRows[3], cols).value;
    assert g3[0] == "0" && g3[1] == "1" && g3[2] == "0" && g3[3] == "1";
    assert g1 == ["1", "0", "1", "0"] && g3 == ["0", "1", "0", "1"];
    var rows := [ExampleRows[1], ExampleRows[3]];
    assert Get(rows[0], cols).Ok? && Get(rows[1], cols).Ok?;
    var all := GetAll(rows, cols);
    assert all.value[0] == g1 && all.value[1] == g3;
    assert all.value == [g1, g3];
  }

  /** The unit test of `sample_loci`: individuals 1 and 3 and loci 1 and 3
      drawn from the five. */
  lemma SampleLociExample()
    ensures SampleDrawn([["5"]] + ExampleRows, 2, [1, 3])
    ensures SampleLoci([["5"]] + ExampleRows, 2, 2, [1, 3], [1, 3]) == Ok([["1", "0", "1", "0"], ["0", "1", "0", "1"]])
  {
    var table := [["5"]] + ExampleRows;
    ParseFive();
    assert table[0][0] == "5" && table[1..] == ExampleRows;
    PickedExample();
    assert |ExampleRows[1]| / 2 == 5;
    assert Drawn([1, 3], 2, 5);
    ColumnsExample();
    GetExample();
  }

  // ---------------------------------------------------------------------
  // `randomize`

  /** `randomize(data)` with `order` the shuffled `range(nloci)`: every row
      has its columns put in that order. */
  function Randomize(data: seq<seq<string>>, order: seq<nat>): (r: Result<seq<seq<string>>>)
    requires |data| > 0 ==> Drawn(order, |data[0]|, |data[0]|)
  {
    if |data| == 0 then Err(IndexError)
    else if |order| == 0 then Err(TypeError)
    else GetAll(data, order)
  }

  /** Putting the columns back with the inverse order undoes the shuffle:
      nothing is lost or duplicated. */
  lemma RandomizeUndone(data: seq<seq<string>>, order: seq<nat>, inverse: seq<nat>)
    requires |data| > 0 && Drawn(order, |data[0]|, |data[0]|)
    requires forall m :: 0 <= m < |data| ==> |data[m]| == |data[0]|
    requires |inverse| == |order| && forall q :: 0 <= q < |inverse| ==> inverse[q] < |order| && order[inverse[q]] == q
    requires Randomize(data, order).Ok?
    ensures GetAll(Randomize(data, order).value, inverse) == Ok(data)
  {
    var shuffled := Randomize(data, order).value;
    forall m | 0 <= m < |data|
      ensures Get(shuffled[m], inverse) == Ok(data[m])
    {
      var row := shuffled[m];
      assert row == Get(data[m], order).value;
      assert |row| == |order| == |data[m]|;
      forall q | 0 <= q < |inverse|
        ensures row[inverse[q]] == data[m][q]
      {
        assert row[inverse[q]] == data[m][order[inverse[q]]];
      }
      assert Get(row, inverse).value == data[m];
    }
    assert GetAll(shuffled, inverse).value == data;
  }

  // ---------------------------------------------------------------------
  // `to_phase` and `write_phase`

  /** `[int(i) for i in s.split(',')]`. */
  function ParseList(s: string): (r: Result<seq<int>>)
    ensures r.Ok? ==> |r.value| == |SplitOn(s, ',')|
  {
    ParseAll(SplitOn(s, ','))
  }

  function ParseAll(fields: seq<string>): (r: Result<seq<int>>)
    ensures r.Ok? ==> |r.value| == |fields|
    ensures r.Ok? ==> forall k :: 0 <= k < |fields| ==> ParseInt(fields[k]) == Ok(r.value[k])
  {
    if |fields| == 0 then Ok([])
    else
      match ParseInt(fields[0])
      case Err(e) => Err(e)
      case Ok(x) =>
        match ParseAll(fields[1..])
        case Err(e) => Err(e)
        case Ok(xs) => Ok([x] + xs)
  }

  /** `inds[i].extend(d)` for each row `d` of one file's sample. */
  function Extend(inds: seq<seq<string>>, part: seq<seq<string>>): (r: Result<seq<seq<string>>>)
    ensures r.Ok? <==> |part| <= |inds|
    ensures r.Ok? ==> |r.value| == |inds|
  {
    if |part| > |inds| then Err(IndexError)
    else Ok(seq(|inds|, i requires 0 <= i < |inds| => if i < |part| then inds[i] + part[i] else inds[i]))
  }

  /** Row `i` of all files' samples run together. */
  function Across(parts: seq<seq<seq<string>>>, i: nat): seq<string>
    requires forall p :: 0 <= p < |parts| ==> i < |parts[p]|
  {
    if |parts| == 0 then [] else Across(parts[..|parts| - 1], i) + parts[|parts| - 1][i]
  }

  /** The samples of the files merged into `nsample` rows, file by file;
      `samples[p]` is `sample_loci` on file `p`, and the first failure
      stops it. */
  function Merge(nsample: nat, samples: seq<Result<seq<seq<string>>>>): (r: Result<seq<seq<string>>>)
    ensures r.Ok? ==> |r.value| == nsample
  {
    if |samples| == 0 then Ok(seq(nsample, _ => []))
    else
      match Merge(nsample, samples[..|samples| - 1])
      case Err(e) => Err(e)
      case Ok(inds) =>
        match samples[|samples| - 1]
        case Err(e) => Err(e)
        case Ok(part) => Extend(inds, part)
  }

  lemma {:induction false} MergeStuck(nsample: nat, samples: seq<Result<seq<seq<string>>>>, m: nat)
    requires m <= |samples| && Merge(nsample, samples[..m]).Err?
    ensures Merge(nsample, samples) == Merge(nsample, samples[..m])
  {
    if m < |samples| {
      var k := |samples| - 1;
      assert samples[..k][..m] == samples[..m];
      MergeStuck(nsample, samples[..k], m);
    } else {
      assert samples[..m] == samples;
    }
  }

  /** The rows of the successful samples. */
  function Values(samples: seq<Result<seq<seq<string>>>>): (parts: seq<seq<seq<string>>>)
    requires forall p :: 0 <= p < |samples| ==> samples[p].Ok?
    ensures |parts| == |samples|
  {
    seq(|samples|, p requires 0 <= p < |samples| => samples[p].value)
  }

  /** When every file gives `nsample` rows, row `i` of the merge is row `i`
      of each file's sample in turn. */
  lemma {:induction false} MergeRows(nsample: nat, samples: seq<Result<seq<seq<string>>>>, i: nat)
    requires forall p :: 0 <= p < |samples| ==> samples[p].Ok? && |samples[p].value| == nsample
    requires i < nsample
    ensures Merge(nsample, samples).Ok? && Merge(nsample, samples).value[i] == Across(Values(samples), i)
  {
    if |samples| > 0 {
      var n := |samples| - 1;
      MergeRows(nsample, samples[..n], i);
      assert Values(samples)[..n] == Values(samples[..n]);
      assert Across(Values(samples), i) == Across(Values(samples[..n]), i) + samples[n].value[i];
    }
  }

  /** A file whose sample has more rows than `nsample` cannot be merged. */
  lemma MergeTooMany(nsample: nat, samples: seq<Result<seq<seq<string>>>>)
    requires |samples| > 0 && Merge(nsample, samples[..|samples| - 1]).Ok?
    requires samples[|samples| - 1].Ok? && |samples[|samples| - 1].value| > nsample
    ensures Merge(nsample, samples) == Err(IndexError)
  {
  }

  /** `to_phase`: the loci counts in `loci`, one per file, then each file's
      sample merged row by row. */
  function PhaseRows(nsample: nat, loci: string, samples: seq<Result<seq<seq<string>>>>): (r: Result<seq<seq<string>>>)
    ensures ParseList(loci).Ok? && |ParseList(loci).value| != |samples| ==> r.Err? && r.error.Exit?
  {
    match ParseList(loci)
    case Err(e) => Err(e)
    case Ok(sloci) =>
      if |sloci| != |samples| then Err(Exit("inconsistent sampling strategy."))
      else Merge(nsample, samples)
  }

  /** `to_phase`, file by file. */
  method ToPhase(nsample: nat, loci: string, samples: seq<Result<seq<seq<string>>>>) returns (r: Result<seq<seq<string>>>)
    ensures r == PhaseRows(nsample, loci, samples)
  {
    var sloci := ParseList(loci);
    if sloci.Err? {
      return Err(sloci.error);
    }
    if |sloci.value| != |samples| {
      return Err(Exit("inconsistent sampling strategy."));
    }
    var inds: seq<seq<string>> := seq(nsample, _ => []);
    var p := 0;
    while p < |samples|
      invariant 0 <= p <= |samples|
      invariant Merge(nsample, samples[..p]) == Ok(inds)
    {
      assert samples[..p + 1][..p] == samples[..p];
      if samples[p].Err? {
        MergeStuck(nsample, samples, p + 1);
        return Err(samples[p].error);
      }
      var part := samples[p].value;
      if |part| > |inds| {
        MergeStuck(nsample, samples, p + 1);
        return Err(IndexError);
      }
      inds := ExtendRows(inds, part);
      p := p + 1;
    }
    assert samples[..p] == samples;
    r := Ok(inds);
  }

  /** `for i, d in enumerate(part): inds[i].extend(d)`. */
  method ExtendRows(inds: seq<seq<string>>, part: seq<seq<string>>) returns (r: seq<seq<string>>)
    requires |part| <= |inds|
    ensures Extend(inds, part) == Ok(r)
  {
    r := inds;
    var i := 0;
    while i < |part|
      invariant 0 <= i <= |part| && |r| == |inds|
      invariant forall j :: 0 <= j < |inds| ==> r[j] == if j < i then inds[j] + part[j] else inds[j]
    {
      r := r[i := r[i] + part[i]];
      i := i + 1;
    }
    assert r == Extend(inds, part).value;
  }

  /** `"sample_{}\t".format(i)` followed by the row's entries joined by
      tabs. */
  function PhaseLine(i: nat, d: seq<string>): string {
    "sample_" + NatToString(i) + "\t" + Join("\t", d)
  }

  /** The lines `write_phase` prints: the sample size, the total number of
      loci, one `M` per locus, then one line per sample. */
  function PhaseText(nsample: int, loci: string, data: seq<seq<string>>): (r: Result<seq<string>>)
    ensures r.Ok? <==> ParseList(loci).Ok?
    ensures r.Ok? ==>
      |r.value| == 3 + |data| && r.value[0] == IntToString(nsample) && r.value[1] == IntToString(Sum(ParseList(loci).value))
    ensures r.Ok? ==> forall i :: 0 <= i < |data| ==> r.value[3 + i] == PhaseLine(i, data[i])
  {
    match ParseList(loci)
    case Err(e) => Err(e)
    case Ok(sloci) =>
      var total := Sum(sloci);
      var header := [IntToString(nsample), IntToString(total), Text.Repeat('M', if total < 0 then 0 else total)];
      var lines := SampleLines(data);
      assert forall i :: 0 <= i < |data| ==> (header + lines)[3 + i] == lines[i];
      Ok(header + lines)
  }

  /** One line per sample, in order. */
  function SampleLines(data: seq<seq<string>>): (r: seq<string>)
    ensures |r| == |data| && forall i :: 0 <= i < |data| ==> r[i] == PhaseLine(i, data[i])
  {
    seq(|data|, i requires 0 <= i < |data| => PhaseLine(i, data[i]))
  }

  function Sum(xs: seq<int>): int {
    if |xs| == 0 then 0 else Sum(xs[..|xs| - 1]) + xs[|xs| - 1]
  }

  /** A sample line splits back, at whitespace, into the sample's name and
      its entries, when these are non-empty and free of whitespace. */
  lemma PhaseLineWords(i: nat, d: seq<string>)
    requires |d| > 0 && forall k :: 0 <= k < |d| ==> |d[k]| > 0 && NoSpace(d[k])
    ensures Words(PhaseLine(i, d)) == ["sample_" + NatToString(i)] + d
  {
    var name := "sample_" + NatToString(i);
    var fields := [name] + d;
    NatToStringNoSpace(i);
    NoSpaceConcat("sample_", NatToString(i));
    assert fields[1..] == d;
    assert Join("\t", fields) == PhaseLine(i, d);
    WordsJoinTab(fields);
  }
}
