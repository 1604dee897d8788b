/** The text formats of selfingsim/data.py: PHASE (read and written), and
    RMES and NEXUS (written). Files are lists of lines without their line
    ends; opening and writing files is not modelled. */
module SampleFormats {
  import opened Wrappers
  import opened Text
  import opened SampleData

  // ---------------------------------------------------------------------
  // PHASE

  /** The alleles of a genotype locus by locus, copy `a` before copy `b`
      (`[str(j) for i in geno for j in i]`). */
  function GeneFields(g: Genotype): (r: seq<string>)
    ensures |r| == 2 * |g|
  {
    if |g| == 0 then [] else [g[0].a, g[0].b] + GeneFields(g[1..])
  }

  /** `[[i, j] for i, j in izip(it, it)]`: consecutive fields paired, a
      field left over at the end dropped. */
  function Pairs(ws: seq<string>): (r: Genotype)
    ensures |r| == |ws| / 2
  {
    if |ws| < 2 then [] else [Gene(ws[0], ws[1])] + Pairs(ws[2..])
  }

  /** Pairing the flattened alleles gives the genotype back. */
  lemma {:induction false} PairsOfFields(g: Genotype)
    ensures Pairs(GeneFields(g)) == g
  {
    if |g| > 0 {
      var f := GeneFields(g);
      assert f[2..] == GeneFields(g[1..]);
      PairsOfFields(g[1..]);
      assert [g[0]] + g[1..] == g;
    }
  }

  /** One individual's line: its id, then its alleles, tab-separated. */
  function PhaseLine(id: string, g: Genotype): string {
    Join("\t", [id] + GeneFields(g))
  }

  /** The number of `zip(ids, genos)` pairs. */
  function ZipLength(s: Sample): nat {
    if |s.ids| < |s.genos| then |s.ids| else |s.genos|
  }

  /** The lines `tophase` returns: the sample size, the number of loci, a
      marker type `M` per locus, then one line per individual. */
  function PhaseLines(s: Sample): (r: seq<string>)
  {
    [NatToString(|s.genos|), NatToString(s.nloc), Repeat('M', s.nloc)]
      + seq(ZipLength(s), i requires 0 <= i < ZipLength(s) => PhaseLine(s.ids[i], s.genos[i]))
  }

  /** `tophase`. */
  method WritePhase(s: Sample) returns (lines: seq<string>)
    ensures lines == PhaseLines(s)
    ensures |lines| == 3 + ZipLength(s)
  {
    lines := [NatToString(|s.genos|), NatToString(s.nloc), Repeat('M', s.nloc)];
    var i := 0;
    while i < ZipLength(s)
      invariant 0 <= i <= ZipLength(s) && |lines| == 3 + i
      invariant lines == PhaseLines(s)[..3 + i]
    {
      lines := lines + [PhaseLine(s.ids[i], s.genos[i])];
      i := i + 1;
    }
  }

  /** One individual's line read back: `IndexError` for a blank line. */
  function PhaseRecord(line: string): (r: Result<(string, Genotype)>)
  {
    var elems := Words(line);
    if |elems| == 0 then Err(IndexError) else Ok((elems[0], Pairs(elems[1..])))
  }

  /** The individuals' lines read in order; the first failure stops the
      reading. */
  function PhaseRecords(body: seq<string>): (r: Result<(seq<string>, seq<Genotype>)>)
    ensures r.Ok? ==> |r.value.0| == |body| && |r.value.1| == |body|
  {
    if |body| == 0 then Ok(([], []))
    else
      match PhaseRecord(body[0])
      case Err(e) => Err(e)
      case Ok((id, g)) => Prepend([id], [g], PhaseRecords(body[1..]))
  }

  /** Records already read, put before those still to read. */
  function Prepend(ids: seq<string>, genos: seq<Genotype>, rest: Result<(seq<string>, seq<Genotype>)>)
    : Result<(seq<string>, seq<Genotype>)>
  {
    match rest
    case Err(e) => Err(e)
    case Ok((ids2, genos2)) => Ok((ids + ids2, genos + genos2))
  }

  lemma PrependNothing(rest: Result<(seq<string>, seq<Genotype>)>)
    ensures Prepend([], [], rest) == rest
  {
    if rest.Ok? {
      assert [] + rest.value.0 == rest.value.0 && [] + rest.value.1 == rest.value.1;
    }
  }

  lemma PrependTwice(ids: seq<string>, genos: seq<Genotype>, ids2: seq<string>, genos2: seq<Genotype>,
                     rest: Result<(seq<string>, seq<Genotype>)>)
    ensures Prepend(ids, genos, Prepend(ids2, genos2, rest)) == Prepend(ids + ids2, genos + genos2, rest)
  {
    if rest.Ok? {
      assert ids + (ids2 + rest.value.0) == ids + ids2 + rest.value.0;
      assert genos + (genos2 + rest.value.1) == genos + genos2 + rest.value.1;
    }
  }

  /** `fromphase`: the first line is skipped, the second gives the number
      of loci and the third must hold that many marker types. */
  function ParsePhase(src: string, lines: seq<string>): (r: Result<Sample>)
  {
    if |lines| < 2 then Err(StopIteration)
    else
      match ParseInt(lines[1])
      case Err(e) => Err(e)
      case Ok(nloc) =>
        if |lines| < 3 then Err(StopIteration)
        else if |Strip(lines[2])| != nloc then Err(ValueError("Inconsistent number of loci."))
        else
          match PhaseRecords(lines[3..])
          case Err(e) => Err(e)
          case Ok((ids, genos)) => NewSample(src, ids, genos, None)
  }

  /** `fromphase`, reading the individuals' lines one at a time. */
  method ReadPhase(src: string, lines: seq<string>) returns (r: Result<Sample>)
    ensures r == ParsePhase(src, lines)
  {
    if |lines| < 2 {
      return Err(StopIteration);
    }
    var nloc := ParseInt(lines[1]);
    if nloc.Err? {
      return Err(nloc.error);
    }
    if |lines| < 3 {
      return Err(StopIteration);
    }
    if |Strip(lines[2])| != nloc.value {
      return Err(ValueError("Inconsistent number of loci."));
    }
    var body := lines[3..];
    var ids: seq<string> := [];
    var genos: seq<Genotype> := [];
    var k := 0;
    assert body[0..] == body;
    PrependNothing(PhaseRecords(body));
    while k < |body|
      invariant 0 <= k <= |body|
      invariant PhaseRecords(body) == Prepend(ids, genos, PhaseRecords(body[k..]))
    {
      assert body[k..][0] == body[k] && body[k..][1..] == body[k + 1..];
      var elems := Words(body[k]);
      if |elems| == 0 {
        return Err(IndexError);
      }
      PrependTwice(ids, genos, [elems[0]], [Pairs(elems[1..])], PhaseRecords(body[k + 1..]));
      ids := ids + [elems[0]];
      genos := genos + [Pairs(elems[1..])];
      k := k + 1;
    }
    assert ids + [] == ids && genos + [] == genos;
    r := NewSample(src, ids, genos, None);
  }

  /** The first line is never looked at, and a marker line whose length
      differs from the number of loci is refused with `ValueError`. */
  lemma PhaseHeaderRules(src: string, lines: seq<string>, first: string)
    requires |lines| >= 1
    ensures ParsePhase(src, lines) == ParsePhase(src, [first] + lines[1..])
    ensures |lines| >= 3 && ParseInt(lines[1]).Ok? && |Strip(lines[2])| != ParseInt(lines[1]).value ==>
      ParsePhase(src, lines) == Err(ValueError("Inconsistent number of loci."))
  {
    var other := [first] + lines[1..];
    assert |other| == |lines| && other[1..] == lines[1..];
    if |lines| >= 2 {
      assert other[1] == lines[1];
    }
    if |lines| >= 3 {
      assert other[2] == lines[2] && other[3..] == lines[3..];
    }
  }

  /** A field PHASE can carry: non-empty, without whitespace. */
  predicate Field(s: string) {
    |s| > 0 && NoSpace(s)
  }

  /** Ids and alleles that survive a PHASE line. */
  predicate PhaseSafe(s: Sample) {
    && (forall i :: 0 <= i < |s.ids| ==> Field(s.ids[i]))
    && (forall i, l :: 0 <= i < |s.genos| && 0 <= l < |s.genos[i]| ==>
          Field(s.genos[i][l].a) && Field(s.genos[i][l].b))
  }

  lemma {:induction false} FieldsOfGenotype(g: Genotype)
    requires forall l :: 0 <= l < |g| ==> Field(g[l].a) && Field(g[l].b)
    ensures forall k :: 0 <= k < |GeneFields(g)| ==> Field(GeneFields(g)[k])
  {
    if |g| > 0 {
      FieldsOfGenotype(g[1..]);
    }
  }

  /** Reading back an individual's line gives its id and genotype. */
  lemma PhaseRecordRoundTrip(id: string, g: Genotype)
    requires Field(id) && forall l :: 0 <= l < |g| ==> Field(g[l].a) && Field(g[l].b)
    ensures PhaseRecord(PhaseLine(id, g)) == Ok((id, g))
  {
    var parts := [id] + GeneFields(g);
    FieldsOfGenotype(g);
    WordsJoinTab(parts);
    assert parts[1..] == GeneFields(g);
    PairsOfFields(g);
  }

  lemma {:induction false} PhaseRecordsRoundTrip(body: seq<string>, ids: seq<string>, genos: seq<Genotype>)
    requires |body| == |ids| == |genos|
    requires forall i :: 0 <= i < |body| ==> body[i] == PhaseLine(ids[i], genos[i])
    requires forall i :: 0 <= i < |ids| ==> Field(ids[i])
    requires forall i, l :: 0 <= i < |genos| && 0 <= l < |genos[i]| ==> Field(genos[i][l].a) && Field(genos[i][l].b)
    ensures PhaseRecords(body) == Ok((ids, genos))
  {
    if |body| > 0 {
      PhaseRecordRoundTrip(ids[0], genos[0]);
      PhaseRecordsRoundTrip(body[1..], ids[1..], genos[1..]);
      assert [ids[0]] + ids[1..] == ids;
      assert [genos[0]] + genos[1..] == genos;
    }
  }

  /** `fromphase(tophase(s))` gives back the ids and genotypes of a sample
      whose ids and alleles are non-empty and free of whitespace (a
      `BasicSample`, read from `src`). */
  lemma PhaseRoundTrip(s: Sample, src: string)
    requires WellFormed(s) && PhaseSafe(s)
    ensures ParsePhase(src, PhaseLines(s)) == Ok(Sample(src, s.ids, s.genos, s.nloc, None))
  {
    var lines := PhaseLines(s);
    var n := |s.genos|;
    assert ZipLength(s) == n;
    ParseNatString(s.nloc);
    NoSpaceStrip(Repeat('M', s.nloc));
    assert lines[1] == NatToString(s.nloc) && lines[2] == Repeat('M', s.nloc);
    PhaseRecordsRoundTrip(lines[3..], s.ids, s.genos);
  }

  // ---------------------------------------------------------------------
  // RMES

  /** `"1"` for a heterozygous locus, `"0"` for a homozygous one. */
  function HetToken(x: Gene): string {
    if x.a != x.b then "1" else "0"
  }

  function HetTokens(g: Genotype): (r: seq<string>)
    ensures |r| == |g|
  {
    seq(|g|, l requires 0 <= l < |g| => HetToken(g[l]))
  }

  /** One individual's RMES line. */
  function HetLine(g: Genotype): string {
    Join(" ", HetTokens(g))
  }

  /** Splitting an individual's line on spaces gives one token per locus,
      `1` exactly at the heterozygous loci. */
  lemma HetLineTokens(g: Genotype)
    requires |g| > 0
    ensures |SplitOn(HetLine(g), ' ')| == |g|
    ensures forall l :: 0 <= l < |g| ==>
      (SplitOn(HetLine(g), ' ')[l] == "1" <==> g[l].a != g[l].b)
      && (SplitOn(HetLine(g), ' ')[l] == "0" <==> g[l].a == g[l].b)
  {
    SplitJoin(HetTokens(g), ' ');
  }

  /** For each sample: its source, size and number of loci. */
  function RmesHeaders(ss: seq<Sample>): (r: seq<string>)
    ensures |r| == 3 * |ss|
  {
    if |ss| == 0 then []
    else
      var s := ss[|ss| - 1];
      RmesHeaders(ss[..|ss| - 1]) + [s.src, NatToString(|s.genos|), NatToString(s.nloc)]
  }

  function HetLines(gs: seq<Genotype>): (r: seq<string>)
    ensures |r| == |gs|
  {
    seq(|gs|, i requires 0 <= i < |gs| => HetLine(gs[i]))
  }

  /** Every sample's individuals' lines, sample after sample. */
  function RmesBodies(ss: seq<Sample>): (r: seq<string>)
  {
    if |ss| == 0 then [] else RmesBodies(ss[..|ss| - 1]) + HetLines(ss[|ss| - 1].genos)
  }

  /** The total number of individuals. */
  function TotalSize(ss: seq<Sample>): nat {
    if |ss| == 0 then 0 else TotalSize(ss[..|ss| - 1]) + |ss[|ss| - 1].genos|
  }

  /** The lines `tormes` returns. */
  function RmesLines(ss: seq<Sample>): seq<string> {
    [NatToString(|ss|)] + RmesHeaders(ss) + RmesBodies(ss)
  }

  /** `tormes`. */
  method WriteRmes(ss: seq<Sample>) returns (lines: seq<string>)
    ensures lines == RmesLines(ss)
  {
    lines := AppendHeaders([NatToString(|ss|)], ss);
    lines := AppendBodies(lines, ss);
  }

  /** The first loop of `tormes`: each sample's source, size and number of
      loci. */
  method AppendHeaders(lines: seq<string>, ss: seq<Sample>) returns (out: seq<string>)
    ensures out == lines + RmesHeaders(ss)
  {
    out := lines;
    var k := 0;
    while k < |ss|
      invariant 0 <= k <= |ss|
      invariant out == lines + RmesHeaders(ss[..k])
    {
      assert ss[..k + 1][..k] == ss[..k];
      var s := ss[k];
      out := out + [s.src, NatToString(|s.genos|), NatToString(s.nloc)];
      k := k + 1;
    }
    assert ss[..k] == ss;
  }

  /** The second loop of `tormes`: every sample's individuals in turn. */
  method AppendBodies(lines: seq<string>, ss: seq<Sample>) returns (out: seq<string>)
    ensures out == lines + RmesBodies(ss)
  {
    out := lines;
    var k := 0;
    while k < |ss|
      invariant 0 <= k <= |ss|
      invariant out == lines + RmesBodies(ss[..k])
    {
      assert ss[..k + 1][..k] == ss[..k];
      out := AppendHetLines(out, ss[k].genos);
      k := k + 1;
    }
    assert ss[..k] == ss;
  }

  /** The inner loop of `tormes`: one line per individual of a sample. */
  method AppendHetLines(lines: seq<string>, gs: seq<Genotype>) returns (out: seq<string>)
    ensures out == lines + HetLines(gs)
  {
    out := lines;
    var i := 0;
    while i < |gs|
      invariant 0 <= i <= |gs|
      invariant out == lines + HetLines(gs[..i])
    {
      assert HetLines(gs[..i + 1]) == HetLines(gs[..i]) + [HetLine(gs[i])];
      out := out + [HetLine(gs[i])];
      i := i + 1;
    }
    assert gs[..i] == gs;
  }

  /** Where sample `k`'s individuals' lines start among the bodies. */
  function SizeBefore(ss: seq<Sample>, k: nat): nat
    requires k <= |ss|
  {
    TotalSize(ss[..k])
  }

  lemma {:induction false} RmesBodiesAt(ss: seq<Sample>, k: nat, i: nat)
    requires k < |ss| && i < |ss[k].genos|
    ensures |RmesBodies(ss)| == TotalSize(ss)
    ensures SizeBefore(ss, k) + i < TotalSize(ss)
    ensures RmesBodies(ss)[SizeBefore(ss, k) + i] == HetLine(ss[k].genos[i])
  {
    var front := ss[..|ss| - 1];
    if k < |ss| - 1 {
      assert front[..k] == ss[..k];
      RmesBodiesAt(front, k, i);
    } else {
      assert ss[..k] == front;
      RmesBodiesLength(front);
    }
  }

  lemma {:induction false} RmesBodiesLength(ss: seq<Sample>)
    ensures |RmesBodies(ss)| == TotalSize(ss)
  {
    if |ss| > 0 {
      RmesBodiesLength(ss[..|ss| - 1]);
    }
  }

  lemma {:induction false} RmesHeadersAt(ss: seq<Sample>, k: nat)
    requires k < |ss|
    ensures RmesHeaders(ss)[3 * k] == ss[k].src
    ensures RmesHeaders(ss)[3 * k + 1] == NatToString(|ss[k].genos|)
    ensures RmesHeaders(ss)[3 * k + 2] == NatToString(ss[k].nloc)
  {
    if k < |ss| - 1 {
      RmesHeadersAt(ss[..|ss| - 1], k);
    }
  }

  /** The RMES layout, first part: the number of samples, then source,
      size and number of loci per sample. */
  lemma RmesHeaderLayout(ss: seq<Sample>, k: nat)
    requires k < |ss|
    ensures |RmesLines(ss)| == 1 + 3 * |ss| + TotalSize(ss)
    ensures RmesLines(ss)[0] == NatToString(|ss|)
    ensures RmesLines(ss)[1 + 3 * k] == ss[k].src
    ensures RmesLines(ss)[2 + 3 * k] == NatToString(|ss[k].genos|)
    ensures RmesLines(ss)[3 + 3 * k] == NatToString(ss[k].nloc)
  {
    var h := RmesHeaders(ss);
    var b := RmesBodies(ss);
    RmesHeadersAt(ss, k);
    RmesBodiesLength(ss);
    var a := [NatToString(|ss|)];
    assert RmesLines(ss) == a + h + b;
    InMiddle(a, h, b, 1 + 3 * k, 3 * k);
    InMiddle(a, h, b, 2 + 3 * k, 3 * k + 1);
    InMiddle(a, h, b, 3 + 3 * k, 3 * k + 2);
  }

  /** The RMES layout, second part: after the headers, one line per
      individual of each sample in turn (`1` per heterozygous locus, `0`
      otherwise). */
  lemma RmesBodyLayout(ss: seq<Sample>, k: nat, i: nat)
    requires k < |ss| && i < |ss[k].genos|
    ensures SizeBefore(ss, k) + i < TotalSize(ss)
    ensures |RmesLines(ss)| == 1 + 3 * |ss| + TotalSize(ss)
    ensures RmesLines(ss)[1 + 3 * |ss| + SizeBefore(ss, k) + i] == HetLine(ss[k].genos[i])
  {
    var h := RmesHeaders(ss);
    var b := RmesBodies(ss);
    var j := SizeBefore(ss, k) + i;
    RmesBodiesAt(ss, k, i);
    assert b[j] == HetLine(ss[k].genos[i]);
    var a := [NatToString(|ss|)];
    assert RmesLines(ss) == a + h + b;
    AtEnd(a, h, b, 1 + 3 * |ss| + j, j);
  }

  lemma InMiddle<T>(a: seq<T>, h: seq<T>, b: seq<T>, n: nat, j: nat)
    requires j < |h| && n == |a| + j
    ensures (a + h + b)[n] == h[j]
  {
  }

  lemma AtEnd<T>(a: seq<T>, h: seq<T>, b: seq<T>, n: nat, j: nat)
    requires j < |b| && n == |a| + |h| + j
    ensures (a + h + b)[n] == b[j]
  {
  }

  // ---------------------------------------------------------------------
  // NEXUS

  /** `"{}{}{}".format(a, sep, b)`. */
  function NexusGene(x: Gene, sep: string): string {
    x.a + sep + x.b
  }

  /** One individual's NEXUS line: its id, then `a<sep>b` per locus,
      space-separated. */
  function NexusLine(id: string, g: Genotype, sep: string): string {
    Join(" ", [id] + seq(|g|, l requires 0 <= l < |g| => NexusGene(g[l], sep)))
  }

  /** The individuals' lines of sample `s`. */
  function NexusRows(s: Sample, sep: string): (r: seq<string>)
    ensures |r| == ZipLength(s)
  {
    seq(ZipLength(s), i requires 0 <= i < ZipLength(s) => NexusLine(s.ids[i], s.genos[i], sep))
  }

  /** The block of sample `s`: its source with a colon, its individuals,
      and `,` (or `;` for the last sample). */
  function NexusBlock(s: Sample, sep: string, last: bool): (r: seq<string>)
    ensures |r| == ZipLength(s) + 2
  {
    [s.src + ":"] + NexusRows(s, sep) + [if last then ";" else ","]
  }

  /** The blocks of the first `k` samples of `ss`. */
  function NexusBlocks(ss: seq<Sample>, k: nat, sep: string): seq<string>
    requires k <= |ss|
  {
    if k == 0 then [] else NexusBlocks(ss, k - 1, sep) + NexusBlock(ss[k - 1], sep, k == |ss|)
  }

  function NexusHeader(npops: nat, nloc: nat, miss: string, sep: string): seq<string> {
    [ "#nexus",
      "begin gdadata",
      "dimensions npops=" + NatToString(npops) + " nloci=" + NatToString(nloc) + ";",
      "format missing=" + miss + " separator=" + sep + ";",
      "matrix" ]
  }

  /** The lines `tonexus` returns; with no samples at all it raises
      `IndexError` looking at the first one's loci. */
  function NexusLines(ss: seq<Sample>, miss: string, sep: string): (r: Result<seq<string>>)
    ensures r.Err? <==> |ss| == 0
  {
    if |ss| == 0 then Err(IndexError)
    else Ok(NexusHeader(|ss|, ss[0].nloc, miss, sep) + NexusBlocks(ss, |ss|, sep) + ["end;"])
  }

  /** `tonexus`. */
  method WriteNexus(ss: seq<Sample>, miss: string, sep: string) returns (r: Result<seq<string>>)
    ensures r == NexusLines(ss, miss, sep)
  {
    if |ss| == 0 {
      return Err(IndexError);
    }
    var lines := NexusHeader(|ss|, ss[0].nloc, miss, sep);
    ghost var head := lines;
    var k := 0;
    while k < |ss|
      invariant 0 <= k <= |ss|
      invariant lines == head + NexusBlocks(ss, k, sep)
    {
      lines := AppendBlock(lines, ss[k], sep, k + 1 == |ss|);
      k := k + 1;
    }
    return Ok(lines + ["end;"]);
  }

  /** The body of `tonexus`'s loop: one sample's block. */
  method AppendBlock(lines: seq<string>, s: Sample, sep: string, last: bool) returns (out: seq<string>)
    ensures out == lines + NexusBlock(s, sep, last)
  {
    ghost var rows := NexusRows(s, sep);
    out := lines + [s.src + ":"];
    var i := 0;
    while i < ZipLength(s)
      invariant 0 <= i <= ZipLength(s)
      invariant out == lines + [s.src + ":"] + rows[..i]
    {
      assert rows[..i + 1] == rows[..i] + [rows[i]];
      out := out + [NexusLine(s.ids[i], s.genos[i], sep)];
      i := i + 1;
    }
    assert rows[..i] == rows;
    if !last {
      out := out + [","];
    } else {
      out := out + [";"];
    }
  }

  /** The number of lines of the first `k` blocks. */
  function BlocksLength(ss: seq<Sample>, k: nat): nat
    requires k <= |ss|
  {
    if k == 0 then 0 else BlocksLength(ss, k - 1) + ZipLength(ss[k - 1]) + 2
  }

  lemma {:induction false} NexusBlocksAt(ss: seq<Sample>, n: nat, k: nat, sep: string)
    requires k < n <= |ss|
    ensures |NexusBlocks(ss, n, sep)| == BlocksLength(ss, n)
    ensures BlocksLength(ss, k) + ZipLength(ss[k]) + 1 < BlocksLength(ss, n)
    ensures NexusBlocks(ss, n, sep)[BlocksLength(ss, k)] == ss[k].src + ":"
    ensures NexusBlocks(ss, n, sep)[BlocksLength(ss, k) + ZipLength(ss[k]) + 1] == (if k == |ss| - 1 then ";" else ",")
  {
    if k < n - 1 {
      NexusBlocksAt(ss, n - 1, k, sep);
    } else {
      NexusBlocksLength(ss, n - 1, sep);
    }
  }

  lemma {:induction false} NexusBlocksLength(ss: seq<Sample>, n: nat, sep: string)
    requires n <= |ss|
    ensures |NexusBlocks(ss, n, sep)| == BlocksLength(ss, n)
  {
    if n > 0 {
      NexusBlocksLength(ss, n - 1, sep);
    }
  }

  /** The NEXUS layout: five header lines naming the number of samples and
      the first sample's number of loci; each sample's block opens with
      its source and closes with `,`, except the last, which closes with
      `;`; the final line is `end;`. */
  lemma NexusLayout(ss: seq<Sample>, miss: string, sep: string, k: nat)
    requires k < |ss|
    ensures |NexusLines(ss, miss, sep).value| == 5 + BlocksLength(ss, |ss|) + 1
    ensures BlocksLength(ss, k) + ZipLength(ss[k]) + 1 < BlocksLength(ss, |ss|)
    ensures var lines := NexusLines(ss, miss, sep).value;
      && lines[2] == "dimensions npops=" + NatToString(|ss|) + " nloci=" + NatToString(ss[0].nloc) + ";"
      && lines[5 + BlocksLength(ss, k)] == ss[k].src + ":"
      && lines[5 + BlocksLength(ss, k) + ZipLength(ss[k]) + 1] == (if k == |ss| - 1 then ";" else ",")
      && lines[|lines| - 1] == "end;"
  {
    var blocks := NexusBlocks(ss, |ss|, sep);
    NexusBlocksAt(ss, |ss|, k, sep);
    var lines := NexusLines(ss, miss, sep).value;
    assert lines == NexusHeader(|ss|, ss[0].nloc, miss, sep) + blocks + ["end;"];
    assert lines[5 + BlocksLength(ss, k)] == blocks[BlocksLength(ss, k)];
    assert lines[5 + BlocksLength(ss, k) + ZipLength(ss[k]) + 1] == blocks[BlocksLength(ss, k) + ZipLength(ss[k]) + 1];
  }

  lemma {:induction false} NexusBlocksRow(ss: seq<Sample>, n: nat, k: nat, i: nat, sep: string)
    requires k < n <= |ss| && i < ZipLength(ss[k])
    ensures |NexusBlocks(ss, n, sep)| == BlocksLength(ss, n)
    ensures BlocksLength(ss, k) + 1 + i < BlocksLength(ss, n)
    ensures NexusBlocks(ss, n, sep)[BlocksLength(ss, k) + 1 + i] == NexusLine(ss[k].ids[i], ss[k].genos[i], sep)
  {
    if k < n - 1 {
      NexusBlocksRow(ss, n - 1, k, i, sep);
    } else {
      NexusBlocksLength(ss, n - 1, sep);
    }
  }

  /** In the NEXUS layout each individual's line follows its sample's
      source line, in the sample's order. */
  lemma NexusRowLayout(ss: seq<Sample>, miss: string, sep: string, k: nat, i: nat)
    requires k < |ss| && i < ZipLength(ss[k])
    ensures |NexusLines(ss, miss, sep).value| == 5 + BlocksLength(ss, |ss|) + 1
    ensures BlocksLength(ss, k) + 1 + i < BlocksLength(ss, |ss|)
    ensures NexusLines(ss, miss, sep).value[5 + BlocksLength(ss, k) + 1 + i]
      == NexusLine(ss[k].ids[i], ss[k].genos[i], sep)
  {
    var blocks := NexusBlocks(ss, |ss|, sep);
    var j := BlocksLength(ss, k) + 1 + i;
    NexusBlocksRow(ss, |ss|, k, i, sep);
    var h := NexusHeader(|ss|, ss[0].nloc, miss, sep);
    assert NexusLines(ss, miss, sep).value == h + blocks + ["end;"];
    InMiddle(h, blocks, ["end;"], 5 + j, j);
  }
}
