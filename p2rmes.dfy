/** partial_selfing/p2rmes.py: converting PHASE files into one RMES input,
    whose every line ends in CRLF.

    Each input file is its name and its lines without their line ends. The
    script prints as it goes, so what it leaves behind when it stops on an
    error is the lines printed so far; the model returns those with the
    error. */
module P2Rmes {
  import opened Wrappers
  import opened Text
  import SampleData
  import SampleFormats

  /** `' '.join(str(int(g[i] != g[i+1])) for i in range(0, len(g), 2))`
      before the join: `IndexError` on an odd number of fields. */
  function Tokens(g: seq<string>): Result<seq<string>> {
    if |g| == 0 then Ok([])
    else if |g| == 1 then Err(IndexError)
    else
      var rest :- Tokens(g[2..]);
      Ok([if g[0] != g[1] then "1" else "0"] + rest)
  }

  /** `genotype(l)`: the tab-separated fields after the first (the id),
      read in pairs, one token per pair. */
  function Genotype(l: string): Result<string> {
    var ts :- Tokens(SplitOn(l, '\t')[1..]);
    Ok(Join(" ", ts))
  }

  /** The tokens exist exactly for an even number of fields: one per
      pair, `1` where the pair differs and `0` where it agrees. */
  lemma {:induction false} TokensMeaning(g: seq<string>)
    ensures Tokens(g).Ok? <==> |g| % 2 == 0
    ensures Tokens(g).Err? ==> Tokens(g).error == IndexError
    ensures Tokens(g).Ok? ==>
      |Tokens(g).value| == |g| / 2
      && forall k :: 0 <= k < |g| / 2 ==>
           (Tokens(g).value[k] == "1" <==> g[2 * k] != g[2 * k + 1])
           && (Tokens(g).value[k] == "0" <==> g[2 * k] == g[2 * k + 1])
  {
    if |g| >= 2 {
      TokensMeaning(g[2..]);
      if Tokens(g).Ok? {
        var ts := Tokens(g).value;
        forall k | 1 <= k < |g| / 2
          ensures ts[k] == Tokens(g[2..]).value[k - 1]
          ensures g[2 * k] == g[2..][2 * (k - 1)] && g[2 * k + 1] == g[2..][2 * (k - 1) + 1]
        {
        }
      }
    }
  }

  /** The printed genotype splits at its spaces back into the tokens. */
  lemma GenotypeTokens(l: string)
    requires Genotype(l).Ok? && |SplitOn(l, '\t')| > 1
    ensures SplitOn(Genotype(l).value, ' ') == Tokens(SplitOn(l, '\t')[1..]).value
  {
    var g := SplitOn(l, '\t')[1..];
    TokensMeaning(g);
    var ts := Tokens(g).value;
    forall k | 0 <= k < |ts| ensures ' ' !in ts[k] {
      assert ts[k] == "1" || ts[k] == "0";
    }
    SplitJoin(ts, ' ');
  }

  // ---------------------------------------------------------------------
  // The line of a PHASE file written by `selfingsim/data.py`

  lemma {:induction false} TokensOfFields(g: SampleData.Genotype)
    ensures Tokens(SampleFormats.GeneFields(g)) == Ok(SampleFormats.HetTokens(g))
  {
    if |g| > 0 {
      var f := SampleFormats.GeneFields(g);
      assert f[2..] == SampleFormats.GeneFields(g[1..]);
      TokensOfFields(g[1..]);
      var h := SampleFormats.HetTokens(g);
      assert h == [SampleFormats.HetToken(g[0])] + SampleFormats.HetTokens(g[1..]);
    }
  }

  /** Converting an individual's line of `tophase` gives the line `tormes`
      writes for the same individual. */
  lemma GenotypeOfPhaseLine(id: string, g: SampleData.Genotype)
    requires SampleFormats.Field(id)
    requires forall l :: 0 <= l < |g| ==> SampleFormats.Field(g[l].a) && SampleFormats.Field(g[l].b)
    ensures Genotype(SampleFormats.PhaseLine(id, g)) == Ok(SampleFormats.HetLine(g))
  {
    var parts := [id] + SampleFormats.GeneFields(g);
    SampleFormats.FieldsOfGenotype(g);
    forall k | 0 <= k < |parts| ensures '\t' !in parts[k] {
      SpaceNotIn(parts[k], '\t');
    }
    SplitJoin(parts, '\t');
    assert parts[1..] == SampleFormats.GeneFields(g);
    TokensOfFields(g);
  }

  /** `l.strip()` leaves a line alone that starts and ends with a
      character other than whitespace. */
  lemma StripKeeps(s: string)
    requires |s| > 0 && !IsSpace(s[0]) && !IsSpace(s[|s| - 1])
    ensures Strip(s) == s
  {
    assert TrimLeft(s) == s;
  }

  /** An individual's line of `tophase` is left alone by `strip()`. */
  lemma PhaseLineStripped(id: string, g: SampleData.Genotype)
    requires SampleFormats.Field(id)
    requires forall l :: 0 <= l < |g| ==> SampleFormats.Field(g[l].a) && SampleFormats.Field(g[l].b)
    ensures Strip(SampleFormats.PhaseLine(id, g)) == SampleFormats.PhaseLine(id, g)
  {
    var parts := [id] + SampleFormats.GeneFields(g);
    SampleFormats.FieldsOfGenotype(g);
    JoinEnds(parts, '\t');
    StripKeeps(SampleFormats.PhaseLine(id, g));
  }

  /** A join of non-empty parts starts with the first part's first
      character and ends with the last part's last character. */
  lemma {:induction false} JoinEnds(parts: seq<string>, sep: char)
    requires |parts| > 0 && forall k :: 0 <= k < |parts| ==> |parts[k]| > 0
    ensures var s := Join([sep], parts);
      |s| > 0 && s[0] == parts[0][0] && s[|s| - 1] == parts[|parts| - 1][|parts[|parts| - 1]| - 1]
  {
    if |parts| > 1 {
      JoinEnds(parts[1..], sep);
    }
  }

  // ---------------------------------------------------------------------
  // `write`

  /** An input file: its path and its lines. */
  datatype InputFile = InputFile(name: string, lines: seq<string>)

  /** What a run prints: the lines written, and the error that stopped it,
      if any. */
  datatype Printed = Printed(lines: seq<string>, error: Option<PyError>)

  /** `q` printed after `p`, unless `p` stopped the run. */
  function Then(p: Printed, q: Printed): Printed {
    if p.error.Some? then p else Printed(p.lines + q.lines, q.error)
  }

  /** `split(path)[1]`: what follows the last slash. */
  function BaseName(path: string): string {
    var parts := SplitOn(path, '/');
    parts[|parts| - 1]
  }

  /** The first loop for one file: its name, then its first two lines
      stripped; the third line is skipped. Fewer than three lines raise
      `StopIteration` before anything is printed for the file. */
  function HeaderOf(f: InputFile): Printed {
    if |f.lines| < 3 then Printed([], Some(StopIteration))
    else Printed([BaseName(f.name), Strip(f.lines[0]), Strip(f.lines[1])], None)
  }

  function Headers(files: seq<InputFile>): Printed {
    if |files| == 0 then Printed([], None)
    else Then(Headers(files[..|files| - 1]), HeaderOf(files[|files| - 1]))
  }

  /** One data line converted, or the error that stops the run. */
  function LineOf(l: string): Printed {
    match Genotype(Strip(l))
    case Ok(g) => Printed([g], None)
    case Err(e) => Printed([], Some(e))
  }

  function BodyOf(lines: seq<string>): Printed {
    if |lines| == 0 then Printed([], None) else Then(LineOf(lines[0]), BodyOf(lines[1..]))
  }

  /** The lines of a file the second loop reads: those after the three the
      first loop consumed. */
  function DataLines(f: InputFile): seq<string> {
    if |f.lines| >= 3 then f.lines[3..] else []
  }

  function Bodies(files: seq<InputFile>): Printed {
    if |files| == 0 then Printed([], None)
    else Then(Bodies(files[..|files| - 1]), BodyOf(DataLines(files[|files| - 1])))
  }

  /** `write`: the number of files, every file's header, then every file's
      data lines. */
  function Write(files: seq<InputFile>): Printed {
    Then(Printed([NatToString(|files|)], None), Then(Headers(files), Bodies(files)))
  }

  /** The text printed, every line ended by CRLF. */
  function Output(files: seq<InputFile>): string {
    Terminated(Write(files).lines, "\r\n")
  }

  /** Splitting the output at its line feeds gives every printed line
      back with a carriage return before its line feed. */
  lemma OutputLines(files: seq<InputFile>)
    requires forall k :: 0 <= k < |Write(files).lines| ==> '\n' !in Write(files).lines[k]
    ensures SplitOn(Output(files), '\n')
      == MapSeq(WithReturn, Write(files).lines) + [""]
  {
    var lines := Write(files).lines;
    assert "\r" + "\n" == "\r\n";
    SplitTerminated(lines, "\r");
    forall k | 0 <= k < |lines| ensures MapSeq(WithReturn, lines)[k] == lines[k] + "\r" {
      MapSeqAt(WithReturn, lines, k);
    }
    assert MapSeq(WithReturn, lines) == seq(|lines|, k requires 0 <= k < |lines| => lines[k] + "\r");
  }

  function WithReturn(line: string): string {
    line + "\r"
  }

  /** The headers are printed in full exactly when every file has its
      three header lines; a short file stops the run with
      `StopIteration`. */
  lemma {:induction false} HeadersComplete(files: seq<InputFile>)
    ensures Headers(files).error.None? <==> forall k :: 0 <= k < |files| ==> |files[k].lines| >= 3
    ensures Headers(files).error.Some? ==> Headers(files).error == Some(StopIteration)
  {
    if |files| > 0 {
      var front := files[..|files| - 1];
      HeadersComplete(front);
      assert forall k :: 0 <= k < |files| - 1 ==> front[k] == files[k];
    }
  }

  /** A file's data lines are all printed exactly when each converts. */
  lemma {:induction false} BodyComplete(lines: seq<string>)
    ensures BodyOf(lines).error.None? <==> forall i :: 0 <= i < |lines| ==> Genotype(Strip(lines[i])).Ok?
    ensures BodyOf(lines).error.None? ==> |BodyOf(lines).lines| == |lines|
  {
    if |lines| > 0 {
      BodyComplete(lines[1..]);
      assert forall i :: 1 <= i < |lines| ==> lines[1..][i - 1] == lines[i];
    }
  }

  /** Every file's data lines are printed exactly when each converts. */
  lemma {:induction false} BodiesComplete(files: seq<InputFile>)
    ensures Bodies(files).error.None? <==>
      forall k, i :: 0 <= k < |files| && 0 <= i < |DataLines(files[k])| ==> Genotype(Strip(DataLines(files[k])[i])).Ok?
  {
    if |files| > 0 {
      var front := files[..|files| - 1];
      BodiesComplete(front);
      BodyComplete(DataLines(files[|files| - 1]));
      assert forall k :: 0 <= k < |files| - 1 ==> front[k] == files[k];
    }
  }

  /** A run completes exactly when every file has its header lines and
      every data line converts. */
  lemma WriteComplete(files: seq<InputFile>)
    ensures Write(files).error.None? <==>
      (forall k :: 0 <= k < |files| ==> |files[k].lines| >= 3)
      && forall k, i :: 0 <= k < |files| && 0 <= i < |DataLines(files[k])| ==> Genotype(Strip(DataLines(files[k])[i])).Ok?
  {
    HeadersComplete(files);
    BodiesComplete(files);
  }

  // ---------------------------------------------------------------------
  // Agreement with `tormes` of `selfingsim/data.py`

  /** The PHASE files of a list of samples, each named by a path whose
      last component is the sample's source. */
  predicate PhaseFiles(files: seq<InputFile>, ss: seq<SampleData.Sample>) {
    && |files| == |ss|
    && forall k :: 0 <= k < |files| ==>
         files[k].lines == SampleFormats.PhaseLines(ss[k]) && BaseName(files[k].name) == ss[k].src
  }

  /** What a sample's PHASE file needs for the conversion to see its
      fields. */
  predicate Convertible(s: SampleData.Sample) {
    SampleData.WellFormed(s) && SampleFormats.PhaseSafe(s)
  }

  lemma {:induction false} HeadersOfPhase(files: seq<InputFile>, ss: seq<SampleData.Sample>)
    requires PhaseFiles(files, ss)
    ensures Headers(files) == Printed(SampleFormats.RmesHeaders(ss), None)
  {
    if |files| > 0 {
      var n := |files| - 1;
      HeadersOfPhase(files[..n], ss[..n]);
      var s := ss[n];
      var lines := files[n].lines;
      NatToStringNoSpace(|s.genos|);
      NatToStringNoSpace(s.nloc);
      NoSpaceStrip(NatToString(|s.genos|));
      NoSpaceStrip(NatToString(s.nloc));
      assert lines[0] == NatToString(|s.genos|) && lines[1] == NatToString(s.nloc);
    }
  }

  lemma {:induction false} BodyOfPhase(body: seq<string>, ids: seq<string>, genos: seq<SampleData.Genotype>)
    requires |body| == |ids| == |genos|
    requires forall i :: 0 <= i < |body| ==> body[i] == SampleFormats.PhaseLine(ids[i], genos[i])
    requires forall i :: 0 <= i < |ids| ==> SampleFormats.Field(ids[i])
    requires forall i, l :: 0 <= i < |genos| && 0 <= l < |genos[i]| ==>
      SampleFormats.Field(genos[i][l].a) && SampleFormats.Field(genos[i][l].b)
    ensures BodyOf(body) == Printed(SampleFormats.HetLines(genos), None)
  {
    if |body| > 0 {
      PhaseLineStripped(ids[0], genos[0]);
      GenotypeOfPhaseLine(ids[0], genos[0]);
      BodyOfPhase(body[1..], ids[1..], genos[1..]);
      var h := SampleFormats.HetLines(genos);
      assert h == [SampleFormats.HetLine(genos[0])] + SampleFormats.HetLines(genos[1..]);
    }
  }

  lemma DataLinesOfPhase(s: SampleData.Sample)
    requires Convertible(s)
    ensures BodyOf(DataLines(InputFile("", SampleFormats.PhaseLines(s)))) == Printed(SampleFormats.HetLines(s.genos), None)
  {
    var lines := SampleFormats.PhaseLines(s);
    assert SampleFormats.ZipLength(s) == |s.genos|;
    BodyOfPhase(lines[3..], s.ids, s.genos);
  }

  lemma {:induction false} BodiesOfPhase(files: seq<InputFile>, ss: seq<SampleData.Sample>)
    requires PhaseFiles(files, ss)
    requires forall k :: 0 <= k < |ss| ==> Convertible(ss[k])
    ensures Bodies(files) == Printed(SampleFormats.RmesBodies(ss), None)
  {
    if |files| > 0 {
      var n := |files| - 1;
      BodiesOfPhase(files[..n], ss[..n]);
      DataLinesOfPhase(ss[n]);
      assert DataLines(files[n]) == DataLines(InputFile("", SampleFormats.PhaseLines(ss[n])));
    }
  }

  /** Converting the PHASE files that `tophase` writes for some samples
      prints, without error, exactly the lines `tormes` writes for those
      samples. */
  lemma AgreesWithTormes(files: seq<InputFile>, ss: seq<SampleData.Sample>)
    requires PhaseFiles(files, ss)
    requires forall k :: 0 <= k < |ss| ==> Convertible(ss[k])
    ensures Write(files) == Printed(SampleFormats.RmesLines(ss), None)
  {
    HeadersOfPhase(files, ss);
    BodiesOfPhase(files, ss);
    var count := [NatToString(|ss|)];
    var h, b := SampleFormats.RmesHeaders(ss), SampleFormats.RmesBodies(ss);
    assert Then(Headers(files), Bodies(files)) == Printed(h + b, None);
    assert count + (h + b) == count + h + b;
  }
}
