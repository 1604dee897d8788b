/** The column ranges of the burn-in plotting script: each `-c START-STOP`
    option names a half-open range of data columns to plot, and the
    script turns the options into integer pairs, refusing any that leave
    the table's columns. */
module Trajectory {
  import opened Wrappers
  import opened Text

  /** The two integers of one `START-STOP` spec: the text must split on
      `-` into exactly two parts (unpacking fails otherwise) and each
      part must read as an integer. */
  function Bounds(col: string): (r: Result<(int, int)>)
    ensures r.Ok? ==> |SplitOn(col, '-')| == 2
  {
    var parts := SplitOn(col, '-');
    if |parts| != 2 then Err(ValueError("wrong number of values to unpack"))
    else
      var start :- ParseInt(parts[0]);
      var stop :- ParseInt(parts[1]);
      Ok((start, stop))
  }

  /** The range check: the start lies in `[mincol, maxcol)` and the stop in
      `(mincol, maxcol]`; nothing relates the start to the stop. */
  predicate InRange(p: (int, int), mincol: int, maxcol: int) {
    mincol <= p.0 < maxcol && mincol < p.1 <= maxcol
  }

  /** One spec, read and checked: out of range exits the program. */
  function Checked(col: string, mincol: int, maxcol: int): (r: Result<(int, int)>)
  {
    var p :- Bounds(col);
    if InRange(p, mincol, maxcol) then Ok(p) else Err(Exit("index out of range"))
  }

  /** The specs checked in order; the first failure ends the whole run. */
  function CheckAll(columns: seq<string>, mincol: int, maxcol: int): (r: Result<seq<(int, int)>>)
    ensures r.Ok? ==> |r.value| == |columns|
  {
    if |columns| == 0 then Ok([])
    else
      var front :- CheckAll(columns[..|columns| - 1], mincol, maxcol);
      var p :- Checked(columns[|columns| - 1], mincol, maxcol);
      Ok(front + [p])
  }

  /** What `get_range` returns: without specs, the whole span. */
  function Ranges(columns: seq<string>, mincol: int, maxcol: int): Result<seq<(int, int)>>
  {
    if |columns| == 0 then Ok([(mincol, maxcol)]) else CheckAll(columns, mincol, maxcol)
  }

  /** `get_range`: one pass over the specs, appending each checked pair. */
  method GetRange(columns: seq<string>, mincol: int, maxcol: int)
    returns (r: Result<seq<(int, int)>>)
    ensures r == Ranges(columns, mincol, maxcol)
  {
    if |columns| == 0 {
      return Ok([(mincol, maxcol)]);
    }
    var ranges: seq<(int, int)> := [];
    for i := 0 to |columns|
      invariant CheckAll(columns[..i], mincol, maxcol) == Ok(ranges)
    {
      assert columns[..i + 1][..i] == columns[..i];
      var p := Checked(columns[i], mincol, maxcol);
      assert columns[..i + 1][i] == columns[i];
      if p.Err? {
        CheckAllStops(columns, i, mincol, maxcol);
        return Err(p.error);
      }
      ranges := ranges + [p.value];
    }
    assert columns[..|columns|] == columns;
    return Ok(ranges);
  }

  // Lemmas

  /** Once a spec fails, every longer run fails the same way. */
  lemma {:induction false} CheckAllStops(columns: seq<string>, i: nat, mincol: int, maxcol: int)
    requires i < |columns|
    requires CheckAll(columns[..i], mincol, maxcol).Ok?
    requires Checked(columns[i], mincol, maxcol).Err?
    ensures CheckAll(columns, mincol, maxcol) == Err(Checked(columns[i], mincol, maxcol).error)
    decreases |columns|
  {
    var n := |columns|;
    assert columns[..i + 1][..i] == columns[..i];
    if n > i + 1 {
      assert columns[..n - 1][..i] == columns[..i];
      CheckAllStops(columns[..n - 1], i, mincol, maxcol);
    } else {
      assert columns[..n - 1] == columns[..i];
    }
  }

  /** Every spec is accepted exactly when each one reads and lies in
      range, and then the pairs are the specs' integers in input order. */
  lemma {:induction false} CheckAllAccepts(columns: seq<string>, mincol: int, maxcol: int)
    ensures CheckAll(columns, mincol, maxcol).Ok?
      <==> forall k :: 0 <= k < |columns| ==> Checked(columns[k], mincol, maxcol).Ok?
    ensures CheckAll(columns, mincol, maxcol).Ok? ==>
      forall k :: 0 <= k < |columns| ==>
        Bounds(columns[k]).Ok? && CheckAll(columns, mincol, maxcol).value[k] == Bounds(columns[k]).value
        && InRange(CheckAll(columns, mincol, maxcol).value[k], mincol, maxcol)
    decreases |columns|
  {
    var n := |columns|;
    if n > 0 {
      var front := columns[..n - 1];
      var last := columns[n - 1];
      CheckAllAccepts(front, mincol, maxcol);
      var f := CheckAll(front, mincol, maxcol);
      var p := Checked(last, mincol, maxcol);
      if f.Ok? && p.Ok? {
        var all := CheckAll(columns, mincol, maxcol).value;
        assert all == f.value + [p.value];
        forall k | 0 <= k < n
          ensures Checked(columns[k], mincol, maxcol).Ok? && Bounds(columns[k]).Ok?
          ensures all[k] == Bounds(columns[k]).value && InRange(all[k], mincol, maxcol)
        {
          if k < n - 1 {
            assert columns[k] == front[k] && all[k] == f.value[k];
          }
        }
      } else if f.Err? {
        var k :| 0 <= k < n - 1 && Checked(front[k], mincol, maxcol).Err?;
        assert columns[k] == front[k];
      }
    }
  }

  /** A failing run reports the failure of its first bad spec, and that
      failure is either a malformed spec or the out-of-range exit. */
  lemma {:induction false} CheckAllFirstFailure(columns: seq<string>, mincol: int, maxcol: int)
    requires CheckAll(columns, mincol, maxcol).Err?
    ensures exists i :: (0 <= i < |columns| && Checked(columns[i], mincol, maxcol).Err?
      && (forall k :: 0 <= k < i ==> Checked(columns[k], mincol, maxcol).Ok?)
      && CheckAll(columns, mincol, maxcol).error == Checked(columns[i], mincol, maxcol).error)
    ensures CheckAll(columns, mincol, maxcol).error.ValueError?
      || CheckAll(columns, mincol, maxcol).error == Exit("index out of range")
    decreases |columns|
  {
    var n := |columns|;
    var front := columns[..n - 1];
    assert forall k :: 0 <= k < n - 1 ==> front[k] == columns[k];
    if CheckAll(front, mincol, maxcol).Err? {
      CheckAllFirstFailure(front, mincol, maxcol);
      var i :| 0 <= i < |front| && Checked(front[i], mincol, maxcol).Err?
        && (forall k :: 0 <= k < i ==> Checked(front[k], mincol, maxcol).Ok?)
        && CheckAll(front, mincol, maxcol).error == Checked(front[i], mincol, maxcol).error;
      assert Checked(columns[i], mincol, maxcol).Err?;
      assert CheckAll(columns, mincol, maxcol) == CheckAll(front, mincol, maxcol);
    } else {
      CheckAllAccepts(front, mincol, maxcol);
      var last := columns[n - 1];
      assert CheckAll(columns, mincol, maxcol) == Err(Checked(last, mincol, maxcol).error);
      if Bounds(last).Err? {
        BoundsErrors(last);
      }
    }
  }

  /** A spec that fails to read raises `ValueError`. */
  lemma BoundsErrors(col: string)
    requires Bounds(col).Err?
    ensures Bounds(col).error.ValueError?
  {
    var parts := SplitOn(col, '-');
    if |parts| == 2 {
      if ParseInt(parts[0]).Err? {
        assert ParseInt(parts[0]).error.ValueError?;
      }
    }
  }

  /** `"{}-{}".format(start, stop)` for naturals reads back as the pair. */
  lemma BoundsOfSpec(start: nat, stop: nat)
    ensures Bounds(NatToString(start) + "-" + NatToString(stop)) == Ok((start, stop))
  {
    var a := NatToString(start);
    var b := NatToString(stop);
    assert '-' !in a by {
      forall j | 0 <= j < |a| ensures a[j] != '-' { assert IsDigit(a[j]); }
    }
    assert '-' !in b by {
      forall j | 0 <= j < |b| ensures b[j] != '-' { assert IsDigit(b[j]); }
    }
    SplitOnFirst(a, '-', b);
    assert a + "-" + b == a + ['-'] + b;
    SplitOnNone(b, '-');
    ParseNatString(start);
    ParseNatString(stop);
  }

  /** A reversed range within bounds, such as `5-3`, is accepted as it is:
      the start is never compared with the stop. */
  lemma ReversedAccepted(start: nat, stop: nat, mincol: int, maxcol: int)
    requires stop < start
    requires InRange((start, stop), mincol, maxcol)
    ensures Ranges([NatToString(start) + "-" + NatToString(stop)], mincol, maxcol)
      == Ok([(start as int, stop as int)])
  {
    var cols := [NatToString(start) + "-" + NatToString(stop)];
    BoundsOfSpec(start, stop);
    assert Checked(cols[0], mincol, maxcol) == Ok((start, stop));
    assert cols[..0] == [];
    assert CheckAll(cols[..0], mincol, maxcol) == Ok([]);
    assert cols[..|cols| - 1] == cols[..0];
    var p := (start as int, stop as int);
    assert CheckAll(cols, mincol, maxcol) == Ok([] + [p]);
    assert [] + [p] == [p];
  }
}
