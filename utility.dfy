/** `chunks` (src/utility.py, repeated verbatim in partialSelfing.py and
    src/summarize.py) and the choice between the two allele modes that the
    post-processing scripts make from a run's `conf.json`. */
module Utility {
  import opened Wrappers
  import opened Json

  /** `chunks(l, n)`: the slices `l[i:i+n]` for `i = 0, n, 2n, ... < len(l)`. */
  function Chunks<T>(l: seq<T>, n: nat): (r: seq<seq<T>>)
    requires n > 0
    decreases |l|
  {
    if |l| == 0 then []
    else if |l| <= n then [l]
    else [l[..n]] + Chunks(l[n..], n)
  }

  /** `chunks` with any step: `range` refuses a zero step with `ValueError`
      and yields nothing for a negative one. */
  function ChunksOf<T>(l: seq<T>, n: int): (r: Result<seq<seq<T>>>)
    ensures n == 0 <==> r.Err?
    ensures n < 0 ==> r == Ok([])
    ensures n > 0 ==> r == Ok(Chunks(l, n))
  {
    if n == 0 then Err(ValueError("xrange() arg 3 must not be zero"))
    else if n < 0 then Ok([])
    else Ok(Chunks(l, n))
  }

  function Flatten<T>(ss: seq<seq<T>>): seq<T> {
    if |ss| == 0 then [] else ss[0] + Flatten(ss[1..])
  }

  /** Concatenating the chunks gives back the list. */
  lemma {:induction false} ChunksFlatten<T>(l: seq<T>, n: nat)
    requires n > 0
    ensures Flatten(Chunks(l, n)) == l
    decreases |l|
  {
    if |l| > n {
      ChunksFlatten(l[n..], n);
      assert l[..n] + l[n..] == l;
    }
  }

  /** There are `ceil(len(l) / n)` chunks: the least `c` with
      `len(l) <= c * n`. */
  lemma {:induction false} ChunksCount<T>(l: seq<T>, n: nat)
    requires n > 0
    ensures |Chunks(l, n)| * n >= |l|
    ensures |Chunks(l, n)| > 0 ==> (|Chunks(l, n)| - 1) * n < |l|
    decreases |l|
  {
    if |l| > n {
      var c := |Chunks(l[n..], n)|;
      ChunksCount(l[n..], n);
      assert (c + 1) * n == c * n + n;
      assert c * n == (c - 1) * n + n;
    }
  }

  /** Every chunk but the last has `n` elements and the last has 1 to `n`. */
  lemma {:induction false} ChunksSizes<T>(l: seq<T>, n: nat)
    requires n > 0
    ensures forall k :: 0 <= k < |Chunks(l, n)| - 1 ==> |Chunks(l, n)[k]| == n
    ensures |l| > 0 ==> 1 <= |Chunks(l, n)[|Chunks(l, n)| - 1]| <= n
    decreases |l|
  {
    if |l| > n {
      ChunksSizes(l[n..], n);
      var r := Chunks(l, n);
      assert r == [l[..n]] + Chunks(l[n..], n);
    }
  }

  /** On a sequence of `m` blocks of `n` elements, chunk `k` is exactly
      block `k`: the sites `k*n .. (k+1)*n - 1`. */
  lemma {:induction false} ChunkAt<T>(l: seq<T>, n: nat, m: nat, k: nat)
    requires n > 0 && |l| == m * n && k < m
    ensures |Chunks(l, n)| == m
    ensures (k + 1) * n <= |l| && Chunks(l, n)[k] == l[k * n .. (k + 1) * n]
    decreases m
  {
    if m == 1 {
      assert k == 0;
    } else {
      assert |l| > n by { assert m * n == (m - 1) * n + n; assert (m - 1) * n >= n; }
      assert |l[n..]| == (m - 1) * n;
      if k == 0 {
        ChunkAt(l[n..], n, m - 1, 0);
      } else {
        ChunkAt(l[n..], n, m - 1, k - 1);
        assert k * n == (k - 1) * n + n;
        assert (k + 1) * n == k * n + n;
        assert l[n..][(k - 1) * n .. k * n] == l[k * n .. (k + 1) * n];
      }
    }
  }

  datatype Mode = InfiniteSites | InfiniteAlleles

  /** `key` occurs in `s` starting at position `i`. */
  predicate OccursAt(s: string, key: string, i: nat) {
    i + |key| <= |s| && s[i..i + |key|] == key
  }

  /** `key in info`: a dictionary's keys, a list's items or a substring of
      a string; anything else is not a container (`TypeError`). */
  function Contains(info: Json, key: string): (r: Result<bool>)
    ensures info.JObject? ==> r == Ok(HasKey(info, key))
    ensures r.Err? <==> !(info.JObject? || info.JArray? || info.JString?)
  {
    match info
    case JObject(fields) => Ok(Lookup(fields, key).Some?)
    case JArray(items) => Ok(JString(key) in items)
    case JString(s) => Ok(exists i :: 0 <= i <= |s| && OccursAt(s, key, i))
    case _ => Err(TypeError)
  }

  /** The allele mode recorded in a run's `conf.json`:
      `'mode' in info and info['mode'] == 'infinite-alleles'`. */
  function ModeOf(info: Json): (r: Result<Mode>)
  {
    var has :- Contains(info, "mode");
    if !has then Ok(InfiniteSites)
    else
      var v :- Get(info, "mode");
      Ok(if v == JString("infinite-alleles") then InfiniteAlleles else InfiniteSites)
  }

  /** For a dictionary the mode is infinite-alleles exactly when `mode` is
      bound to `"infinite-alleles"`, and infinite-sites otherwise, a missing
      key included. */
  lemma ModeOfDictionary(info: Json)
    requires info.JObject?
    ensures ModeOf(info).Ok?
    ensures ModeOf(info).value == InfiniteAlleles <==> Lookup(info.fields, "mode") == Some(JString("infinite-alleles"))
  {
  }

  /** A list holding the string `mode` passes the membership test and then
      cannot be indexed by it. */
  lemma ModeOfList(items: seq<Json>)
    requires JString("mode") in items
    ensures ModeOf(JArray(items)) == Err(TypeError)
  {
  }

  /** The unit test of `get_mode`. */
  lemma ModeExamples()
    ensures ModeOf(JObject([("mode", JString("infinite-sites"))])) == Ok(InfiniteSites)
    ensures ModeOf(JObject([("mode", JString("infinite-alleles"))])) == Ok(InfiniteAlleles)
    ensures ModeOf(JObject([("mode", JNull)])) == Ok(InfiniteSites)
  {
    assert JString("infinite-sites") != JString("infinite-alleles") by {
      assert "infinite-sites"[9] != "infinite-alleles"[9];
    }
  }
}
