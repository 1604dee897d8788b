/** The random number generator the parent choosers call (`simu.getRNG()`),
    as two finite streams of values supplied in advance: the results of
    `randUniform()` and the raw words behind `randInt(n)`, which yields the
    raw word modulo `n`. A stream that runs dry ends the draw with `None`. */
module Draws {
  import opened Wrappers

  class Rng {
    var uniforms: seq<real>
    var ints: seq<nat>

    constructor (uniforms: seq<real>, ints: seq<nat>)
      ensures this.uniforms == uniforms && this.ints == ints
    {
      this.uniforms := uniforms;
      this.ints := ints;
    }

    /** `randUniform()`: the next uniform value. */
    method RandUniform() returns (u: Option<real>)
      modifies this
      ensures ints == old(ints)
      ensures old(uniforms) == [] ==> u == None && uniforms == []
      ensures old(uniforms) != [] ==> u == Some(old(uniforms)[0]) && uniforms == old(uniforms)[1..]
    {
      if |uniforms| == 0 {
        return None;
      }
      u := Some(uniforms[0]);
      uniforms := uniforms[1..];
    }

    /** `randInt(n)`: a value in `0 .. n-1`; an empty range yields nothing
        and consumes nothing. */
    method RandInt(n: nat) returns (k: Option<nat>)
      modifies this
      ensures uniforms == old(uniforms)
      ensures n == 0 || old(ints) == [] ==> k == None && ints == old(ints)
      ensures n > 0 && old(ints) != [] ==> k == Some(old(ints)[0] % n) && ints == old(ints)[1..]
    {
      if n == 0 || |ints| == 0 {
        return None;
      }
      k := Some(ints[0] % n);
      ints := ints[1..];
    }
  }
}
