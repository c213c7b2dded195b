/** The random source the simulation draws from, made explicit. Every draw is
    answered by a fixed function of its position in the stream, so each run of
    the simulation is determined by that function, and what is proved about the
    simulation holds for every possible sequence of random answers. */
module Randomness {

  class Source {
    /** The answer to the draw at each position of the stream. */
    const draws: nat -> nat
    /** How many draws have been consumed so far. */
    var used: nat

    constructor (draws: nat -> nat)
      ensures this.draws == draws && used == 0
    {
      this.draws := draws;
      used := 0;
    }

    /** A number below `k`, consuming one draw. */
    method Below(k: nat) returns (j: nat)
      requires k > 0
      modifies this
      ensures j < k && j == draws(old(used)) % k
      ensures used == old(used) + 1
    {
      j := draws(used) % k;
      used := used + 1;
    }

    /** One of `options`, consuming one draw. */
    method Choice<T>(options: seq<T>) returns (x: T)
      requires |options| > 0
      modifies this
      ensures x in options && x == options[draws(old(used)) % |options|]
      ensures used == old(used) + 1
    {
      var j := Below(|options|);
      x := options[j];
    }
  }
}
