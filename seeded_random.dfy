/**
 * The seeded generator. Its algorithm is not part of this model: a `DrawFamily` gives,
 * for each seed, the stream of raw values the generator produces, so any deterministic
 * generator fits. A draw in a range takes the next raw value of the stream.
 */
module SeededRandom {
  import opened Wrappers
  import opened Weather

  /** `family(seed, k)` is the k-th raw value produced from `seed`. */
  type DrawFamily = (Int64, nat) -> nat

  /** The k-th draw from `seed` in the closed range `lo...hi`. */
  function DrawAt(family: DrawFamily, seed: Int64, k: nat, lo: int, hi: int): (v: int)
    requires lo <= hi
    ensures lo <= v <= hi
  {
    lo + family(seed, k) % (hi - lo + 1)
  }

  /** `SeedRandomNumberGenerator`: a position in the stream of its seed, advanced by each draw. */
  class SeededGenerator {
    const family: DrawFamily
    const seed: Int64
    var taken: nat

    constructor (family: DrawFamily, seed: Int64)
      ensures this.family == family && this.seed == seed && taken == 0
    {
      this.family := family;
      this.seed := seed;
      taken := 0;
    }

    /** `Int.random(in: lo...hi, using: &generator)`; an empty range is a trap in Swift. */
    method NextInRange(lo: int, hi: int) returns (v: int)
      requires lo <= hi
      modifies this
      ensures lo <= v <= hi
      ensures v == DrawAt(family, seed, old(taken), lo, hi)
      ensures taken == old(taken) + 1
    {
      v := DrawAt(family, seed, taken, lo, hi);
      taken := taken + 1;
    }

    /** `randomElement(using: &generator)`: `nil` without a draw when empty, else one draw of an index. */
    method RandomElement<T>(xs: seq<T>) returns (x: Option<T>)
      modifies this
      ensures xs == [] ==> x == None && taken == old(taken)
      ensures xs != [] ==> taken == old(taken) + 1
                           && x == Some(xs[DrawAt(family, seed, old(taken), 0, |xs| - 1)])
    {
      if xs == [] {
        x := None;
      } else {
        var i := NextInRange(0, |xs| - 1);
        x := Some(xs[i]);
      }
    }
  }
}
