/** The game's only use of randomness: `Math.floor(Math.random() * n)`,
    with the draw `u` of `Math.random()` passed in as a parameter. */
module Random {

  /** A random draw lies in the half-open unit interval. */
  predicate IsDraw(u: real) {
    0.0 <= u < 1.0
  }

  /** `Math.floor(u * n)`: an index into a non-empty list of `n` choices. */
  function PickIndex(u: real, n: nat): (k: nat)
    requires IsDraw(u) && n > 0
    ensures k < n
    ensures k as real <= u * n as real < (k + 1) as real
  {
    var p := u * n as real;
    ScaledDraw(u, n as real);
    var k := p.Floor;
    assert k as real <= p;
    assert p < n as real;
    assert k as real < n as real;
    k
  }

  /** A draw scaled by a positive `n` lies in `[0, n)`. */
  lemma ScaledDraw(u: real, n: real)
    requires IsDraw(u) && n > 0.0
    ensures 0.0 <= u * n < n
  {
    assert (1.0 - u) * n > 0.0;
    assert u * n + (1.0 - u) * n == n;
  }
}
