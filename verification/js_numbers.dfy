/** The two pieces of JavaScript number semantics the load cycle relies on:
    the truncating remainder operator `%` and the idiom
    `Math.floor(Math.random() * n)` for picking an index. JavaScript numbers are
    IEEE doubles; here they are unbounded integers and exact reals. */
module JsNumbers {

  /** JavaScript's `a % m`: the remainder takes the sign of the dividend,
      unlike Dafny's Euclidean `%`. For a negative multiple of `m` JavaScript
      yields -0, which `===` equates with 0, so the zero test is modelled by
      comparing with 0. */
  function JsRem(a: int, m: int): (r: int)
    requires m > 0
    ensures -m < r < m
    ensures a >= 0 ==> r >= 0
    ensures a <= 0 ==> r <= 0
    // the zero test `a % m === 0` holds exactly when `m` divides `a`
    ensures r == 0 <==> a % m == 0
  {
    NegationKeepsDivisibility(a, m);
    if a >= 0 then a % m else -((-a) % m)
  }

  lemma MulAtLeast(m: int, d: int)
    requires m > 0 && d >= 1
    ensures m * d >= m
  {
  }

  lemma MulAtMost(m: int, d: int)
    requires m > 0 && d <= -1
    ensures m * d <= -m
  {
  }

  /** A multiple of `m` leaves no Euclidean remainder. */
  lemma MultipleHasNoRemainder(m: int, q: int)
    requires m > 0
    ensures (m * q) % m == 0
  {
    var x := m * q;
    var d := q - x / m;
    assert m * d == x % m;
    if d >= 1 {
      MulAtLeast(m, d);
    } else if d <= -1 {
      MulAtMost(m, d);
    }
  }

  /** `m` divides `b` exactly when it divides `-b`. */
  lemma NegationKeepsDivisibility(b: int, m: int)
    requires m > 0
    ensures (-b) % m == 0 <==> b % m == 0
  {
    if b % m == 0 {
      assert -b == m * (-(b / m));
      MultipleHasNoRemainder(m, -(b / m));
    }
    if (-b) % m == 0 {
      assert b == m * (-((-b) / m));
      MultipleHasNoRemainder(m, -((-b) / m));
    }
  }

  /** A value `Math.random()` can return: a number in [0, 1). */
  predicate IsRandomDraw(u: real) {
    0.0 <= u < 1.0
  }

  /** `Math.floor(u * n)` for a random draw `u`: always an index of a list of
      length `n`. */
  function RandomIndex(u: real, n: nat): (i: nat)
    requires IsRandomDraw(u) && n > 0
    ensures i < n
  {
    var x := u * n as real;
    assert 0.0 <= x < n as real by {
      assert u * n as real <= 1.0 * n as real || u == 0.0;
    }
    x.Floor
  }

  /** Every index of a non-empty list is chosen by some draw: the draw
      `i / n` lands on index `i`. */
  lemma RandomIndexReaches(i: nat, n: nat)
    requires i < n
    ensures exists u :: IsRandomDraw(u) && RandomIndex(u, n) == i
  {
    var u := i as real / n as real;
    assert u * n as real == i as real;
    assert IsRandomDraw(u);
    assert RandomIndex(u, n) == i;
  }

  /** The element of `list` that `list[Math.floor(Math.random() * list.length)]`
      yields for the draw `u`. */
  function Pick<T>(list: seq<T>, u: real): (x: T)
    requires IsRandomDraw(u) && |list| > 0
    ensures x in list
  {
    list[RandomIndex(u, |list|)]
  }

  /** Every element of a non-empty list can be the one picked. */
  lemma PickReaches<T>(list: seq<T>, x: T)
    requires x in list
    ensures exists u :: IsRandomDraw(u) && Pick(list, u) == x
  {
    var i :| 0 <= i < |list| && list[i] == x;
    RandomIndexReaches(i, |list|);
    var u :| IsRandomDraw(u) && RandomIndex(u, |list|) == i;
    assert Pick(list, u) == x;
  }
}
