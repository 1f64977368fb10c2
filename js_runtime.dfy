/**
 * The two JavaScript built-ins the weather card's helpers rely on, stated
 * over mathematical values: `String.prototype.includes` on a string and
 * `Math.round` on a number (taken as an exact `real`, not an IEEE-754 double).
 */
module JsRuntime {

  /** `s.startsWith(p)`: `p` is a prefix of `s`. */
  predicate StartsWith(s: string, p: string) {
    |p| <= |s| && s[..|p|] == p
  }

  /** `p` occurs in `s` starting at position `i`. */
  predicate OccursAt(s: string, p: string, i: int) {
    0 <= i <= |s| - |p| && s[i..i + |p|] == p
  }

  /**
   * `s.includes(p)`: tries the start positions 0, 1, 2, ... of `s` in turn
   * and succeeds at the first one where `p` matches. The result is true
   * exactly when `p` occurs somewhere in `s` (the empty string occurs in
   * every string).
   */
  function Includes(s: string, p: string): (b: bool)
    ensures b <==> exists i :: OccursAt(s, p, i)
    decreases |s|
  {
    if |p| > |s| then
      false
    else if StartsWith(s, p) then
      assert OccursAt(s, p, 0);
      true
    else
      var r := Includes(s[1..], p);
      assert forall i :: OccursAt(s[1..], p, i) <==> OccursAt(s, p, i + 1) by {
        forall i ensures OccursAt(s[1..], p, i) <==> OccursAt(s, p, i + 1) {
          if 0 <= i <= |s[1..]| - |p| {
            assert s[1..][i..i + |p|] == s[i + 1..i + 1 + |p|];
          }
        }
      }
      assert r ==> exists i :: OccursAt(s, p, i) by {
        if r {
          var i :| OccursAt(s[1..], p, i);
          assert OccursAt(s, p, i + 1);
        }
      }
      assert (exists i :: OccursAt(s, p, i)) ==> r by {
        if exists i :: OccursAt(s, p, i) {
          var i :| OccursAt(s, p, i);
          assert i != 0 by {
            assert OccursAt(s, p, 0) ==> StartsWith(s, p);
          }
          assert OccursAt(s[1..], p, i - 1);
        }
      }
      r
  }

  /** Searching for a one-character string is a test for that character at any position. */
  lemma IncludesSingleChar(s: string, c: char)
    ensures Includes(s, [c]) <==> exists i :: 0 <= i < |s| && s[i] == c
  {
    if Includes(s, [c]) {
      var i :| OccursAt(s, [c], i);
      assert s[i..i + 1][0] == s[i];
    }
    if exists i :: 0 <= i < |s| && s[i] == c {
      var i :| 0 <= i < |s| && s[i] == c;
      assert s[i..i + 1] == [c];
      assert OccursAt(s, [c], i);
    }
  }

  /** Distance between a number and an integer. */
  function Dist(x: real, n: int): (d: real)
    ensures d >= 0.0
    ensures d == 0.0 <==> x == n as real
  {
    if x >= n as real then x - n as real else n as real - x
  }

  /**
   * ECMAScript's description of `Math.round(x)`: the integral value closest
   * to `x`; of two equally close ones, the one closer to +infinity.
   */
  ghost predicate ClosestIntegral(x: real, r: int) {
    forall n: int :: Dist(x, r) <= Dist(x, n) && (Dist(x, n) == Dist(x, r) ==> n <= r)
  }

  /** `Math.round(x)`, computed as floor(x + 1/2). */
  function Round(x: real): (r: int)
    ensures ClosestIntegral(x, r)
  {
    var r := (x + 0.5).Floor;
    assert r as real - 0.5 <= x < r as real + 0.5;
    r
  }

  /** At most one integer is the closest in the sense of `ClosestIntegral`, so `Round` is that one. */
  lemma RoundUnique(x: real, n: int)
    requires ClosestIntegral(x, n)
    ensures n == Round(x)
  {
    var r := Round(x);
    assert Dist(x, r) <= Dist(x, n) && (Dist(x, r) == Dist(x, n) ==> r <= n);
    assert Dist(x, n) <= Dist(x, r) && (Dist(x, r) == Dist(x, n) ==> n <= r);
  }

  /** `Math.round` leaves integers alone. */
  lemma RoundOfIntegral(k: int)
    ensures Round(k as real) == k
  {
  }

  /** Halves go up, also for negative numbers: `Math.round(2.5) == 3`, `Math.round(-2.5) == -2`. */
  lemma RoundHalvesUp(k: int)
    ensures Round(k as real + 0.5) == k + 1
    ensures Round(k as real - 0.5) == k
  {
  }

  /** `Math.round` never decreases when its argument grows. */
  lemma RoundMonotone(x: real, y: real)
    requires x <= y
    ensures Round(x) <= Round(y)
  {
  }
}
