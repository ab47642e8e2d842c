/** GetYawDelta over the reals: the distance between two headings, in degrees. */
module Headings {

  function Abs(x: real): real {
    if x < 0.0 then -x else x
  }

  /** The remainder of d by whole turns, in [0, 360). */
  function Unwound(d: real): (r: real)
    requires d >= 0.0
    ensures 0.0 <= r < 360.0
  {
    d - 360.0 * (d / 360.0).Floor as real
  }

  function YawDelta(lhs: real, rhs: real): real {
    var m := Unwound(Abs(lhs - rhs));
    if m < 360.0 - m then m else 360.0 - m
  }

  lemma UnwoundAfterTurn(d: real)
    requires d >= 360.0
    ensures Unwound(d) == Unwound(d - 360.0)
  {
    assert (d - 360.0) / 360.0 == d / 360.0 - 1.0;
    assert (d / 360.0 - 1.0).Floor == (d / 360.0).Floor - 1;
  }

  method GetYawDelta(lhs: real, rhs: real) returns (r: real)
    ensures r == YawDelta(lhs, rhs)
  {
    var delta := Abs(lhs - rhs);
    while delta > 360.0
      invariant 0.0 <= delta && Unwound(delta) == Unwound(Abs(lhs - rhs))
      decreases delta
    {
      UnwoundAfterTurn(delta);
      delta := delta - 360.0;
    }
    if delta == 360.0 {
      UnwoundAfterTurn(delta);
    }
    assert delta < 360.0 ==> (delta / 360.0).Floor == 0;
    var wrappedDelta := 360.0 - delta;
    r := if delta < wrappedDelta then delta else wrappedDelta;
  }

  /** How far apart the headings are once rhs has been turned k times. */
  function Apart(lhs: real, rhs: real, k: int): real {
    Abs(lhs - rhs - 360.0 * k as real)
  }

  /** The delta is reached by some whole number of turns. */
  lemma DeltaIsReached(lhs: real, rhs: real) returns (k: int)
    ensures Apart(lhs, rhs, k) == YawDelta(lhs, rhs)
    ensures 0.0 <= YawDelta(lhs, rhs) <= 180.0
  {
    var d := Abs(lhs - rhs);
    var n := (d / 360.0).Floor;
    var m := Unwound(d);
    var turns := if m < 360.0 - m then n else n + 1;
    k := if lhs < rhs then -turns else turns;
    assert 360.0 * (-turns) as real == -(360.0 * turns as real);
  }

  /** No number of turns brings them closer. */
  lemma DeltaIsLeast(lhs: real, rhs: real, k: int)
    ensures YawDelta(lhs, rhs) <= Apart(lhs, rhs, k)
  {
    var j := DeltaIsReached(lhs, rhs);
    if k != j {
      assert k >= j + 1 || k <= j - 1;
      assert 360.0 * k as real >= 360.0 * j as real + 360.0 || 360.0 * k as real <= 360.0 * j as real - 360.0;
    }
  }

  lemma DeltaIgnoresTurns(a: real, b: real, turns: int)
    ensures YawDelta(a + 360.0 * turns as real, b) == YawDelta(a, b)
    ensures YawDelta(a, b + 360.0 * turns as real) == YawDelta(a, b)
  {
    var a', b' := a + 360.0 * turns as real, b + 360.0 * turns as real;
    var k := DeltaIsReached(a, b);
    var i := DeltaIsReached(a', b);
    var j := DeltaIsReached(a, b');
    assert 360.0 * (k + turns) as real == 360.0 * k as real + 360.0 * turns as real;
    assert 360.0 * (k - turns) as real == 360.0 * k as real - 360.0 * turns as real;
    assert 360.0 * (i - turns) as real == 360.0 * i as real - 360.0 * turns as real;
    assert 360.0 * (j + turns) as real == 360.0 * j as real + 360.0 * turns as real;
    DeltaIsLeast(a', b, k + turns);
    DeltaIsLeast(a, b, i - turns);
    DeltaIsLeast(a, b', k - turns);
    DeltaIsLeast(a, b, j + turns);
  }

  lemma DeltaIsADistance(a: real, b: real, c: real)
    ensures YawDelta(a, b) == YawDelta(b, a)
    ensures YawDelta(a, c) <= YawDelta(a, b) + YawDelta(b, c)
  {
    var j := DeltaIsReached(a, b);
    var k := DeltaIsReached(b, c);
    assert 360.0 * (j + k) as real == 360.0 * j as real + 360.0 * k as real;
    DeltaIsLeast(a, c, j + k);
  }
}
