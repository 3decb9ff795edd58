/** Python's `round(x, digits)` on real numbers: nearest multiple of 1/scale, ties to the even one. */
module Rounding {
  import opened Common

  const SCALE_4: int := 10_000
  const SCALE_6: int := 1_000_000

  function HalfEven(t: real): (r: int)
    ensures r as real - 0.5 <= t <= r as real + 0.5
    ensures t.Floor as real == t ==> r == t.Floor
    ensures t == r as real - 0.5 || t == r as real + 0.5 ==> r % 2 == 0
  {
    var f := t.Floor;
    var rest := t - f as real;
    if rest < 0.5 then f
    else if rest > 0.5 then f + 1
    else if f % 2 == 0 then f
    else f + 1
  }

  function Scaled(x: real, scale: int): real {
    x * scale as real
  }

  function Round(x: real, scale: int): real
    requires scale > 0
  {
    Step(HalfEven(Scaled(x, scale)), scale)
  }

  /** x is a multiple of 1/scale. */
  ghost predicate OnGrid(x: real, scale: int)
    requires scale > 0
  {
    (x * scale as real).Floor as real == x * scale as real
  }

  lemma HalfEvenMonotone(s: real, t: real)
    requires s <= t
    ensures HalfEven(s) <= HalfEven(t)
  {
    if s.Floor == t.Floor {
    } else {
      assert s.Floor + 1 <= t.Floor;
    }
  }

  lemma MulMonotone(x: real, y: real, s: real)
    requires s > 0.0 && x <= y
    ensures x * s <= y * s
  {
    assert (y - x) * s >= 0.0;
  }

  lemma DivMonotone(a: real, b: real, s: real)
    requires s > 0.0 && a <= b
    ensures a / s <= b / s
  {
  }

  function Step(k: int, scale: int): real
    requires scale > 0
  {
    k as real / scale as real
  }

  lemma StepMonotone(j: int, k: int, scale: int)
    requires scale > 0 && j <= k
    ensures Step(j, scale) <= Step(k, scale)
  {
    DivMonotone(j as real, k as real, scale as real);
  }

  lemma RoundMonotone(x: real, y: real, scale: int)
    requires scale > 0 && x <= y
    ensures Round(x, scale) <= Round(y, scale)
  {
    var xs, ys := Scaled(x, scale), Scaled(y, scale);
    assert xs <= ys by {
      MulMonotone(x, y, scale as real);
    }
    HalfEvenMonotone(xs, ys);
    StepMonotone(HalfEven(xs), HalfEven(ys), scale);
  }

  lemma RoundFixesGrid(x: real, scale: int)
    requires scale > 0 && OnGrid(x, scale)
    ensures Round(x, scale) == x
  {
  }

  lemma RoundLandsOnGrid(x: real, scale: int)
    requires scale > 0
    ensures OnGrid(Round(x, scale), scale)
  {
    var k := HalfEven(x * scale as real);
    assert Round(x, scale) * scale as real == k as real;
  }

  lemma RoundIdempotent(x: real, scale: int)
    requires scale > 0
    ensures Round(Round(x, scale), scale) == Round(x, scale)
  {
    RoundLandsOnGrid(x, scale);
    RoundFixesGrid(Round(x, scale), scale);
  }

  lemma DivShift(r: real, s: real)
    requires s > 0.0
    ensures (r - 0.5) / s == r / s - 0.5 / s
    ensures (r + 0.5) / s == r / s + 0.5 / s
  {
  }

  /** Rounding moves a value by at most half a grid step. */
  lemma RoundError(x: real, scale: int)
    requires scale > 0
    ensures Abs(Round(x, scale) - x) <= 0.5 / scale as real
  {
    var xs := Scaled(x, scale);
    var r := HalfEven(xs);
    assert xs / scale as real == x;
    Within(r as real, xs, scale as real);
  }

  lemma Within(r: real, t: real, s: real)
    requires s > 0.0 && r - 0.5 <= t <= r + 0.5
    ensures -0.5 / s <= r / s - t / s <= 0.5 / s
  {
    DivMonotone(r - 0.5, t, s);
    DivMonotone(t, r + 0.5, s);
    DivShift(r, s);
  }

  /** Rounding to four digits stays within [0, 1]. */
  lemma RoundedUnit(x: real)
    requires 0.0 <= x <= 1.0
    ensures 0.0 <= Round(x, SCALE_4) <= 1.0
  {
    RoundMonotone(0.0, x, SCALE_4);
    RoundMonotone(x, 1.0, SCALE_4);
    RoundFixesGrid(0.0, SCALE_4);
    RoundFixesGrid(1.0, SCALE_4);
  }
}
