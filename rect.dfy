/**
 * `SRect` of pdf.py: a rectangle held as its two corners `posMin` and
 * `posMax`, with property setters and chaining editors that change the
 * corners in place. `Box` is the value of the two corners; the functions on
 * it say what each editor does, and the class `Rect` does it in place.
 */
module Rects {
  import opened Wrappers

  /** The corners of a rectangle: `posMin = (xMin, yMin)`, `posMax = (xMax, yMax)`. */
  datatype Box = Box(xMin: real, yMin: real, xMax: real, yMax: real)

  /** The `dX` and `dY` getters. */
  function Width(b: Box): real { b.xMax - b.xMin }
  function Height(b: Box): real { b.yMax - b.yMin }

  /** Twice the centre, which keeps the arithmetic free of division. */
  function CentreX2(b: Box): real { b.xMin + b.xMax }
  function CentreY2(b: Box): real { b.yMin + b.yMax }

  /** `SRect(x, y, dX, dY)`: the corner at `(x, y)` and the given size. */
  function MakeBox(x: real, y: real, dX: real, dY: real): (b: Box)
    ensures b.xMin == x && b.yMin == y && Width(b) == dX && Height(b) == dY
  {
    Box(x, y, x + dX, y + dY)
  }

  /** `Shift(dX, dY)`: both corners move by the same delta. */
  function Shifted(b: Box, dX: real, dY: real): (r: Box)
    ensures Width(r) == Width(b) && Height(r) == Height(b)
    ensures r.xMin - b.xMin == dX && r.yMin - b.yMin == dY
  {
    Box(b.xMin + dX, b.yMin + dY, b.xMax + dX, b.yMax + dY)
  }

  /** `Inset(dS)`: `posMin` moves in by `dS` and `posMax` by `-dS`. */
  function InsetBy(b: Box, d: real): (r: Box)
    ensures Width(r) == Width(b) - 2.0 * d && Height(r) == Height(b) - 2.0 * d
    ensures CentreX2(r) == CentreX2(b) && CentreY2(r) == CentreY2(b)
  {
    Box(b.xMin + d, b.yMin + d, b.xMax - d, b.yMax - d)
  }

  /** `Outset(dS)` is `Inset(-dS)`. */
  function OutsetBy(b: Box, d: real): (r: Box)
    ensures Width(r) == Width(b) + 2.0 * d && Height(r) == Height(b) + 2.0 * d
    ensures CentreX2(r) == CentreX2(b) && CentreY2(r) == CentreY2(b)
  {
    InsetBy(b, -d)
  }

  /** `Stretch(dXLeft, dYTop, dXRight, dYBottom)`: each corner moves by its own delta. */
  function Stretched(b: Box, left: real, top: real, right: real, bottom: real): (r: Box)
    ensures Width(r) == Width(b) + right - left && Height(r) == Height(b) + bottom - top
    ensures r.xMin - b.xMin == left && r.yMin - b.yMin == top
  {
    Box(b.xMin + left, b.yMin + top, b.xMax + right, b.yMax + bottom)
  }

  /** The `x` and `y` setters translate; the `dX` and `dY` setters move `posMax` only. */
  function WithX(b: Box, x: real): Box { Shifted(b, x - b.xMin, 0.0) }
  function WithY(b: Box, y: real): Box { Shifted(b, 0.0, y - b.yMin) }
  function WithWidth(b: Box, dX: real): Box { b.(xMax := b.xMin + dX) }
  function WithHeight(b: Box, dY: real): Box { b.(yMax := b.yMin + dY) }

  /** `Set(x, y, dX, dY)`: the arguments that are given, applied in that order. */
  function SetBox(b: Box, x: Option<real>, y: Option<real>, dX: Option<real>, dY: Option<real>): Box
  {
    var b1 := if x.Some? then WithX(b, x.value) else b;
    var b2 := if y.Some? then WithY(b1, y.value) else b1;
    var b3 := if dX.Some? then WithWidth(b2, dX.value) else b2;
    if dY.Some? then WithHeight(b3, dY.value) else b3
  }

  /**
   * `Set` gives each given argument its value and keeps the rest: the
   * position moves only for a given `x` or `y`, the size changes only for
   * a given `dX` or `dY`.
   */
  lemma SetBoxResult(b: Box, x: Option<real>, y: Option<real>, dX: Option<real>, dY: Option<real>)
    ensures var r := SetBox(b, x, y, dX, dY);
      && r.xMin == (if x.Some? then x.value else b.xMin)
      && r.yMin == (if y.Some? then y.value else b.yMin)
      && Width(r) == (if dX.Some? then dX.value else Width(b))
      && Height(r) == (if dY.Some? then dY.value else Height(b))
  {
  }

  /** `Set()` with no argument changes nothing. */
  lemma SetBoxNothing(b: Box)
    ensures SetBox(b, None, None, None, None) == b
  {
  }

  /** `Outset(d)` after `Inset(d)` is the identity, and so is the other order. */
  lemma InsetOutsetRoundTrip(b: Box, d: real)
    ensures OutsetBy(InsetBy(b, d), d) == b
    ensures InsetBy(OutsetBy(b, d), d) == b
  {
  }

  /** Shifting back undoes a shift, and two shifts add up. */
  lemma ShiftRoundTrip(b: Box, dX: real, dY: real, dX': real, dY': real)
    ensures Shifted(Shifted(b, dX, dY), -dX, -dY) == b
    ensures Shifted(Shifted(b, dX, dY), dX', dY') == Shifted(b, dX + dX', dY + dY')
  {
  }

  /** Setting a coordinate and reading it back gives the value set, and the size stays. */
  lemma SettersRoundTrip(b: Box, v: real)
    ensures WithX(b, v).xMin == v && Width(WithX(b, v)) == Width(b) && Height(WithX(b, v)) == Height(b)
    ensures WithY(b, v).yMin == v && Width(WithY(b, v)) == Width(b) && Height(WithY(b, v)) == Height(b)
    ensures Width(WithWidth(b, v)) == v && WithWidth(b, v).xMin == b.xMin && WithWidth(b, v).yMin == b.yMin
    ensures Height(WithHeight(b, v)) == v && WithHeight(b, v).xMin == b.xMin && WithHeight(b, v).yMin == b.yMin
  {
  }

  /** The rectangle of pdf.py, edited in place. */
  class Rect {
    var xMin: real
    var yMin: real
    var xMax: real
    var yMax: real

    function Corners(): Box
      reads this
    {
      Box(xMin, yMin, xMax, yMax)
    }

    function DX(): real
      reads this
    {
      xMax - xMin
    }

    function DY(): real
      reads this
    {
      yMax - yMin
    }

    constructor(x: real, y: real, dX: real, dY: real)
      ensures Corners() == MakeBox(x, y, dX, dY)
      ensures DX() == dX && DY() == dY
    {
      xMin, yMin := x, y;
      xMax, yMax := x + dX, y + dY;
    }

    /** The `xMin`, `yMin`, `xMax` and `yMax` setters change one coordinate. */
    method SetXMin(v: real)
      modifies this
      ensures Corners() == old(Corners()).(xMin := v)
    {
      xMin := v;
    }

    method SetYMin(v: real)
      modifies this
      ensures Corners() == old(Corners()).(yMin := v)
    {
      yMin := v;
    }

    method SetXMax(v: real)
      modifies this
      ensures Corners() == old(Corners()).(xMax := v)
    {
      xMax := v;
    }

    method SetYMax(v: real)
      modifies this
      ensures Corners() == old(Corners()).(yMax := v)
    {
      yMax := v;
    }

    method Shift(dX: real, dY: real)
      modifies this
      ensures Corners() == Shifted(old(Corners()), dX, dY)
      ensures DX() == old(DX()) && DY() == old(DY())
    {
      xMin, yMin := xMin + dX, yMin + dY;
      xMax, yMax := xMax + dX, yMax + dY;
    }

    /** The `x` setter: a translation to the new `x`. */
    method SetX(x: real)
      modifies this
      ensures Corners() == WithX(old(Corners()), x)
      ensures xMin == x && DX() == old(DX()) && DY() == old(DY())
    {
      Shift(x - xMin, 0.0);
    }

    method SetY(y: real)
      modifies this
      ensures Corners() == WithY(old(Corners()), y)
      ensures yMin == y && DX() == old(DX()) && DY() == old(DY())
    {
      Shift(0.0, y - yMin);
    }

    /** The `dX` setter keeps `posMin` and moves `posMax`. */
    method SetDX(dX: real)
      modifies this
      ensures Corners() == WithWidth(old(Corners()), dX)
      ensures DX() == dX && xMin == old(xMin) && yMin == old(yMin)
    {
      xMax := xMin + dX;
    }

    method SetDY(dY: real)
      modifies this
      ensures Corners() == WithHeight(old(Corners()), dY)
      ensures DY() == dY && xMin == old(xMin) && yMin == old(yMin)
    {
      yMax := yMin + dY;
    }

    method Set(x: Option<real>, y: Option<real>, dX: Option<real>, dY: Option<real>)
      modifies this
      ensures Corners() == SetBox(old(Corners()), x, y, dX, dY)
    {
      if x.Some? { SetX(x.value); }
      if y.Some? { SetY(y.value); }
      if dX.Some? { SetDX(dX.value); }
      if dY.Some? { SetDY(dY.value); }
    }

    /** `Copy`: a new rectangle with the overrides applied; this one is untouched. */
    method Copy(x: Option<real>, y: Option<real>, dX: Option<real>, dY: Option<real>) returns (r: Rect)
      ensures fresh(r)
      ensures r.Corners() == SetBox(Corners(), x, y, dX, dY)
      ensures unchanged(this)
    {
      r := new Rect(xMin, yMin, xMax - xMin, yMax - yMin);
      r.Set(x, y, dX, dY);
    }

    method Inset(d: real)
      modifies this
      ensures Corners() == InsetBy(old(Corners()), d)
    {
      xMin, yMin := xMin + d, yMin + d;
      xMax, yMax := xMax - d, yMax - d;
    }

    method Outset(d: real)
      modifies this
      ensures Corners() == OutsetBy(old(Corners()), d)
    {
      Inset(-d);
    }

    method Stretch(left: real, top: real, right: real, bottom: real)
      modifies this
      ensures Corners() == Stretched(old(Corners()), left, top, right, bottom)
    {
      xMin, yMin := xMin + left, yMin + top;
      xMax, yMax := xMax + right, yMax + bottom;
    }
  }
}
