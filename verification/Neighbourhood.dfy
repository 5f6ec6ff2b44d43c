/**
 * The ignition pressure on a cell: the strongest fire among its in-grid Moore
 * neighbours, diagonal neighbours attenuated by 1/sqrt(2). Grids are flat
 * row-major sequences of w * h cells with hard edges.
 */
module Neighbourhood {
  import opened Cells

  /**
   * The attenuation of a diagonal neighbour: 1 divided by the double-precision
   * square root of two, which rounds to this double.
   */
  const InvSqrt2: real := 0.7071067811865475

  datatype Offset = Offset(dx: int, dy: int)

  /**
   * The eight neighbours in the order the scan combines them: west, east,
   * north, north-west, north-east, south, south-west, south-east.
   */
  const Moore: seq<Offset> := [
    Offset(-1, 0), Offset(1, 0),
    Offset(0, -1), Offset(-1, -1), Offset(1, -1),
    Offset(0, 1), Offset(-1, 1), Offset(1, 1)
  ]

  predicate IsDiagonal(o: Offset) {
    o.dx != 0 && o.dy != 0
  }

  function Weight(o: Offset): real {
    if IsDiagonal(o) then InvSqrt2 else 1.0
  }

  predicate InGrid(w: nat, h: nat, x: int, y: int) {
    0 <= x < w && 0 <= y < h
  }

  /** Row-major position of an in-grid coordinate. */
  lemma FlatIndex(w: nat, h: nat, x: nat, y: nat)
    requires x < w && y < h
    ensures 0 <= y * w + x < w * h
  {
    assert y * w + x < y * w + w == (y + 1) * w;
    assert (y + 1) * w <= h * w;
  }

  /** The cell at (x, y). */
  function At(g: seq<Cell>, w: nat, h: nat, x: int, y: int): Cell
    requires |g| == w * h && InGrid(w, h, x, y)
  {
    FlatIndex(w, h, x, y);
    g[y * w + x]
  }

  /** The weighted intensity a neighbour at offset o adds, 0.0 when it is off the grid. */
  function Contribution(g: seq<Cell>, w: nat, h: nat, x: nat, y: nat, o: Offset): (r: real)
    requires |g| == w * h
    ensures 0.0 <= r <= 1.0
    ensures r > 0.0 ==> InGrid(w, h, x + o.dx, y + o.dy)
  {
    if InGrid(w, h, x + o.dx, y + o.dy) then
      var c := At(g, w, h, x + o.dx, y + o.dy);
      ProbabilityProduct(Intensity(c), Weight(o));
      Intensity(c) * Weight(o)
    else 0.0
  }

  function Contributions(g: seq<Cell>, w: nat, h: nat, x: nat, y: nat): (cs: seq<real>)
    requires |g| == w * h
    ensures |cs| == |Moore|
  {
    seq(|Moore|, k requires 0 <= k < |Moore| => Contribution(g, w, h, x, y, Moore[k]))
  }

  function Max(a: real, b: real): real {
    if a < b then b else a
  }

  /** The maximum of 0.0 and the first k elements of s, taken left to right. */
  function RunningMax(s: seq<real>, k: nat): real
    requires k <= |s|
    decreases k
  {
    if k == 0 then 0.0 else Max(RunningMax(s, k - 1), s[k - 1])
  }

  /** The running maximum bounds every element it has taken and is one of them unless it is 0.0. */
  lemma {:induction false} RunningMaxIsMax(s: seq<real>, k: nat)
    requires k <= |s|
    ensures 0.0 <= RunningMax(s, k)
    ensures forall j :: 0 <= j < k ==> s[j] <= RunningMax(s, k)
    ensures RunningMax(s, k) == 0.0 || exists j :: 0 <= j < k && s[j] == RunningMax(s, k)
    decreases k
  {
    if k > 0 {
      RunningMaxIsMax(s, k - 1);
    }
  }

  /** The largest element of s, and 0.0 when there is none larger. */
  function MaxOf(s: seq<real>): (m: real)
    ensures 0.0 <= m
    ensures forall k :: 0 <= k < |s| ==> s[k] <= m
    ensures m == 0.0 || exists k :: 0 <= k < |s| && s[k] == m
  {
    RunningMaxIsMax(s, |s|);
    RunningMax(s, |s|)
  }

  /**
   * The ignition pressure on the cell at (x, y): no neighbour outweighs it,
   * and it is 0.0 or the contribution of some neighbour.
   */
  function Pressure(g: seq<Cell>, w: nat, h: nat, x: nat, y: nat): (p: real)
    requires |g| == w * h
    ensures 0.0 <= p <= 1.0
  {
    var cs := Contributions(g, w, h, x, y);
    PressureIsMax(g, w, h, x, y);
    MaxOf(cs)
  }

  /**
   * The pressure is the largest weighted intensity of an in-grid neighbour:
   * no neighbour outweighs it, and it is 0.0 or the contribution of some
   * in-grid neighbour. Its bound [0, 1] follows.
   */
  lemma PressureIsMax(g: seq<Cell>, w: nat, h: nat, x: nat, y: nat)
    requires |g| == w * h
    ensures var p := MaxOf(Contributions(g, w, h, x, y));
      0.0 <= p <= 1.0 &&
      (forall k :: 0 <= k < |Moore| ==> Contribution(g, w, h, x, y, Moore[k]) <= p) &&
      (p == 0.0 || exists k :: 0 <= k < |Moore| && InGrid(w, h, x + Moore[k].dx, y + Moore[k].dy)
                                 && Contribution(g, w, h, x, y, Moore[k]) == p)
  {
    var cs := Contributions(g, w, h, x, y);
    assert forall k :: 0 <= k < |Moore| ==> cs[k] == Contribution(g, w, h, x, y, Moore[k]);
  }

  /**
   * When only one neighbour burns, the pressure is that neighbour's
   * intensity, attenuated when it is diagonal.
   */
  lemma LoneSource(g: seq<Cell>, w: nat, h: nat, x: nat, y: nat, k: nat)
    requires |g| == w * h && k < |Moore|
    requires forall j :: 0 <= j < |Moore| && j != k ==> Contribution(g, w, h, x, y, Moore[j]) == 0.0
    ensures Pressure(g, w, h, x, y) == Contribution(g, w, h, x, y, Moore[k])
  {
    PressureIsMax(g, w, h, x, y);
  }

  /** A tree with an Ignite cell directly beside, above or below it feels full pressure. */
  lemma OrthogonalIgnite(g: seq<Cell>, w: nat, h: nat, x: nat, y: nat, k: nat)
    requires |g| == w * h && k < |Moore| && !IsDiagonal(Moore[k])
    requires InGrid(w, h, x + Moore[k].dx, y + Moore[k].dy)
    requires At(g, w, h, x + Moore[k].dx, y + Moore[k].dy) == Ignite
    ensures Pressure(g, w, h, x, y) == 1.0
  {
    PressureIsMax(g, w, h, x, y);
    assert Weight(Moore[k]) == 1.0;
    assert Contribution(g, w, h, x, y, Moore[k]) == 1.0;
  }

  /** A tree with no burning cell anywhere in the grid feels no pressure. */
  lemma NoFireNoPressure(g: seq<Cell>, w: nat, h: nat, x: nat, y: nat)
    requires |g| == w * h
    requires forall i :: 0 <= i < |g| ==> !g[i].IsBurning()
    ensures Pressure(g, w, h, x, y) == 0.0
  {
    PressureIsMax(g, w, h, x, y);
    forall k | 0 <= k < |Moore| && InGrid(w, h, x + Moore[k].dx, y + Moore[k].dy)
      ensures Contribution(g, w, h, x, y, Moore[k]) == 0.0
    {
      var o := Moore[k];
      FlatIndex(w, h, x + o.dx, y + o.dy);
      assert !At(g, w, h, x + o.dx, y + o.dy).IsBurning();
    }
  }
}
