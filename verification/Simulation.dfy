/**
 * The simulation object: two 500 x 500 pixel buffers, the tunable
 * probabilities, the generator and the frame counter that throttles the
 * generations.
 */
module Simulation {
  import opened Cells
  import opened Neighbourhood
  import opened Generation

  const SizeX: nat := 500
  const SizeY: nat := 500

  /** The speed slider runs from 1 to this many frames per generation. */
  const MaxSpeed: u8 := 10

  newtype u8 = x: int | 0 <= x < 256

  datatype Tick = Tick(counter: u8, stepped: bool)

  /**
   * One frame of the throttle: count the frame, and when the count reaches
   * the speed, reset it and run a generation. Whatever the count was, it ends
   * below the speed.
   */
  function Throttle(counter: u8, speed: u8): (t: Tick)
    requires counter < 255
    ensures t.stepped <==> counter as int + 1 >= speed as int
    ensures 1 <= speed ==> t.counter < speed
    ensures t.stepped ==> t.counter == 0
    ensures !t.stepped ==> t.counter == counter + 1
  {
    var next := counter + 1;
    if next >= speed then Tick(0, true) else Tick(next, false)
  }

  datatype Tally = Tally(counter: u8, steps: nat)

  /** The counter after n frames and the number of generations they ran. */
  function Frames(n: nat, counter: u8, speed: u8): Tally
    requires 1 <= speed && counter < speed
    decreases n
  {
    if n == 0 then Tally(counter, 0)
    else
      var t := Throttle(counter, speed);
      var rest := Frames(n - 1, t.counter, speed);
      Tally(rest.counter, rest.steps + if t.stepped then 1 else 0)
  }

  /**
   * With a fixed speed s, n frames starting from count c run (c + n) / s
   * generations and leave the count at (c + n) % s: one generation every s
   * frames.
   */
  lemma {:induction false} OneGenerationEverySpeedFrames(n: nat, counter: u8, speed: u8)
    requires 1 <= speed && counter < speed
    ensures var f := Frames(n, counter, speed);
      f.counter < speed && f.steps * speed as int + f.counter as int == counter as int + n
    decreases n
  {
    if n > 0 {
      var t := Throttle(counter, speed);
      OneGenerationEverySpeedFrames(n - 1, t.counter, speed);
      var rest := Frames(n - 1, t.counter, speed);
      if t.stepped {
        assert (rest.steps + 1) * speed as int == rest.steps * speed as int + speed as int;
      }
    }
  }

  /** The flat-index distance of one row up (dy = -1), the same row (0) or one row down (1). */
  function Shift(dy: int): int {
    if dy < 0 then -(SizeX as int) else if dy > 0 then SizeX as int else 0
  }

  /** Where the neighbour at offset (dx, dy) sits in the scan's order of neighbours. */
  function Position(dx: int, dy: int): nat {
    (if dy < 0 then 2 else if dy > 0 then 5 else 0)
    + (if dy == 0 then (if dx < 0 then 0 else 1) else if dx == 0 then 0 else if dx < 0 then 1 else 2)
  }

  lemma MooreAt(dx: int, dy: int)
    requires -1 <= dx <= 1 && -1 <= dy <= 1 && (dx != 0 || dy != 0)
    ensures Position(dx, dy) < |Moore| && Moore[Position(dx, dy)] == Offset(dx, dy)
  {
  }

  /** An in-grid neighbour's flat index is the centre's index shifted by rows and columns. */
  lemma Bounds(x: nat, y: nat, dx: int, dy: int, i: int)
    requires x < SizeX && y < SizeY && -1 <= dy <= 1
    requires i == y * SizeX + x + Shift(dy) + dx
    ensures InGrid(SizeX, SizeY, x + dx, y + dy) ==>
      0 <= i < SizeX * SizeY && i == (y + dy) * SizeX + (x + dx)
  {
    if InGrid(SizeX, SizeY, x + dx, y + dy) {
      assert (y + dy) * SizeX == y * SizeX + Shift(dy);
      FlatIndex(SizeX, SizeY, x + dx, y + dy);
    }
  }

  /** The contribution of the neighbour at offset (dx, dy), read at flat index i. */
  lemma NeighbourContribution(g: seq<Cell>, x: nat, y: nat, dx: int, dy: int, i: int)
    requires |g| == SizeX * SizeY && x < SizeX && y < SizeY
    requires -1 <= dx <= 1 && -1 <= dy <= 1 && (dx != 0 || dy != 0)
    requires i == y * SizeX + x + Shift(dy) + dx
    ensures var c := Contributions(g, SizeX, SizeY, x, y)[Position(dx, dy)];
      (InGrid(SizeX, SizeY, x + dx, y + dy) ==> 0 <= i < |g| && c == Intensity(g[i]) * Weight(Offset(dx, dy))) &&
      (!InGrid(SizeX, SizeY, x + dx, y + dy) ==> c == 0.0)
  {
    MooreAt(dx, dy);
    var c := Contributions(g, SizeX, SizeY, x, y)[Position(dx, dy)];
    assert c == Contribution(g, SizeX, SizeY, x, y, Offset(dx, dy));
    if InGrid(SizeX, SizeY, x + dx, y + dy) {
      Bounds(x, y, dx, dy, i);
      assert At(g, SizeX, SizeY, x + dx, y + dy) == g[i];
    }
  }

  /**
   * One neighbour combined into the running maximum: reading it when it is in
   * the grid and skipping it when it is not takes the maximum one neighbour
   * further.
   */
  lemma CombineNeighbour(g: seq<Cell>, x: nat, y: nat, dx: int, dy: int, i: int, before: real, after: real)
    requires |g| == SizeX * SizeY && x < SizeX && y < SizeY
    requires -1 <= dx <= 1 && -1 <= dy <= 1 && (dx != 0 || dy != 0)
    requires i == y * SizeX + x + Shift(dy) + dx
    requires Position(dx, dy) < |Moore|
    requires before == RunningMax(Contributions(g, SizeX, SizeY, x, y), Position(dx, dy))
    requires InGrid(SizeX, SizeY, x + dx, y + dy) ==>
      0 <= i < |g| && after == Max(before, Intensity(g[i]) * Weight(Offset(dx, dy)))
    requires !InGrid(SizeX, SizeY, x + dx, y + dy) ==> after == before
    ensures after == RunningMax(Contributions(g, SizeX, SizeY, x, y), Position(dx, dy) + 1)
  {
    var cs := Contributions(g, SizeX, SizeY, x, y);
    var k := Position(dx, dy);
    assert 0.0 <= before by {
      RunningMaxIsMax(cs, k);
    }
    NeighbourContribution(g, x, y, dx, dy, i);
    assert RunningMax(cs, k + 1) == Max(before, cs[k]);
  }

  /** A row off the grid adds nothing to the running maximum. */
  lemma NoRow(g: seq<Cell>, x: nat, y: nat, dy: int, v: real)
    requires |g| == SizeX * SizeY && x < SizeX && y < SizeY && (dy == -1 || dy == 1) && !(0 <= y + dy < SizeY)
    requires v == RunningMax(Contributions(g, SizeX, SizeY, x, y), Position(0, dy))
    ensures v == RunningMax(Contributions(g, SizeX, SizeY, x, y), Position(0, dy) + 3)
  {
    var center := y * SizeX + x;
    CombineNeighbour(g, x, y, 0, dy, center + Shift(dy), v, v);
    CombineNeighbour(g, x, y, -1, dy, center + Shift(dy) - 1, v, v);
    CombineNeighbour(g, x, y, 1, dy, center + Shift(dy) + 1, v, v);
  }

  /** Row-major coordinates recovered from a flat index. */
  lemma Coordinates500(x: nat, y: nat)
    requires x < SizeX
    ensures (y * SizeX + x) % SizeX == x && (y * SizeX + x) / SizeX == y
  {
  }

  /** The cell at (x, y) is visited with the rule applied to its pressure when it is a tree. */
  lemma VisitAt(g: seq<Cell>, prm: Params, x: nat, y: nat, rng: Rng)
    requires |g| == SizeX * SizeY && prm.Valid() && x < SizeX && y < SizeY
    ensures var i := y * SizeX + x;
      i < |g| &&
      Visit(g, SizeX, SizeY, prm, i, rng) ==
        Transition(g[i], if g[i].IsTree() then Pressure(g, SizeX, SizeY, x, y) else 0.0, prm, rng)
  {
    FlatIndex(SizeX, SizeY, x, y);
    Coordinates500(x, y);
  }

  /** The flat index after (x, y): the next column, or the first column of the next row. */
  lemma NextCell(x: nat, y: nat)
    requires x < SizeX && y < SizeY
    ensures y * SizeX + x < SizeX * SizeY
    ensures x + 1 == SizeX ==> (y + 1) * SizeX == y * SizeX + x + 1
    ensures x + 1 == SizeX && y + 1 == SizeY ==> y * SizeX + x + 1 == SizeX * SizeY
  {
    FlatIndex(SizeX, SizeY, x, y);
  }

  /**
   * The scratch buffer and the generator after the scan has visited cells
   * 1 .. n-1: those cells hold their new states, the rest their old ones.
   */
  ghost predicate Scanned(g: seq<Cell>, prm: Params, rng0: Rng, n: nat, buf: seq<Cell>, rng: Rng)
    requires |g| == SizeX * SizeY && prm.Valid()
  {
    1 <= n <= |g| == |buf| &&
    buf[..n] == [g[0]] + Scan(g, SizeX, SizeY, prm, rng0, n).grid &&
    buf[n..] == g[n..] &&
    rng == Scan(g, SizeX, SizeY, prm, rng0, n).rng
  }

  /** Visiting cell k, with the generator as cells 1 .. k-1 left it, extends the scan by one cell. */
  lemma ScanExtends(g: seq<Cell>, prm: Params, rng0: Rng, k: nat, buf: seq<Cell>, rng: Rng)
    requires |g| == SizeX * SizeY && prm.Valid() && 1 <= k < |g|
    requires Scanned(g, prm, rng0, k, buf, rng)
    ensures var n := Visit(g, SizeX, SizeY, prm, k, rng);
      Scanned(g, prm, rng0, k + 1, buf[k := n.cell], n.rng)
  {
    var n := Visit(g, SizeX, SizeY, prm, k, rng);
    var after := buf[k := n.cell];
    assert after[..k + 1] == buf[..k] + [n.cell];
    assert after[k + 1..] == buf[k + 1..];
  }

  /** A scan that has visited every cell has computed the generation. */
  lemma ScanComplete(g: seq<Cell>, prm: Params, rng0: Rng, buf: seq<Cell>, rng: Rng)
    requires |g| == SizeX * SizeY && prm.Valid()
    requires Scanned(g, prm, rng0, |g|, buf, rng)
    ensures var o := NextGrid(g, SizeX, SizeY, prm, rng0);
      buf == o.grid && rng == o.rng
  {
    assert buf == buf[..|g|];
  }

  class App {
    var speed: u8
    var counter: u8
    var growChance: real
    var strikeChance: real
    var spreadChance: real
    var pixels: array<Cell>
    var scratch: array<Cell>
    var rng: Rng

    predicate Valid()
      reads this
    {
      pixels.Length == SizeX * SizeY && scratch.Length == SizeX * SizeY && pixels != scratch
      && 1 <= speed <= MaxSpeed && counter < MaxSpeed
      && Params().InSliderRanges()
    }

    function Params(): Params
      reads this
    {
      Cells.Params(growChance, strikeChance, spreadChance)
    }

    /** All pixels empty, one generation per frame, the generator given by its sample stream. */
    constructor (seed: nat -> Unit)
      ensures Valid() && fresh(pixels) && fresh(scratch)
      ensures forall i :: 0 <= i < pixels.Length ==> pixels[i] == Empty
      ensures scratch[..] == pixels[..]
      ensures speed == 1 && counter == 0
      ensures growChance == 0.0001 && strikeChance == 0.0000005 && spreadChance == 0.75
      ensures rng == Rng(seed, 0)
    {
      speed, counter := 1, 0;
      growChance, strikeChance, spreadChance := 0.0001, 0.0000005, 0.75;
      pixels := new Cell[SizeX * SizeY](_ => Empty);
      scratch := new Cell[SizeX * SizeY](_ => Empty);
      rng := Rng(seed, 0);
    }

    /** Empties every pixel of the displayed grid. */
    method Clear()
      requires Valid()
      modifies pixels
      ensures Valid()
      ensures forall i :: 0 <= i < pixels.Length ==> pixels[i] == Empty
    {
      var i := 0;
      while i < pixels.Length
        invariant 0 <= i <= pixels.Length
        invariant forall j :: 0 <= j < i ==> pixels[j] == Empty
      {
        pixels[i] := Empty;
        i := i + 1;
      }
    }

    /**
     * The strongest fire around (x, y), combined neighbour by neighbour with
     * the edge guards of the scan; every index it reads is in the grid.
     */
    method NeighbourPressure(x: nat, y: nat) returns (chance: real)
      requires Valid() && x < SizeX && y < SizeY
      ensures chance == Pressure(pixels[..], SizeX, SizeY, x, y)
    {
      ghost var g := pixels[..];
      ghost var before: real;
      var center := y * SizeX + x;
      chance := 0.0;

      before := chance;
      Bounds(x, y, -1, 0, center - 1);
      if x > 0 {
        chance := Max(chance, Intensity(pixels[center - 1]));
      }
      CombineNeighbour(g, x, y, -1, 0, center - 1, before, chance);

      before := chance;
      Bounds(x, y, 1, 0, center + 1);
      if x + 1 < SizeX {
        chance := Max(chance, Intensity(pixels[center + 1]));
      }
      CombineNeighbour(g, x, y, 1, 0, center + 1, before, chance);

      if y > 0 {
        chance := RowPressure(x, y, -1, chance);
      } else {
        NoRow(g, x, y, -1, chance);
      }
      if y + 1 < SizeY {
        chance := RowPressure(x, y, 1, chance);
      } else {
        NoRow(g, x, y, 1, chance);
      }
    }

    /**
     * Combines the row above (dy = -1) or below (dy = 1) into the running
     * maximum: the neighbour straight across, then its west and east
     * diagonal neighbours.
     */
    method RowPressure(x: nat, y: nat, dy: int, start: real) returns (chance: real)
      requires Valid() && x < SizeX && y < SizeY && (dy == -1 || dy == 1) && 0 <= y + dy < SizeY
      requires start == RunningMax(Contributions(pixels[..], SizeX, SizeY, x, y), Position(0, dy))
      ensures chance == RunningMax(Contributions(pixels[..], SizeX, SizeY, x, y), Position(0, dy) + 3)
    {
      ghost var g := pixels[..];
      ghost var before: real;
      var center := y * SizeX + x;
      var row := center + Shift(dy);
      chance := start;

      before := chance;
      Bounds(x, y, 0, dy, row);
      chance := Max(chance, Intensity(pixels[row]));
      CombineNeighbour(g, x, y, 0, dy, row, before, chance);

      before := chance;
      assert Position(-1, dy) == Position(0, dy) + 1;
      Bounds(x, y, -1, dy, row - 1);
      if x > 0 {
        chance := Max(chance, Intensity(pixels[row - 1]) * InvSqrt2);
      }
      CombineNeighbour(g, x, y, -1, dy, row - 1, before, chance);

      before := chance;
      assert Position(1, dy) == Position(0, dy) + 2;
      Bounds(x, y, 1, dy, row + 1);
      if x + 1 < SizeX {
        chance := Max(chance, Intensity(pixels[row + 1]) * InvSqrt2);
      }
      CombineNeighbour(g, x, y, 1, dy, row + 1, before, chance);
    }

    /**
     * One generation: copy the grid into the scratch buffer, visit every
     * cell but (0, 0) in row-major order (the column is advanced before the
     * first visit), writing each new state into the scratch buffer from the
     * old grid's states, then swap the two buffers.
     */
    method Step()
      requires Valid()
      modifies this, scratch
      ensures Valid()
      ensures pixels == old(scratch) && scratch == old(pixels)
      ensures scratch[..] == old(pixels[..])
      ensures var o := NextGrid(old(pixels[..]), SizeX, SizeY, old(Params()), old(rng));
        pixels[..] == o.grid && rng == o.rng
      ensures speed == old(speed) && counter == old(counter) && Params() == old(Params())
    {
      forall i | 0 <= i < scratch.Length {
        scratch[i] := pixels[i];
      }
      ghost var g := pixels[..];
      ghost var prm := Params();
      ghost var rng0 := rng;
      assert scratch[..1] == [g[0]];

      var x, y := 0, 0;
      ghost var k: nat := 0;
      while true
        invariant Valid() && Params() == prm
        invariant x < SizeX && y < SizeY && k == y * SizeX + x
        invariant pixels[..] == g
        invariant Scanned(g, prm, rng0, k + 1, scratch[..], rng)
        modifies this`rng, scratch
        decreases SizeX * SizeY - k
      {
        NextCell(x, y);
        x := x + 1;
        var more: bool;
        if x >= SizeX {
          x := 0;
          y := y + 1;
          more := y < SizeY;
        } else {
          more := true;
        }
        if !more {
          break;
        }
        k := k + 1;
        ghost var before := scratch[..];
        ghost var r := rng;
        UpdateCell(x, y);
        ScanExtends(g, prm, rng0, k, before, r);
      }
      ScanComplete(g, prm, rng0, scratch[..], rng);
      pixels, scratch := scratch, pixels;
    }

    /**
     * The visit of the cell at (x, y): its new state, from the rule applied
     * to the old grid, goes into the scratch buffer at its flat index, and
     * the generator advances by the draws the rule consumed.
     */
    method UpdateCell(x: nat, y: nat)
      requires Valid() && x < SizeX && y < SizeY
      modifies this`rng, scratch
      ensures y * SizeX + x < SizeX * SizeY
      ensures var n := Visit(pixels[..], SizeX, SizeY, Params(), y * SizeX + x, old(rng));
        scratch[..] == old(scratch[..])[y * SizeX + x := n.cell] && rng == n.rng
    {
      FlatIndex(SizeX, SizeY, x, y);
      VisitAt(pixels[..], Params(), x, y, rng);
      var center := y * SizeX + x;
      var pixel := pixels[center];
      var chance := 0.0;
      if pixel.IsTree() {
        chance := NeighbourPressure(x, y);
      }
      var next := Transition(pixel, chance, Params(), rng);
      scratch[center] := next.cell;
      rng := next.rng;
    }

    /**
     * One frame: count it, and when the count reaches the speed, reset the
     * count and run one generation; the count is below the speed afterwards.
     */
    method Update()
      requires Valid()
      modifies this, scratch
      ensures Valid() && counter < speed
      ensures var t := Throttle(old(counter), old(speed));
        counter == t.counter &&
        (t.stepped ==>
           var o := NextGrid(old(pixels[..]), SizeX, SizeY, old(Params()), old(rng));
           pixels[..] == o.grid && rng == o.rng) &&
        (!t.stepped ==> pixels == old(pixels) && pixels[..] == old(pixels[..]) && rng == old(rng))
      ensures var t := Throttle(old(counter), old(speed));
        (t.stepped ==> scratch == old(pixels) && scratch[..] == old(pixels[..])) &&
        (!t.stepped ==> scratch == old(scratch) && scratch[..] == old(scratch[..]))
      ensures speed == old(speed) && Params() == old(Params())
    {
      counter := counter + 1;
      if counter >= speed {
        counter := 0;
        Step();
      }
    }
  }
}
