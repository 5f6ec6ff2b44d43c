/**
 * One generation of the automaton over a whole grid, as a function of the
 * old grid and the generator: the scan visits the flat indices 1 .. w*h-1 in
 * increasing row-major order, every cell reads only the old grid, and the
 * draws are threaded from one visited cell to the next. Index 0, the cell at
 * (0, 0), is never visited and keeps its old state.
 */
module Generation {
  import opened Cells
  import opened Neighbourhood

  predicate WellFormed(g: seq<Cell>, w: nat, h: nat) {
    w >= 1 && h >= 1 && |g| == w * h
  }

  /** The coordinates of a flat index. */
  lemma Coordinates(w: nat, h: nat, i: nat)
    requires w >= 1 && i < w * h
    ensures i % w < w && i / w < h && (i / w) * w + i % w == i
  {
  }

  /** The new state of the cell at flat index i; the pressure is computed only for trees. */
  function Visit(g: seq<Cell>, w: nat, h: nat, prm: Params, i: nat, rng: Rng): Next
    requires WellFormed(g, w, h) && prm.Valid() && i < |g|
  {
    Coordinates(w, h, i);
    var c := g[i];
    var pressure := if c.IsTree() then Pressure(g, w, h, i % w, i / w) else 0.0;
    Transition(c, pressure, prm, rng)
  }

  datatype Outcome = Outcome(grid: seq<Cell>, rng: Rng)

  /**
   * The new states of cells 1 .. n-1, visited in increasing order, and the
   * generator after their draws.
   */
  function Scan(g: seq<Cell>, w: nat, h: nat, prm: Params, rng: Rng, n: nat): (r: Outcome)
    requires WellFormed(g, w, h) && prm.Valid() && 1 <= n <= |g|
    ensures |r.grid| == n - 1
    ensures r.rng.stream == rng.stream && rng.pos <= r.rng.pos
    decreases n
  {
    if n == 1 then Outcome([], rng)
    else
      var before := Scan(g, w, h, prm, rng, n - 1);
      var v := Visit(g, w, h, prm, n - 1, before.rng);
      Outcome(before.grid + [v.cell], v.rng)
  }

  /** One generation: cell 0 copied, every other cell visited by the scan. */
  function NextGrid(g: seq<Cell>, w: nat, h: nat, prm: Params, rng: Rng): (r: Outcome)
    requires WellFormed(g, w, h) && prm.Valid()
    ensures |r.grid| == |g|
    ensures r.grid[0] == g[0]
    ensures r.rng.stream == rng.stream && rng.pos <= r.rng.pos
  {
    var s := Scan(g, w, h, prm, rng, |g|);
    Outcome([g[0]] + s.grid, s.rng)
  }

  /** n generations, the generator carried from each into the next. */
  function Run(g: seq<Cell>, w: nat, h: nat, prm: Params, rng: Rng, n: nat): (r: Outcome)
    requires WellFormed(g, w, h) && prm.Valid()
    ensures |r.grid| == |g|
    decreases n
  {
    if n == 0 then Outcome(g, rng)
    else
      var o := NextGrid(g, w, h, prm, rng);
      Run(o.grid, w, h, prm, o.rng, n - 1)
  }

  /** The scan's result for cell i is the rule applied with the generator as cells 1 .. i-1 left it. */
  lemma {:induction false} ScanAt(g: seq<Cell>, w: nat, h: nat, prm: Params, rng: Rng, n: nat, i: nat)
    requires WellFormed(g, w, h) && prm.Valid() && 1 <= i < n <= |g|
    ensures Scan(g, w, h, prm, rng, n).grid[i - 1] == Visit(g, w, h, prm, i, Scan(g, w, h, prm, rng, i).rng).cell
    decreases n
  {
    var before := Scan(g, w, h, prm, rng, n - 1);
    var v := Visit(g, w, h, prm, n - 1, before.rng);
    assert Scan(g, w, h, prm, rng, n).grid == before.grid + [v.cell];
    if i < n - 1 {
      ScanAt(g, w, h, prm, rng, n - 1, i);
      assert Scan(g, w, h, prm, rng, n).grid[i - 1] == before.grid[i - 1];
      assert Scan(g, w, h, prm, rng, n).grid[i - 1] == Visit(g, w, h, prm, i, Scan(g, w, h, prm, rng, i).rng).cell;
    } else {
      assert i == n - 1;
      assert Scan(g, w, h, prm, rng, n).grid[i - 1] == v.cell;
      assert Scan(g, w, h, prm, rng, i) == before;
      assert Scan(g, w, h, prm, rng, n).grid[i - 1] == Visit(g, w, h, prm, i, Scan(g, w, h, prm, rng, i).rng).cell;
    }
  }

  /**
   * Every cell but the first takes the state the rule gives it from the old
   * grid, so it moves only along an edge of the state graph.
   */
  lemma VisitedCell(g: seq<Cell>, w: nat, h: nat, prm: Params, rng: Rng, i: nat)
    requires WellFormed(g, w, h) && prm.Valid() && 1 <= i < |g|
    ensures NextGrid(g, w, h, prm, rng).grid[i] == Visit(g, w, h, prm, i, Scan(g, w, h, prm, rng, i).rng).cell
    ensures CanFollow(g[i], NextGrid(g, w, h, prm, rng).grid[i])
  {
    var s := Scan(g, w, h, prm, rng, |g|);
    assert NextGrid(g, w, h, prm, rng).grid[i] == s.grid[i - 1];
    ScanAt(g, w, h, prm, rng, |g|, i);
  }

  /** A visited burning cell moves one link down the flame chain, whatever the draws. */
  lemma BurningAdvances(g: seq<Cell>, w: nat, h: nat, prm: Params, rng: Rng, i: nat)
    requires WellFormed(g, w, h) && prm.Valid() && 1 <= i < |g| && g[i].IsBurning()
    ensures NextGrid(g, w, h, prm, rng).grid[i] == Burn(g[i])
  {
    VisitedCell(g, w, h, prm, rng, i);
  }

  /** Without growth an empty cell stays empty. */
  lemma EmptyStays(g: seq<Cell>, w: nat, h: nat, prm: Params, rng: Rng, i: nat)
    requires WellFormed(g, w, h) && prm.Valid() && prm.grow == 0.0 && i < |g| && g[i] == Empty
    ensures NextGrid(g, w, h, prm, rng).grid[i] == Empty
  {
    if i > 0 {
      VisitedCell(g, w, h, prm, rng, i);
    }
  }

  /** The cell at (0, 0) never changes, however many generations run. */
  lemma {:induction false} OriginFrozen(g: seq<Cell>, w: nat, h: nat, prm: Params, rng: Rng, n: nat)
    requires WellFormed(g, w, h) && prm.Valid()
    ensures Run(g, w, h, prm, rng, n).grid[0] == g[0]
    decreases n
  {
    if n > 0 {
      var o := NextGrid(g, w, h, prm, rng);
      OriginFrozen(o.grid, w, h, prm, o.rng, n - 1);
    }
  }

  /** Without growth an empty cell stays empty for any number of generations. */
  lemma {:induction false} EmptyStaysEmpty(g: seq<Cell>, w: nat, h: nat, prm: Params, rng: Rng, n: nat, i: nat)
    requires WellFormed(g, w, h) && prm.Valid() && prm.grow == 0.0 && i < |g| && g[i] == Empty
    ensures Run(g, w, h, prm, rng, n).grid[i] == Empty
    decreases n
  {
    if n > 0 {
      var o := NextGrid(g, w, h, prm, rng);
      EmptyStays(g, w, h, prm, rng, i);
      EmptyStaysEmpty(o.grid, w, h, prm, o.rng, n - 1, i);
    }
  }

  /** A visited cell on the flame chain follows it, one link per generation, until it reaches Ash. */
  lemma {:induction false} FollowsChain(g: seq<Cell>, w: nat, h: nat, prm: Params, rng: Rng, n: nat, i: nat)
    requires WellFormed(g, w, h) && prm.Valid() && 1 <= i < |g|
    requires forall k :: 0 <= k < n ==> Burned(g[i], k).IsBurning()
    ensures Run(g, w, h, prm, rng, n).grid[i] == Burned(g[i], n)
    decreases n
  {
    if n > 0 {
      assert Burned(g[i], 0).IsBurning();
      var o := NextGrid(g, w, h, prm, rng);
      assert o.grid[i] == Burn(g[i]) by {
        BurningAdvances(g, w, h, prm, rng, i);
      }
      forall k | 0 <= k < n - 1 ensures Burned(o.grid[i], k).IsBurning() {
        assert Burned(g[i], k + 1).IsBurning();
      }
      FollowsChain(o.grid, w, h, prm, o.rng, n - 1, i);
      assert Run(g, w, h, prm, rng, n) == Run(o.grid, w, h, prm, o.rng, n - 1);
      assert Burned(g[i], n) == Burned(o.grid[i], n - 1);
    }
  }

  /** The flame chain from Ignite: burning for five more steps, Ash at the sixth. */
  lemma IgniteChain()
    ensures forall n :: 0 <= n < 6 ==> Burned(Ignite, n).IsBurning()
    ensures Burned(Ignite, 6) == Ash
  {
    assert Burned(Ignite, 6) == Ash;
  }

  /**
   * A visited Ignite cell burns for exactly six generations: it is on the
   * flame chain after each of the first five and is Ash after the sixth.
   */
  lemma IgniteToAshInSix(g: seq<Cell>, w: nat, h: nat, prm: Params, rng: Rng, i: nat)
    requires WellFormed(g, w, h) && prm.Valid() && 1 <= i < |g| && g[i] == Ignite
    ensures forall n :: 0 <= n < 6 ==> Run(g, w, h, prm, rng, n).grid[i].IsBurning()
    ensures Run(g, w, h, prm, rng, 6).grid[i] == Ash
  {
    IgniteChain();
    forall n | 0 <= n <= 6 ensures Run(g, w, h, prm, rng, n).grid[i] == Burned(Ignite, n) {
      FollowsChain(g, w, h, prm, rng, n, i);
    }
  }

  /**
   * A mature tree with an Ignite cell directly beside, above or below it
   * catches fire when the spread probability is 1.
   */
  lemma CertainIgnition(g: seq<Cell>, w: nat, h: nat, prm: Params, rng: Rng, i: nat, k: nat)
    requires WellFormed(g, w, h) && prm.Valid() && prm.spread == 1.0
    requires 1 <= i < |g| && g[i] == MatureTree
    requires k < |Moore| && !IsDiagonal(Moore[k])
    requires InGrid(w, h, i % w + Moore[k].dx, i / w + Moore[k].dy)
    requires At(g, w, h, i % w + Moore[k].dx, i / w + Moore[k].dy) == Ignite
    ensures NextGrid(g, w, h, prm, rng).grid[i] == Ignite
  {
    Coordinates(w, h, i);
    var before := Scan(g, w, h, prm, rng, i).rng;
    var p := Pressure(g, w, h, i % w, i / w);
    assert p == 1.0 by {
      OrthogonalIgnite(g, w, h, i % w, i / w, k);
    }
    assert Visit(g, w, h, prm, i, before).cell == Ignite by {
      assert Visit(g, w, h, prm, i, before) == Transition(MatureTree, p, prm, before);
    }
    VisitedCell(g, w, h, prm, rng, i);
  }

  /** An empty cell's visit: it sprouts iff its draw succeeds, and uses that draw's samples. */
  lemma EmptyVisit(g: seq<Cell>, w: nat, h: nat, prm: Params, i: nat, rng: Rng)
    requires WellFormed(g, w, h) && prm.Valid() && i < |g| && g[i] == Empty
    ensures var v := Visit(g, w, h, prm, i, rng);
      (v.cell == Sapling <==> Sample(rng, 0) < prm.grow) &&
      (v.cell == Empty <==> !(Sample(rng, 0) < prm.grow)) &&
      v.rng == rng.(pos := rng.pos + Cost(prm.grow))
  {
    assert Visit(g, w, h, prm, i, rng) == Transition(Empty, 0.0, prm, rng);
    GroundDraws(Empty, prm, rng);
  }

  /** Over an all-empty grid the scan uses one sample per visited cell, none when growth is certain. */
  lemma {:induction false} ScanDrawsOnEmpty(g: seq<Cell>, w: nat, h: nat, prm: Params, rng: Rng, n: nat)
    requires WellFormed(g, w, h) && prm.Valid() && 1 <= n <= |g|
    requires forall j :: 0 <= j < |g| ==> g[j] == Empty
    ensures Scan(g, w, h, prm, rng, n).rng == rng.(pos := rng.pos + if prm.grow == 1.0 then 0 else n - 1)
    decreases n
  {
    if n > 1 {
      ScanDrawsOnEmpty(g, w, h, prm, rng, n - 1);
      var before := Scan(g, w, h, prm, rng, n - 1);
      EmptyVisit(g, w, h, prm, n - 1, before.rng);
    }
  }

  /**
   * The first generation from an all-empty grid: every visited cell becomes a
   * sapling exactly when its growth draw succeeds, which is the (i-1)-th
   * sample, and the generation uses one sample per visited cell (none at
   * all when growth is certain).
   */
  lemma FirstGenerationFromEmpty(g: seq<Cell>, w: nat, h: nat, prm: Params, rng: Rng, i: nat)
    requires WellFormed(g, w, h) && prm.Valid() && 1 <= i < |g|
    requires forall j :: 0 <= j < |g| ==> g[j] == Empty
    ensures NextGrid(g, w, h, prm, rng).grid[i] == Sapling <==> Sample(rng, if prm.grow == 1.0 then 0 else i - 1) < prm.grow
    ensures NextGrid(g, w, h, prm, rng).grid[i] == Empty <==> !(Sample(rng, if prm.grow == 1.0 then 0 else i - 1) < prm.grow)
    ensures NextGrid(g, w, h, prm, rng).rng.pos == rng.pos + if prm.grow == 1.0 then 0 else |g| - 1
  {
    var before := Scan(g, w, h, prm, rng, i).rng;
    assert NextGrid(g, w, h, prm, rng).grid[i] == Visit(g, w, h, prm, i, before).cell by {
      VisitedCell(g, w, h, prm, rng, i);
    }
    assert Sample(before, 0) == Sample(rng, if prm.grow == 1.0 then 0 else i - 1) by {
      ScanDrawsOnEmpty(g, w, h, prm, rng, i);
    }
    EmptyVisit(g, w, h, prm, i, before);
    ScanDrawsOnEmpty(g, w, h, prm, rng, |g|);
  }

  /**
   * Two cells side by side, a mature tree at (0, 0) and an Ignite cell at
   * (1, 0), with certain spread: the tree is never visited, so it stays a
   * tree, while the fire moves on to Flame2.
   */
  lemma UnvisitedTreeBesideFire(rng: Rng)
    ensures NextGrid([MatureTree, Ignite], 2, 1, Params(0.0, 0.0, 1.0), rng).grid == [MatureTree, Flame2]
  {
    var g := [MatureTree, Ignite];
    BurningAdvances(g, 2, 1, Params(0.0, 0.0, 1.0), rng, 1);
  }

  /** The mirror image: the tree at (1, 0) is visited and catches fire from its west neighbour. */
  lemma VisitedTreeBesideFire(rng: Rng)
    ensures NextGrid([Ignite, MatureTree], 2, 1, Params(0.0, 0.0, 1.0), rng).grid == [Ignite, Ignite]
  {
    var g := [Ignite, MatureTree];
    assert At(g, 2, 1, 0, 0) == Ignite;
    CertainIgnition(g, 2, 1, Params(0.0, 0.0, 1.0), rng, 1, 0);
  }
}
