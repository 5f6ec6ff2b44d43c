/**
 * Cell states of the forest-fire automaton, the fire intensity of each state,
 * the random draws the rules consume, and the rule that gives one cell its
 * next state.
 */
module Cells {

  /** The twelve pixel colours the simulation uses, one constructor per colour. */
  datatype Cell =
    | Empty       // TRANSPARENT
    | Sapling     // GREEN at quarter gamma
    | YoungTree   // GREEN at half gamma
    | MatureTree  // GREEN
    | Ignite      // WHITE
    | Flame2      // YELLOW
    | Flame3      // ORANGE
    | Flame4      // RED
    | Ember1      // RED at half gamma
    | Ember2      // RED at quarter gamma
    | Ash         // GRAY
    | Char        // BLACK
  {
    /** The three green shades: the cells that can catch fire or grow. */
    predicate IsTree() {
      this == Sapling || this == YoungTree || this == MatureTree
    }

    /** The white-to-dark-red shades: the cells on the deterministic flame chain. */
    predicate IsBurning() {
      this == Ignite || this == Flame2 || this == Flame3 || this == Flame4 || this == Ember1 || this == Ember2
    }
  }

  /** How strongly a cell pushes fire onto its neighbours. */
  function Intensity(c: Cell): (r: real)
    ensures 0.0 <= r <= 1.0
    ensures r > 0.0 <==> c.IsBurning()
  {
    match c
    case Ignite => 1.0
    case Flame2 => 0.5
    case Flame3 => 0.25
    case Flame4 => 0.125
    case Ember1 => 0.0625
    case Ember2 => 0.03125
    case _ => 0.0
  }

  /** The intensity of a burning cell tells which flame stage it is in. */
  lemma IntensityIdentifiesStage(c: Cell, d: Cell)
    requires c.IsBurning() && d.IsBurning() && Intensity(c) == Intensity(d)
    ensures c == d
  {
  }

  /** One link of the flame chain Ignite, Flame2, Flame3, Flame4, Ember1, Ember2, Ash. */
  function Burn(c: Cell): (r: Cell)
    requires c.IsBurning()
    ensures r == Ash <==> c == Ember2
    ensures r != Ash ==> r.IsBurning() && Intensity(c) == 2.0 * Intensity(r)
  {
    match c
    case Ignite => Flame2
    case Flame2 => Flame3
    case Flame3 => Flame4
    case Flame4 => Ember1
    case Ember1 => Ember2
    case Ember2 => Ash
  }

  /** A uniform sample in [0, 1). */
  type Unit = r: real | 0.0 <= r < 1.0

  /**
   * The generator's state: the whole sequence of samples it will produce and
   * how many of them have been used.
   */
  datatype Rng = Rng(stream: nat -> Unit, pos: nat)

  /** The k-th sample still to come. */
  function Sample(rng: Rng, k: nat): Unit {
    rng.stream(rng.pos + k)
  }

  datatype Draw = Draw(outcome: bool, rng: Rng)

  /**
   * How many samples a Bernoulli draw with probability p uses: none when p is
   * exactly 1, since such a draw always succeeds, and one otherwise.
   */
  function Cost(p: real): nat {
    if p == 1.0 then 0 else 1
  }

  /**
   * A Bernoulli draw with probability p: it succeeds when the next sample
   * falls below p. The generator refuses a probability outside [0, 1].
   */
  function RandomBool(rng: Rng, p: real): (d: Draw)
    requires 0.0 <= p <= 1.0
    ensures d.outcome <==> Sample(rng, 0) < p
    ensures d.rng == rng.(pos := rng.pos + Cost(p))
    ensures p == 0.0 ==> !d.outcome
    ensures p == 1.0 ==> d.outcome
  {
    if p == 1.0 then Draw(true, rng)
    else Draw(Sample(rng, 0) < p, rng.(pos := rng.pos + 1))
  }

  /** The three tunable probabilities. */
  datatype Params = Params(grow: real, strike: real, spread: real) {
    /** Every probability the rules hand to the generator lies in [0, 1]. */
    predicate Valid() {
      0.0 <= grow <= 1.0 && 0.0 <= strike <= 1.0 && 0.0 <= spread <= 1.0
    }

    /** The ranges of the three sliders. */
    predicate InSliderRanges() {
      0.0000001 <= grow <= 0.001
      && 0.000000000001 <= strike <= 0.0001
      && 0.5 <= spread <= 0.999999
    }
  }

  /** The fixed probability of each growth and decomposition step. */
  const StageChance: real := 0.25

  /** The share of the neighbour pressure a tree feels: less fuel, less fire. */
  function Fuel(c: Cell): real
    requires c.IsTree()
  {
    if c == YoungTree then 0.5 else if c == Sapling then 0.25 else 1.0
  }

  /** The tree a cell grows into when its growth draw succeeds. */
  function Grown(c: Cell): Cell
    requires c == Sapling || c == YoungTree
  {
    if c == Sapling then YoungTree else MatureTree
  }

  /** The edges of the state graph: which states may follow which. */
  predicate CanFollow(c: Cell, d: Cell) {
    match c
    case Empty => d == Empty || d == Sapling
    case Sapling => d == Sapling || d == YoungTree || d == Ignite
    case YoungTree => d == YoungTree || d == MatureTree || d == Ignite
    case MatureTree => d == MatureTree || d == Ignite
    case Ash => d == Ash || d == Char
    case Char => d == Char || d == Empty
    case _ => d == Burn(c)
  }

  lemma NonNegativeProduct(a: real, b: real)
    requires 0.0 <= a && 0.0 <= b
    ensures 0.0 <= a * b
  {
  }

  /** A product of two probabilities is a probability. */
  lemma ProbabilityProduct(a: real, b: real)
    requires 0.0 <= a <= 1.0 && 0.0 <= b <= 1.0
    ensures 0.0 <= a * b <= 1.0
  {
    NonNegativeProduct(a, b);
    NonNegativeProduct(1.0 - a, b);
    assert (1.0 - a) * b == b - a * b;
  }

  datatype Next = Next(cell: Cell, rng: Rng)

  /**
   * The next state of one cell with the given neighbour pressure, and the
   * generator after the draws the rule consumed. The draws are taken in the
   * order of the short-circuiting conditions: the spread draw, then the
   * lightning draw only if spread failed, then the growth draw only if both
   * failed; a burning cell draws nothing.
   */
  function Transition(c: Cell, pressure: real, prm: Params, rng: Rng): (r: Next)
    requires prm.Valid() && 0.0 <= pressure <= 1.0
    ensures CanFollow(c, r.cell)
    ensures r.rng.stream == rng.stream
    ensures c.IsBurning() ==> r == Next(Burn(c), rng)
  {
    if c.IsTree() then
      var chance := pressure * Fuel(c);
      ProbabilityProduct(pressure, Fuel(c));
      ProbabilityProduct(prm.spread, chance);
      var spread := RandomBool(rng, prm.spread * chance);
      if spread.outcome then Next(Ignite, spread.rng)
      else
        var strike := RandomBool(spread.rng, prm.strike);
        if strike.outcome then Next(Ignite, strike.rng)
        else if c == YoungTree || c == Sapling then
          var growth := RandomBool(strike.rng, StageChance);
          Next(if growth.outcome then Grown(c) else c, growth.rng)
        else Next(c, strike.rng)
    else if c == Char then
      var rot := RandomBool(rng, StageChance);
      Next(if rot.outcome then Empty else Char, rot.rng)
    else if c == Ash then
      var crumble := RandomBool(rng, StageChance);
      Next(if crumble.outcome then Char else Ash, crumble.rng)
    else if c.IsBurning() then
      Next(Burn(c), rng)
    else
      var growth := RandomBool(rng, prm.grow);
      Next(if growth.outcome then Sapling else Empty, growth.rng)
  }

  /**
   * Which draws decide a tree's next state and how many samples it uses. It
   * ignites iff the first sample is below the spread probability or the
   * second below the strike probability; a sapling or young tree that does
   * not ignite grows iff the third is below 1/4. A failed draw has a
   * probability below 1 and so used exactly one sample.
   */
  lemma TreeDraws(c: Cell, pressure: real, prm: Params, rng: Rng)
    requires prm.Valid() && 0.0 <= pressure <= 1.0 && c.IsTree()
    ensures var r := Transition(c, pressure, prm, rng);
      var spread := prm.spread * (pressure * Fuel(c));
      (r.cell == Ignite <==> Sample(rng, 0) < spread || Sample(rng, 1) < prm.strike) &&
      r.rng.pos == rng.pos + (if Sample(rng, 0) < spread then Cost(spread)
                              else if Sample(rng, 1) < prm.strike || c == MatureTree then 1 + Cost(prm.strike)
                              else 2 + Cost(prm.strike))
    ensures var r := Transition(c, pressure, prm, rng);
      c != MatureTree && r.cell != Ignite ==> (r.cell == Grown(c) <==> Sample(rng, 2) < StageChance)
  {
    ProbabilityProduct(pressure, Fuel(c));
    ProbabilityProduct(prm.spread, pressure * Fuel(c));
  }

  /**
   * Char rots to empty, ash crumbles to char and empty ground sprouts a
   * sapling iff the first sample falls below the probability of that step,
   * and each uses that one draw's samples.
   */
  lemma GroundDraws(c: Cell, prm: Params, rng: Rng)
    requires prm.Valid()
    ensures var r := Transition(c, 0.0, prm, rng);
      c == Char ==> (r.cell == Empty <==> Sample(rng, 0) < StageChance) && r.rng.pos == rng.pos + 1
    ensures var r := Transition(c, 0.0, prm, rng);
      c == Ash ==> (r.cell == Char <==> Sample(rng, 0) < StageChance) && r.rng.pos == rng.pos + 1
    ensures var r := Transition(c, 0.0, prm, rng);
      c == Empty ==> (r.cell == Sapling <==> Sample(rng, 0) < prm.grow) && r.rng.pos == rng.pos + Cost(prm.grow)
  {
  }

  /** The cell after n generations spent on the flame chain (it stops at Ash). */
  function Burned(c: Cell, n: nat): Cell
    decreases n
  {
    if n == 0 || !c.IsBurning() then c else Burned(Burn(c), n - 1)
  }
}
