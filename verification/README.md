# Forest-fire cellular automaton

A Dafny model of the simulation core of `forest-sim`: a 500 × 500 grid of
pixels. Each pixel holds one of twelve colours, and each colour stands for a
cell state:

- empty;
- three tree stages;
- a six-step flame chain (Ignite, Flame2, Flame3, Flame4, Ember1, Ember2);
- ash;
- char.

Every frame a throttle counter decides whether to run one generation. A
generation:

- copies the displayed buffer into a scratch buffer;
- scans the grid in row-major order, writing each visited cell's new state
  into the scratch buffer, computed from the old grid only;
- swaps the two buffers.

A tree ignites with a probability given by the strongest fire among its eight
neighbours, with diagonal neighbours attenuated by 1/√2, and scaled down for
younger trees. A tree also ignites when lightning strikes. Burning cells
advance down the flame chain without a draw. Ash crumbles to char, char rots
to empty and empty ground sprouts saplings, each on a successful random draw.

The model has four modules:

- `Cells`:
  - the cell states and their fire intensity;
  - the random generator as a stream of samples in [0, 1), with the Bernoulli
    draw that consumes them;
  - the per-cell rule `Transition`, which returns the new state and the
    generator after exactly the draws the short-circuiting conditions
    consumed.
- `Neighbourhood`: the ignition pressure, specified as the maximum of the
  weighted neighbour contributions, for a grid of any width and height.
- `Generation`:
  - one generation as a function of the old grid and the generator (`Scan`,
    `NextGrid`), and any number of generations (`Run`);
  - the properties the scan guarantees.
- `Simulation`: the `App` object, with its two pixel arrays, settings, counter
  and generator:
  - `Step` keeps `App::step`'s copy, its hand-rolled scan loop (the column is
    advanced before the first visit) and the buffer swap, and is proved equal
    to `NextGrid`;
  - `NeighbourPressure` keeps the Rust code's guarded reads, and is proved equal
    to the pure pressure;
  - `Update` is the frame throttle.

The scan never visits flat index 0, the cell at (0, 0): the loop increments
the column before it processes a cell. That cell keeps its old state forever
(`Generation.OriginFrozen`). The model keeps this behaviour.

A generation therefore does not update every cell: a mature tree at (0, 0)
beside an Ignite cell never catches fire, even with certain spread
(`Generation.UnvisitedTreeBesideFire`), while in the mirrored grid the tree
does ignite (`Generation.VisitedTreeBesideFire`).

The generator is a parameter: the constructor takes the sample stream that
replaces the OS-seeded Xoshiro128+ generator. A draw with probability p
succeeds when the next sample is below p. It uses up that sample, except that
a draw with p exactly 1 succeeds without using one, as the generator library
does.

## Model

| member | source | states |
|---|---|---|
| Cells.Intensity | src/lib.rs:22-38 | the intensity is in [0, 1] and positive exactly for the six flame-chain colours |
| Cells.IntensityIdentifiesStage | src/lib.rs:22-38 | two burning cells with the same intensity are in the same flame stage |
| Cells.Burn | src/lib.rs:167-178 | each flame-chain step halves the intensity, and only Ember2 turns to Ash |
| Cells.RandomBool | src/lib.rs:154-155 | a draw succeeds iff the next sample is below p; it uses one sample, or none when p is 1; p = 0 never succeeds and p = 1 always does |
| Cells.Transition | src/lib.rs:148-182 | the new state follows an edge of the state graph, the generator keeps its stream, and a burning cell takes the next flame stage without a draw |
| Cells.TreeDraws | src/lib.rs:148-162 | a tree ignites iff the spread draw (probability spread × pressure × fuel) succeeds or, after it fails, the strike draw does. A sapling or young tree that does not ignite grows iff the third draw succeeds. The generator advances by exactly the samples these short-circuited draws use |
| Cells.GroundDraws | src/lib.rs:163-182 | char rots to empty, ash crumbles to char and empty ground sprouts a sapling iff the single draw succeeds (1/4, 1/4 and the grow probability), and each uses that draw's samples |
| Neighbourhood.Pressure | src/lib.rs:106-146 | the pressure, the largest weighted neighbour intensity, lies in [0, 1] |
| Neighbourhood.PressureIsMax | src/lib.rs:106-146 | no in-grid neighbour's weighted intensity exceeds the pressure, and the pressure is 0 or equal to the weighted intensity of some in-grid neighbour |
| Neighbourhood.LoneSource | src/lib.rs:106-146 | with a single contributing neighbour, the pressure is that neighbour's weighted intensity |
| Neighbourhood.OrthogonalIgnite | src/lib.rs:106-146 | an Ignite cell directly beside, above or below gives full pressure 1 |
| Neighbourhood.NoFireNoPressure | src/lib.rs:106-146 | a grid without burning cells exerts no pressure anywhere |
| Generation.Scan | src/lib.rs:89-100 | the scan produces the new states of cells 1 .. n-1 and only moves the generator forward |
| Generation.NextGrid | src/lib.rs:79-186 | a generation keeps the grid size and leaves cell 0 as it was |
| Generation.ScanAt | src/lib.rs:89-100 | the scan's result for cell i is the rule applied with the generator as cells 1 .. i-1 left it |
| Generation.VisitedCell | src/lib.rs:101-182 | every cell but the first takes the state the rule computes from the old grid, so it moves along an edge of the state graph |
| Generation.BurningAdvances | src/lib.rs:167-178 | a visited burning cell takes the next flame stage whatever the draws |
| Generation.EmptyStays | src/lib.rs:179-182 | with no growth, an empty cell stays empty for one generation |
| Generation.OriginFrozen | src/lib.rs:89-100 | the cell at (0, 0) never changes, for any number of generations |
| Generation.EmptyStaysEmpty | src/lib.rs:179-182 | with no growth, an empty cell stays empty for any number of generations |
| Generation.FollowsChain | src/lib.rs:167-178 | a visited cell on the flame chain moves one link per generation |
| Generation.IgniteToAshInSix | src/lib.rs:167-178 | a visited Ignite cell burns for exactly five generations and is Ash after the sixth |
| Generation.CertainIgnition | src/lib.rs:108-157 | with spread 1, a mature tree next to an orthogonal Ignite neighbour ignites |
| Generation.ScanDrawsOnEmpty | src/lib.rs:179-182 | over an all-empty grid the scan uses one sample per visited cell (none when growth is certain) |
| Generation.FirstGenerationFromEmpty | src/lib.rs:53-56 | from the initial all-empty grid, cell i becomes a sapling iff its own growth sample succeeds, and the generation uses one sample per visited cell |
| Generation.UnvisitedTreeBesideFire | src/lib.rs:89-100 | a mature tree at (0, 0) beside an Ignite cell stays a tree even with certain spread |
| Generation.VisitedTreeBesideFire | src/lib.rs:108-157 | the mirrored two-cell grid: the visited tree ignites |
| Simulation.Throttle | src/lib.rs:233-237 | a generation runs exactly when the incremented count reaches the speed (also when the count already exceeds a lowered speed); one frame leaves the count below the speed; it resets to 0 exactly when a generation runs and otherwise goes up by one |
| Simulation.OneGenerationEverySpeedFrames | src/lib.rs:233-237 | over n frames at a fixed speed s from count c, generations × s + final count = c + n, with the final count below s: one generation every s frames |
| Simulation.App.constructor | src/lib.rs:53-73 | the initial state: all pixels empty in both buffers, speed 1, count 0, grow 1e-4, strike 5e-7, spread 0.75 |
| Simulation.App.Clear | src/lib.rs:75-77 | every displayed pixel becomes empty |
| Simulation.App.NeighbourPressure | src/lib.rs:106-146 | the guarded reads compute exactly the pressure of the displayed grid, and every index read is in bounds |
| Simulation.App.RowPressure | src/lib.rs:116-145 | the reads of the row above or below extend the running maximum by that row's three neighbours |
| Simulation.App.UpdateCell | src/lib.rs:101-182 | one visit writes the rule's new state at the cell's flat index in the scratch buffer, changes nothing else there, and advances the generator by the rule's draws |
| Simulation.App.Step | src/lib.rs:79-186 | after the copy, the scan loop and the swap, the displayed buffer and the generator are NextGrid of the old grid, and the other buffer holds the old grid |
| Simulation.App.Update | src/lib.rs:233-237 | a frame follows Throttle: with a step the grid becomes NextGrid of the old grid, otherwise the grid, generator and other buffer are unchanged; after a step the other buffer holds the old grid; afterwards the count is below the speed |

## Left out

- Rendering is not modelled: the `image` conversion, the texture handle and
  the central panel are display code outside the automaton.
- `render_log` is not modelled; it only formats a slider label.
- The sliders and the clear button are not modelled: egui enforces the
  sliders' ranges inside its widgets, which are not part of this model.
  `App.Valid` assumes the declared ranges: grow in [1e-7, 1e-3], strike in
  [1e-12, 1e-4], spread in [0.5, 0.999999] and speed in [1, 10].
- The Xoshiro128+ generator and its OS seeding are not modelled. The
  generator is an arbitrary stream of samples in [0, 1), and a draw compares
  the sample with p as a real. The library instead compares a 64-bit integer
  with p scaled to 2^64.
- IEEE floating point is not modelled. Intensities and probabilities are
  exact reals: 1/√2 is the double 0.7071067811865475 taken as an exact real,
  and products are not rounded.
- `gamma_multiply` colour arithmetic is not modelled. The twelve colours are
  taken to be distinct and appear as constructors of `Cell`.
- The `u8` counter is a byte-ranged newtype. `App.Valid` keeps it below 10,
  so the increment can never overflow.
- `src/main.rs` (window bootstrap and logger setup) is not part of this model.
