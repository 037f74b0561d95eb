# Point-charge field visualisation: model of the simulation's bookkeeping

The program shows point electric charges on a canvas, with a grid of
"sand" particles that drift toward the first charge. It keeps a linear
undo/redo log of user actions. This project models, in Dafny, what the
`Simulation` object keeps and how each operation changes it. Canvas drawing and
the page's DOM are not modelled. The model has five modules:

- `Charges`: the `Charge` class, with its position `x`, `y` and its signed
  `value`. It has the hit test `IsClicked`, a strict inside-radius-10 test
  written as `dx*dx + dy*dy < 100`, and `Move`, which overwrites the position.
- `Particles`: a particle as a value. `MoveToward` takes the distance that
  `Math.hypot` would return as a parameter, since Dafny cannot compute square
  roots. The lemmas say what one step does when that distance is the true one.
- `Grid`: the layout that `initParticles` produces. It puts one particle at every
  `(20i, 20j)` inside the canvas, row by row from the top. `Layout(w, h)`
  is the push order.
- `History`: the two-stack undo/redo log as a pure value `Log(done, undone)`,
  with `Record` (`logHistory`), `Undo` and `Redo`. The two stacks describe one
  timeline, `done + reverse(undone)`, with a cursor at `|done|`. Undo and redo
  move the cursor and keep the timeline. A new action cuts the timeline at the
  cursor. A log is determined by its timeline and its cursor (`Determined`).
  The round trips follow from that.
- `Simulations`: the `Simulation` class. Its fields are `charges` (objects,
  since a drag moves one in place), `particles`, `history` and `redoStack`,
  plus `dragged`, the charge held by the current drag gesture. Its methods are
  `InitParticles`, `AddCharge`, `UpdateParticles`, `LogHistory`,
  `ResetSimulation`, `Undo`, `Redo`, the hit search `FindClicked`, and the drag
  handlers `MouseDown`, `MouseMove` and `MouseUp`. Each mutating method states
  its whole new state. The history part is stated through `Journal()` and the
  functions of `History`. The canvas size and `Math.hypot` are given to the
  constructor.

Log entries are the `Action` datatype: `ChargeAdded(value, x, y)`,
`ChargeMoved(x, y)` and `SimulationReset`. Each is the parameters of the message
the source writes, not its text.

Undo followed by redo restores both stacks, including the redo stack
(`History.UndoThenRedo`). So the redo stack is empty afterwards only if it was
empty before the undo.

## Model

| member | source | states |
|---|---|---|
| Charges.Charge.constructor | front_end/script.js:3-7 | a new charge has the given position and value |
| Charges.Charge.Move | front_end/script.js:21-24 | the position becomes exactly the new one, with no bounds check; the value is kept |
| Charges.Charge.IsClicked | front_end/script.js:17-19 | the hit test; its meaning, a distance strictly below 10, is stated by `Charges.IsClickedWithinRadius` |
| Particles.MoveToward | front_end/script.js:42-51 | one drift step; stated by `Particles.MoveTowardStopsNearTarget` and `Particles.MoveTowardApproaches` |
| Grid.Layout | front_end/script.js:67-75 | the particles of the grid in push order; stated by `Grid.LayoutSize`, `Grid.LayoutAt` and `Grid.LayoutMembers` |
| Simulations.Drifted | front_end/script.js:85-95 | every particle after one step toward the first charge; stated by the ensures of `Simulations.Simulation.UpdateParticles` |
| Charges.IsClickedWithinRadius | front_end/script.js:17-19 | for any non-negative square root `d` of the squared distance, the hit test holds exactly when `d < 10` |
| Charges.BoundaryIsNotClicked | front_end/script.js:17-19 | a point at distance exactly 10 is not a hit: the boundary is exclusive |
| Particles.MoveTowardStopsNearTarget | front_end/script.js:47-50 | a particle within one unit of the target does not move |
| Particles.MoveTowardApproaches | front_end/script.js:42-51 | given the true distance `d > 1`, the step has length exactly `strength`, and the new distance is `abs(d - strength)`, so a step can overshoot when the strength exceeds the distance |
| Grid.LinesIsCeiling | front_end/script.js:69-71 | coordinate `20c` is inside `[0, n)` exactly when `c < Lines(n)`, and `Lines(n)` is `ceil(n / 20)` |
| Grid.LayoutSize | front_end/script.js:67-75 | the grid has exactly `ceil(H/20) * ceil(W/20)` particles |
| Grid.LayoutAt | front_end/script.js:70-72 | the particle at `(20i, 20j)` sits at position `j * ceil(W/20) + i`: rows outer, columns inner |
| Grid.LayoutMembers | front_end/script.js:67-75 | a particle is in the grid exactly when it is some `(20i, 20j)` with `20i < W` and `20j < H` |
| History.Record | front_end/script.js:104-108 | after logging, nothing is left to redo, and the timeline is the old done entries plus the new action |
| History.Undo | front_end/script.js:155-162 | the timeline is unchanged; the cursor moves back by one, or stays at 0 on an empty history; the total entry count is conserved |
| History.Redo | front_end/script.js:164-171 | the timeline is unchanged; the cursor moves forward by one, or stays when the redo stack is empty; the total entry count is conserved |
| History.Determined | front_end/script.js:155-171 | two logs with the same timeline and cursor are equal |
| History.UndoOnEmptyIsNoOp | front_end/script.js:156 | undo on an empty history changes neither stack |
| History.RedoOnEmptyIsNoOp | front_end/script.js:165 | redo on an empty redo stack changes neither stack |
| History.UndoMovesLastEntry | front_end/script.js:157-158 | undo removes the last history entry and pushes that same entry on top of the redo stack |
| History.RedoMovesTopEntry | front_end/script.js:166-167 | redo pops the top of the redo stack and appends that same entry to the history |
| History.UndoThenRedo | front_end/script.js:155-171 | for a non-empty history, undo then redo restores both stacks |
| History.RedoThenUndo | front_end/script.js:155-171 | for a non-empty redo stack, redo then undo restores both stacks |
| History.Undos | front_end/script.js:155-162 | k undos keep the timeline and move the cursor back by k, stopping at 0 |
| History.Redos | front_end/script.js:164-171 | k redos keep the timeline and move the cursor forward by k, stopping at its end |
| History.UndosThenRedos | front_end/script.js:155-171 | k undos followed by k redos, with k at most the history length, restore the log |
| History.RecordAfterUndos | front_end/script.js:104-108 | an action logged after k undos discards the k undone entries: the timeline ends with the new action, and redo does nothing |
| Simulations.Simulation.constructor | front_end/script.js:56-65 | a new simulation has no charges, an empty log, no drag in progress, and exactly the grid layout as its particles |
| Simulations.Simulation.InitParticles | front_end/script.js:67-75 | the particles become the old ones followed by the grid layout, in push order; nothing else changes |
| Simulations.Simulation.AddCharge | front_end/script.js:77-83 | exactly one fresh charge with the given position and value is appended, earlier charges are unchanged, the particles take one drift step toward the first charge, and exactly one entry is logged, so the redo stack ends empty |
| Simulations.Simulation.UpdateParticles | front_end/script.js:85-95 | with no charges, nothing moves; otherwise every particle takes one `moveToward` step of strength 1 toward the first charge only |
| Simulations.Simulation.LogHistory | front_end/script.js:104-108 | the history gains exactly the action at its end, and the redo stack becomes empty whatever it held |
| Simulations.Simulation.ResetSimulation | front_end/script.js:148-153 | the charges become empty, exactly one reset entry is logged, and the particles are left exactly where they were |
| Simulations.Simulation.Undo | front_end/script.js:155-162 | the log becomes `History.Undo` of the old log; the charges (collection and each charge's fields), the particles and the drag state are unchanged |
| Simulations.Simulation.Redo | front_end/script.js:164-171 | the log becomes `History.Redo` of the old log; the charges, the particles and the drag state are unchanged |
| Simulations.Simulation.FindClicked | front_end/script.js:125 | the result is the lowest index whose charge is hit, or none when no charge is hit |
| Simulations.Simulation.MouseDown | front_end/script.js:121-127 | a press starts dragging the first charge in insertion order that is hit; a press that misses every charge changes nothing |
| Simulations.Simulation.MouseMove | front_end/script.js:128-134 | only the dragged charge's position changes, to the pointer position; its value and every other charge are unchanged; the particles then drift toward the first charge |
| Simulations.Simulation.MouseUp | front_end/script.js:136-140 | the drag ends, and exactly one entry records the charge's final position; with no drag, nothing changes |
| Simulations.Load | front_end/script.js:201 | a freshly loaded page holds one unit charge at the canvas centre and one log entry for it, and its particles are the grid after one drift step toward that charge |

## Left out

- Drawing: `Charge.draw`, `Particle.draw`, `drawAll` and `clearRect` only paint the canvas. The colour choice for positive and non-positive values and the particles' fixed colour go with them.
- `updateHistoryDisplay`, which rebuilds the page's history list, and the `console.log` calls in undo and redo. Both are output only.
- Message text: an entry is an `Action` holding the message's numbers. The wording and the `toFixed(1)` rounding are not modelled.
- Floating point: coordinates and values are exact reals, so double-precision rounding is not modelled. `Math.hypot` is the constructor parameter `hypot`, and `Particles.MoveToward` receives its result. Nothing requires `hypot` to be a true square root; `Particles.MoveTowardApproaches` assumes it for the one step it describes.
- The button and input wiring, which is page plumbing: the reset, undo and redo click handlers each call the method of the same name. The charge-value input handler calls `AddCharge` at a random position. That handler's `parseFloat`/`isNaN` check and `Math.random` are library calls, so it is not modelled.
- Listener attachment and `getBoundingClientRect`: the drag handlers take canvas-relative coordinates. The listeners attached on press become the field `dragged`.
- Simulations.Simulation.MouseDown: the model holds at most one drag gesture. A press that hits while a drag is already in progress replaces the held charge, whereas the source would attach a second pair of listeners that both act until release.
- Particles are values in a sequence. A drift step replaces each element instead of updating a `Particle` object in place, because nothing else holds a reference to a particle.
