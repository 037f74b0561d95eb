/** The Simulation object: the charges, the particle grid, the undo/redo
 *  log and the charge being dragged, with the operations that change them.
 *  Drawing on the canvas and the history list in the page are left out; the
 *  library function Math.hypot is given to the simulation when it is made. */
module Simulations {
  import opened Charges
  import opened Particles
  import History
  import Grid

  /** One entry of the history log: what the source writes into its message. */
  datatype Action =
    | ChargeAdded(value: real, x: real, y: real)
    | ChargeMoved(x: real, y: real)
    | SimulationReset

  datatype Option<T> = None | Some(value: T)

  /** How far a particle moves toward the first charge in one update. */
  const Strength: real := 1.0

  /** Every particle after one updateParticles step toward (tx, ty). */
  function Drifted(ps: seq<Particle>, tx: real, ty: real, hypot: (real, real) -> real): seq<Particle> {
    seq(|ps|, k requires 0 <= k < |ps| =>
      MoveToward(ps[k], tx, ty, Strength, hypot(tx - ps[k].x, ty - ps[k].y)))
  }

  class Simulation {
    /** The canvas size. */
    const width: nat
    const height: nat
    /** Math.hypot, which the model cannot compute. */
    const hypot: (real, real) -> real

    var charges: seq<Charge>
    var particles: seq<Particle>
    var history: seq<Action>
    var redoStack: seq<Action>
    /** The charge held by the current drag gesture, if there is one. */
    var dragged: Charge?

    /** The two history stacks as one log. */
    function Journal(): History.Log<Action>
      reads this
    {
      History.Log(history, redoStack)
    }

    /** Charge k is the one Array.prototype.find picks for a press at (mx, my):
     *  it is hit, and no charge before it is. */
    ghost predicate FirstHit(k: nat, mx: real, my: real)
      reads this, charges
    {
      k < |charges| && charges[k].IsClicked(mx, my) &&
      forall j :: 0 <= j < k ==> !charges[j].IsClicked(mx, my)
    }

    /** No charge is hit by a press at (mx, my). */
    ghost predicate NoHit(mx: real, my: real)
      reads this, charges
    {
      forall j :: 0 <= j < |charges| ==> !charges[j].IsClicked(mx, my)
    }

    constructor (width: nat, height: nat, hypot: (real, real) -> real)
      ensures this.width == width && this.height == height && this.hypot == hypot
      ensures charges == [] && particles == Grid.Layout(width, height)
      ensures Journal() == History.Empty() && dragged == null
    {
      this.width, this.height, this.hypot := width, height, hypot;
      charges, particles, history, redoStack, dragged := [], [], [], [], null;
      new;
      InitParticles();
    }

    /** initParticles: push the particles of the grid, row by row. */
    method InitParticles()
      modifies this
      ensures particles == old(particles) + Grid.Layout(width, height)
      ensures charges == old(charges) && Journal() == old(Journal()) && dragged == old(dragged)
    {
      var y: nat := 0;
      while y < height
        invariant y % Grid.Spacing == 0 && y / Grid.Spacing <= Grid.Lines(height)
        invariant particles == old(particles) + Grid.Rows(width, y / Grid.Spacing)
        invariant charges == old(charges) && Journal() == old(Journal()) && dragged == old(dragged)
      {
        ghost var j := y / Grid.Spacing;
        Grid.LinesIsCeiling(height, j);
        var x: nat := 0;
        while x < width
          invariant x % Grid.Spacing == 0 && x / Grid.Spacing <= Grid.Lines(width)
          invariant particles == old(particles) + Grid.Rows(width, j) + Grid.Row(width, j)[..x / Grid.Spacing]
          invariant charges == old(charges) && Journal() == old(Journal()) && dragged == old(dragged)
        {
          ghost var i := x / Grid.Spacing;
          Grid.LinesIsCeiling(width, i);
          assert Grid.Row(width, j)[..i + 1] == Grid.Row(width, j)[..i] + [Grid.GridPoint(i, j)];
          particles := particles + [Particle(x as real, y as real)];
          x := x + Grid.Spacing;
        }
        Grid.LinesIsCeiling(width, x / Grid.Spacing);
        assert Grid.Row(width, j)[..x / Grid.Spacing] == Grid.Row(width, j);
        y := y + Grid.Spacing;
      }
      Grid.LinesIsCeiling(height, y / Grid.Spacing);
    }

    /** addCharge: append a new charge, update the particles, log the action. */
    method AddCharge(x: real, y: real, value: real)
      modifies this
      ensures |charges| == |old(charges)| + 1 && charges[..|old(charges)|] == old(charges)
      ensures fresh(charges[|charges| - 1])
      ensures charges[|charges| - 1].x == x && charges[|charges| - 1].y == y
      ensures charges[|charges| - 1].value == value
      ensures particles == Drifted(old(particles), charges[0].x, charges[0].y, hypot)
      ensures Journal() == History.Record(old(Journal()), ChargeAdded(value, x, y))
      ensures dragged == old(dragged)
    {
      var charge := new Charge(x, y, value);
      charges := charges + [charge];
      UpdateParticles();
      LogHistory(ChargeAdded(value, x, y));
    }

    /** updateParticles: move every particle one step toward the first charge;
     *  with no charge, nothing moves. */
    method UpdateParticles()
      modifies this
      ensures particles == if charges == [] then old(particles)
                           else Drifted(old(particles), charges[0].x, charges[0].y, hypot)
      ensures charges == old(charges) && Journal() == old(Journal()) && dragged == old(dragged)
    {
      ghost var goal := if charges == [] then particles
                        else Drifted(particles, charges[0].x, charges[0].y, hypot);
      var i := 0;
      while i < |particles|
        invariant 0 <= i <= |particles| == |goal|
        invariant charges == old(charges) && Journal() == old(Journal()) && dragged == old(dragged)
        invariant forall k :: 0 <= k < i ==> particles[k] == goal[k]
        invariant forall k :: i <= k < |particles| ==> particles[k] == old(particles)[k]
      {
        if |charges| > 0 {
          var target := charges[0];
          var p := particles[i];
          particles := particles[i := MoveToward(p, target.x, target.y, Strength,
                                                 hypot(target.x - p.x, target.y - p.y))];
        }
        i := i + 1;
      }
      assert particles == goal;
    }

    /** logHistory: push an action and clear the redo stack. */
    method LogHistory(a: Action)
      modifies this
      ensures history == old(history) + [a] && redoStack == []
      ensures charges == old(charges) && particles == old(particles) && dragged == old(dragged)
    {
      history := history + [a];
      redoStack := [];
    }

    /** resetSimulation: forget every charge and log the reset; the particles
     *  stay wherever they have drifted to. */
    method ResetSimulation()
      modifies this
      ensures charges == []
      ensures particles == old(particles)
      ensures Journal() == History.Record(old(Journal()), SimulationReset)
      ensures dragged == old(dragged)
    {
      charges := [];
      LogHistory(SimulationReset);
    }

    /** undo: move the last history entry onto the redo stack. Only the log
     *  changes: no charge or particle is restored. */
    method Undo()
      modifies this
      ensures Journal() == History.Undo(old(Journal()))
      ensures charges == old(charges) && unchanged(charges)
      ensures particles == old(particles) && dragged == old(dragged)
    {
      if |history| > 0 {
        var lastAction := history[|history| - 1];
        history := history[..|history| - 1];
        redoStack := redoStack + [lastAction];
      }
    }

    /** redo: move the top of the redo stack back onto the history. Only the
     *  log changes. */
    method Redo()
      modifies this
      ensures Journal() == History.Redo(old(Journal()))
      ensures charges == old(charges) && unchanged(charges)
      ensures particles == old(particles) && dragged == old(dragged)
    {
      if |redoStack| > 0 {
        var redoAction := redoStack[|redoStack| - 1];
        redoStack := redoStack[..|redoStack| - 1];
        history := history + [redoAction];
      }
    }

    /** The search of the mousedown handler: the first charge, in insertion
     *  order, whose hit area contains (mx, my). */
    method FindClicked(mx: real, my: real) returns (r: Option<nat>)
      ensures r.Some? ==> FirstHit(r.value, mx, my)
      ensures r.None? ==> NoHit(mx, my)
    {
      var k := 0;
      while k < |charges|
        invariant 0 <= k <= |charges|
        invariant forall j :: 0 <= j < k ==> !charges[j].IsClicked(mx, my)
      {
        if charges[k].IsClicked(mx, my) {
          return Some(k);
        }
        k := k + 1;
      }
      return None;
    }

    /** mousedown: a press on a charge starts dragging the first charge hit;
     *  a press that misses every charge does nothing. */
    method MouseDown(mx: real, my: real)
      modifies this
      ensures NoHit(mx, my) ==> dragged == old(dragged)
      ensures !NoHit(mx, my) ==> exists k: nat :: FirstHit(k, mx, my) && dragged == charges[k]
      ensures charges == old(charges) && particles == old(particles) && Journal() == old(Journal())
    {
      var found := FindClicked(mx, my);
      if found.Some? {
        dragged := charges[found.value];
        assert charges[found.value].IsClicked(mx, my);
        assert !NoHit(mx, my);
      }
    }

    /** mousemove during a drag: move the dragged charge, then update the
     *  particles. Every other charge keeps its position and value. */
    method MouseMove(newX: real, newY: real)
      modifies this, dragged
      ensures dragged == old(dragged) && charges == old(charges) && Journal() == old(Journal())
      ensures dragged != null ==> dragged.x == newX && dragged.y == newY && dragged.value == old(dragged.value)
      ensures forall c :: c in charges && c != dragged ==> c.x == old(c.x) && c.y == old(c.y) && c.value == old(c.value)
      ensures particles == if dragged == null || charges == [] then old(particles)
                           else Drifted(old(particles), charges[0].x, charges[0].y, hypot)
    {
      if dragged != null {
        dragged.Move(newX, newY);
        UpdateParticles();
      }
    }

    /** mouseup: end the drag and log where the charge was left. */
    method MouseUp()
      modifies this
      ensures dragged == null
      ensures old(dragged) != null ==>
        Journal() == History.Record(old(Journal()), ChargeMoved(old(dragged).x, old(dragged).y))
      ensures old(dragged) == null ==> Journal() == old(Journal())
      ensures charges == old(charges) && particles == old(particles)
    {
      if dragged != null {
        LogHistory(ChargeMoved(dragged.x, dragged.y));
        dragged := null;
      }
    }
  }

  /** Page load: make the simulation for a width-by-height canvas and place
   *  the default unit charge at its centre. */
  method Load(width: nat, height: nat, hypot: (real, real) -> real) returns (s: Simulation)
    ensures fresh(s)
    ensures |s.charges| == 1 && fresh(s.charges[0])
    ensures s.charges[0].x == width as real / 2.0 && s.charges[0].y == height as real / 2.0
    ensures s.charges[0].value == 1.0
    ensures s.history == [ChargeAdded(1.0, width as real / 2.0, height as real / 2.0)]
    ensures s.particles == Drifted(Grid.Layout(width, height), width as real / 2.0, height as real / 2.0, hypot)
    ensures s.redoStack == [] && s.dragged == null
  {
    s := new Simulation(width, height, hypot);
    s.AddCharge(width as real / 2.0, height as real / 2.0, 1.0);
  }
}
