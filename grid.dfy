/** The regular grid of particles that initParticles lays out: one particle
 *  at every (Spacing * i, Spacing * j) inside the canvas, row by row from the
 *  top, each row from left to right. */
module Grid {
  import opened Particles

  /** Distance between neighbouring particles of the grid. */
  const Spacing: nat := 20

  /** How many of the coordinates 0, Spacing, 2 * Spacing, ... lie below n. */
  function Lines(n: nat): nat {
    (n + Spacing - 1) / Spacing
  }

  /** The grid particle in column i and row j. */
  function GridPoint(i: nat, j: nat): Particle {
    Particle((Spacing * i) as real, (Spacing * j) as real)
  }

  /** Row j of the grid on a canvas of width w. */
  function Row(w: nat, j: nat): seq<Particle> {
    seq(Lines(w), i requires 0 <= i => GridPoint(i, j))
  }

  /** The first k rows of the grid on a canvas of width w, in push order. */
  function Rows(w: nat, k: nat): seq<Particle> {
    if k == 0 then [] else Rows(w, k - 1) + Row(w, k - 1)
  }

  /** Every particle initParticles pushes on a w-by-h canvas, in push order. */
  function Layout(w: nat, h: nat): seq<Particle> {
    Rows(w, Lines(h))
  }

  /** Lines(n) is the ceiling of n / Spacing: the coordinate c * Spacing is
   *  inside [0, n) exactly when c < Lines(n). */
  lemma LinesIsCeiling(n: nat, c: nat)
    ensures Spacing * c < n <==> c < Lines(n)
    ensures Spacing * (Lines(n) - 1) < n <= Spacing * Lines(n) || n == Lines(n) == 0
  {
  }

  lemma {:induction false} RowsLength(w: nat, k: nat)
    ensures |Rows(w, k)| == k * Lines(w)
  {
    if k > 0 {
      RowsLength(w, k - 1);
      assert (k - 1) * Lines(w) + Lines(w) == k * Lines(w);
    }
  }

  lemma {:induction false} RowsAt(w: nat, k: nat, i: nat, j: nat)
    requires i < Lines(w) && j < k
    ensures j * Lines(w) + i < |Rows(w, k)|
    ensures Rows(w, k)[j * Lines(w) + i] == GridPoint(i, j)
  {
    RowsLength(w, k);
    RowsLength(w, k - 1);
    var n := Lines(w);
    if j == k - 1 {
      assert Rows(w, k)[j * n + i] == Row(w, j)[i];
    } else {
      RowsAt(w, k - 1, i, j);
      assert j * n + i < (k - 1) * n;
    }
  }

  lemma {:induction false} RowsMembers(w: nat, k: nat, p: Particle)
    requires p in Rows(w, k)
    ensures exists i: nat, j: nat :: i < Lines(w) && j < k && p == GridPoint(i, j)
  {
    if k > 0 {
      if p in Rows(w, k - 1) {
        RowsMembers(w, k - 1, p);
      } else {
        var i :| 0 <= i < Lines(w) && Row(w, k - 1)[i] == p;
        assert p == GridPoint(i, k - 1);
      }
    }
  }

  /** initParticles pushes exactly ceil(h / Spacing) * ceil(w / Spacing) particles. */
  lemma LayoutSize(w: nat, h: nat)
    ensures |Layout(w, h)| == Lines(h) * Lines(w)
  {
    RowsLength(w, Lines(h));
  }

  /** Row-major order: the particle of column i and row j is pushed at
   *  position j * Lines(w) + i. */
  lemma LayoutAt(w: nat, h: nat, i: nat, j: nat)
    requires Spacing * i < w && Spacing * j < h
    ensures j * Lines(w) + i < |Layout(w, h)|
    ensures Layout(w, h)[j * Lines(w) + i] == GridPoint(i, j)
  {
    LinesIsCeiling(w, i);
    LinesIsCeiling(h, j);
    RowsAt(w, Lines(h), i, j);
  }

  /** The layout holds exactly the grid points inside the canvas. */
  lemma LayoutMembers(w: nat, h: nat, p: Particle)
    ensures p in Layout(w, h) <==>
      exists i: nat, j: nat :: Spacing * i < w && Spacing * j < h && p == GridPoint(i, j)
  {
    if p in Layout(w, h) {
      RowsMembers(w, Lines(h), p);
      var i: nat, j: nat :| i < Lines(w) && j < Lines(h) && p == GridPoint(i, j);
      LinesIsCeiling(w, i);
      LinesIsCeiling(h, j);
    }
    if exists i: nat, j: nat :: Spacing * i < w && Spacing * j < h && p == GridPoint(i, j) {
      var i: nat, j: nat :| Spacing * i < w && Spacing * j < h && p == GridPoint(i, j);
      LayoutAt(w, h, i, j);
    }
  }
}
