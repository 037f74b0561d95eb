/** The linear undo/redo log of the simulation, as a pair of stacks: the
 *  actions done (oldest first) and the actions undone (most recently undone
 *  last, so that it is the next one redo brings back).
 *
 *  The two stacks together describe one linear timeline with a cursor:
 *  Timeline(l) lists every entry that can still be reached by undo and redo,
 *  and |l.done| is the position of the cursor in it. Undo and redo move the
 *  cursor and never change the timeline; recording a new action cuts the
 *  timeline at the cursor.
 */
module History {

  datatype Log<E> = Log(done: seq<E>, undone: seq<E>)

  /** The log in which nothing has happened yet. */
  function Empty<E>(): Log<E> { Log([], []) }

  /** The reverse of a sequence. */
  function Reverse<E>(s: seq<E>): (r: seq<E>)
    ensures |r| == |s|
    ensures forall k :: 0 <= k < |s| ==> r[k] == s[|s| - 1 - k]
  {
    if s == [] then [] else Reverse(s[1..]) + [s[0]]
  }

  lemma ReverseSnoc<E>(s: seq<E>, x: E)
    ensures Reverse(s + [x]) == [x] + Reverse(s)
  {
  }

  /** Every entry reachable through undo and redo, oldest first. */
  function Timeline<E>(l: Log<E>): seq<E> {
    l.done + Reverse(l.undone)
  }

  /** logHistory: push a new action and discard everything that was undone. */
  function Record<E>(l: Log<E>, a: E): (r: Log<E>)
    ensures r.undone == []
    ensures Timeline(r) == l.done + [a]
  {
    Log(l.done + [a], [])
  }

  /** undo: move the most recent done entry onto the redo stack, if there is one. */
  function Undo<E>(l: Log<E>): (r: Log<E>)
    ensures Timeline(r) == Timeline(l)
    ensures |r.done| == if l.done == [] then 0 else |l.done| - 1
    ensures |r.done| + |r.undone| == |l.done| + |l.undone|
  {
    if l.done == [] then l
    else
      var n := |l.done|;
      var r := Log(l.done[..n - 1], l.undone + [l.done[n - 1]]);
      ReverseSnoc(l.undone, l.done[n - 1]);
      assert l.done == l.done[..n - 1] + [l.done[n - 1]];
      r
  }

  /** redo: move the top of the redo stack back onto the done entries, if there is one. */
  function Redo<E>(l: Log<E>): (r: Log<E>)
    ensures Timeline(r) == Timeline(l)
    ensures |r.done| == if l.undone == [] then |l.done| else |l.done| + 1
    ensures |r.done| + |r.undone| == |l.done| + |l.undone|
  {
    if l.undone == [] then l
    else
      var m := |l.undone|;
      var r := Log(l.done + [l.undone[m - 1]], l.undone[..m - 1]);
      ReverseSnoc(l.undone[..m - 1], l.undone[m - 1]);
      assert l.undone == l.undone[..m - 1] + [l.undone[m - 1]];
      r
  }

  /** A log is determined by its timeline and the position of its cursor. */
  lemma Determined<E>(a: Log<E>, b: Log<E>)
    requires Timeline(a) == Timeline(b)
    requires |a.done| == |b.done|
    ensures a == b
  {
    var t := Timeline(a);
    assert a.done == t[..|a.done|] == b.done;
    var ra, rb := Reverse(a.undone), Reverse(b.undone);
    assert ra == t[|a.done|..] == rb;
    assert |a.undone| == |b.undone|;
    forall k | 0 <= k < |a.undone| ensures a.undone[k] == b.undone[k] {
      var m := |a.undone|;
      assert ra[m - 1 - k] == a.undone[k];
      assert rb[m - 1 - k] == b.undone[k];
    }
  }

  lemma UndoOnEmptyIsNoOp<E>(l: Log<E>)
    requires l.done == []
    ensures Undo(l) == l
  {
  }

  lemma RedoOnEmptyIsNoOp<E>(l: Log<E>)
    requires l.undone == []
    ensures Redo(l) == l
  {
  }

  /** Undo takes exactly the last done entry and puts it on top of the redo stack. */
  lemma UndoMovesLastEntry<E>(l: Log<E>)
    requires l.done != []
    ensures Undo(l).done == l.done[..|l.done| - 1]
    ensures Undo(l).undone == l.undone + [l.done[|l.done| - 1]]
  {
  }

  /** Redo takes exactly the top of the redo stack and appends it to the done entries. */
  lemma RedoMovesTopEntry<E>(l: Log<E>)
    requires l.undone != []
    ensures Redo(l).done == l.done + [l.undone[|l.undone| - 1]]
    ensures Redo(l).undone == l.undone[..|l.undone| - 1]
  {
  }

  lemma UndoThenRedo<E>(l: Log<E>)
    requires l.done != []
    ensures Redo(Undo(l)) == l
  {
    Determined(Redo(Undo(l)), l);
  }

  lemma RedoThenUndo<E>(l: Log<E>)
    requires l.undone != []
    ensures Undo(Redo(l)) == l
  {
    Determined(Undo(Redo(l)), l);
  }

  /** Pressing undo k times. */
  function Undos<E>(l: Log<E>, k: nat): (r: Log<E>)
    ensures Timeline(r) == Timeline(l)
    ensures |r.done| == if k <= |l.done| then |l.done| - k else 0
    decreases k
  {
    if k == 0 then l else Undos(Undo(l), k - 1)
  }

  /** Pressing redo k times. */
  function Redos<E>(l: Log<E>, k: nat): (r: Log<E>)
    ensures Timeline(r) == Timeline(l)
    ensures |r.done| == if |l.done| + k <= |Timeline(l)| then |l.done| + k else |Timeline(l)|
    decreases k
  {
    if k == 0 then l else Redos(Redo(l), k - 1)
  }

  /** Undoing k entries and then redoing k entries gives back the same log. */
  lemma UndosThenRedos<E>(l: Log<E>, k: nat)
    requires k <= |l.done|
    ensures Redos(Undos(l, k), k) == l
  {
    Determined(Redos(Undos(l, k), k), l);
  }

  /** After undoing k entries, a new action replaces them all on the timeline:
   *  none of them can be redone any more. */
  lemma RecordAfterUndos<E>(l: Log<E>, k: nat, a: E)
    requires k <= |l.done|
    ensures Timeline(Record(Undos(l, k), a)) == l.done[..|l.done| - k] + [a]
    ensures Redo(Record(Undos(l, k), a)) == Record(Undos(l, k), a)
  {
    var u := Undos(l, k);
    assert u.done == Timeline(u)[..|u.done|] == Timeline(l)[..|l.done| - k];
    assert Timeline(l)[..|l.done| - k] == l.done[..|l.done| - k];
  }
}
