/** The edit session: an operation list over a source timeline, with undo and redo. */
module EditSession {
  import opened Common
  import opened Timeline

  /** The operations in force, and those undone, the most recently undone last. */
  datatype History = History(ops: seq<EditOperation>, redoStack: seq<EditOperation>)

  function Reverse<T>(s: seq<T>): seq<T> {
    if s == [] then [] else [s[|s| - 1]] + Reverse(s[..|s| - 1])
  }

  /** The operations in force followed by the undone ones in the order they would be redone. */
  function Script(h: History): seq<EditOperation> {
    h.ops + Reverse(h.redoStack)
  }

  /** Everything that is in force or can be redone folds over the source without error. */
  ghost predicate Replayable(source: Timeline, h: History) {
    ApplyEdits(source, Script(h)).Ok?
  }

  // -------------------------------------------------------------- the steps

  datatype Command = Apply(op: EditOperation) | Undo | Redo | Reset

  function Undone(h: History): History {
    if h.ops == [] then h
    else History(h.ops[..|h.ops| - 1], h.redoStack + [h.ops[|h.ops| - 1]])
  }

  function Redone(h: History): History {
    if h.redoStack == [] then h
    else History(h.ops + [h.redoStack[|h.redoStack| - 1]], h.redoStack[..|h.redoStack| - 1])
  }

  function Perform(source: Timeline, h: History, c: Command): History {
    match c
    case Apply(op) => if ApplyEdits(source, h.ops + [op]).Ok? then History(h.ops + [op], []) else h
    case Undo => Undone(h)
    case Redo => Redone(h)
    case Reset => History([], [])
  }

  /** Undo and redo move the boundary in the script but do not change it. */
  lemma UndoRedoKeepScript(h: History)
    ensures Script(Undone(h)) == Script(h) && Script(Redone(h)) == Script(h)
  {
    if h.ops != [] {
      var last := h.ops[|h.ops| - 1];
      assert (h.redoStack + [last])[..|h.redoStack|] == h.redoStack;
      assert h.ops == h.ops[..|h.ops| - 1] + [last];
    }
  }

  /** What is in force alone folds without error, and so does the next redo. */
  lemma ReplayableMeans(source: Timeline, h: History)
    requires Replayable(source, h)
    ensures ApplyEdits(source, h.ops).Ok? && Replayable(source, Undone(h)) && Replayable(source, Redone(h))
    ensures h.redoStack != [] ==> ApplyEdits(source, h.ops + [h.redoStack[|h.redoStack| - 1]]).Ok?
  {
    ApplyEditsAppends(source, h.ops, Reverse(h.redoStack));
    UndoRedoKeepScript(h);
    var next := Redone(h);
    ApplyEditsAppends(source, next.ops, Reverse(next.redoStack));
  }

  lemma PerformKeepsReplayable(source: Timeline, h: History, c: Command)
    requires Replayable(source, h)
    ensures Replayable(source, Perform(source, h, c))
  {
    match c
    case Apply(op) => assert h.ops + [op] + [] == h.ops + [op];
    case Undo => UndoRedoKeepScript(h);
    case Redo => UndoRedoKeepScript(h);
    case Reset =>
  }

  /** Every state a session reaches is replayable: no result and no redo can fail. */
  function Run(source: Timeline, h: History, cs: seq<Command>): (r: History)
    requires Replayable(source, h)
    ensures Replayable(source, r)
    decreases |cs|
  {
    if cs == [] then h
    else
      PerformKeepsReplayable(source, h, cs[0]);
      Run(source, Perform(source, h, cs[0]), cs[1..])
  }

  // ------------------------------------------------------- undoing and redoing

  function UndoMany(h: History, n: nat): History
    decreases n
  {
    if n == 0 then h else UndoMany(Undone(h), n - 1)
  }

  function RedoMany(h: History, n: nat): History
    decreases n
  {
    if n == 0 then h else RedoMany(Redone(h), n - 1)
  }

  /** What is taken off last comes first when reversed. */
  lemma ReversedFirst<T>(before: seq<T>, front: seq<T>, last: T)
    ensures before + Reverse(front + [last]) == before + [last] + Reverse(front)
  {
    assert (front + [last])[..|front|] == front;
  }

  /** Undoing takes operations off the end, one by one. */
  lemma {:induction false} UndoMoves(front: seq<EditOperation>, back: seq<EditOperation>, redoStack: seq<EditOperation>)
    ensures UndoMany(History(front + back, redoStack), |back|) == History(front, redoStack + Reverse(back))
    decreases |back|
  {
    if back == [] {
      assert front + back == front && redoStack + [] == redoStack;
    } else {
      hide Reverse;
      var init, last := back[..|back| - 1], back[|back| - 1];
      assert back == init + [last] && front + back == (front + init) + [last];
      assert ((front + init) + [last])[..|front + init|] == front + init;
      ReversedFirst(redoStack, init, last);
      UndoMoves(front, init, redoStack + [last]);
    }
  }

  lemma UndoManyMoves(h: History, n: nat)
    requires n <= |h.ops|
    ensures UndoMany(h, n) == History(h.ops[..|h.ops| - n], h.redoStack + Reverse(h.ops[|h.ops| - n..]))
  {
    hide UndoMany, Reverse;
    var front, back := h.ops[..|h.ops| - n], h.ops[|h.ops| - n..];
    assert h.ops == front + back;
    UndoMoves(front, back, h.redoStack);
  }

  lemma {:induction false} UndoManyStops(h: History, n: nat)
    requires n >= |h.ops|
    ensures UndoMany(h, n) == UndoMany(h, |h.ops|)
    decreases n
  {
    if n > 0 {
      UndoManyStops(Undone(h), n - 1);
      if h.ops == [] {
        assert Undone(h) == h;
      }
    }
  }

  /** Redoing takes operations back, one by one, and then does nothing more. */
  lemma {:induction false} RedoMoves(ops: seq<EditOperation>, front: seq<EditOperation>, back: seq<EditOperation>, more: nat)
    requires front == [] || more == 0
    ensures RedoMany(History(ops, front + back), |back| + more) == History(ops + Reverse(back), front)
    decreases |back| + more
  {
    if back == [] {
      assert front + back == front && ops + [] == ops;
      if more > 0 {
        RedoMoves(ops, front, back, more - 1);
      }
    } else {
      hide Reverse;
      var init, last := back[..|back| - 1], back[|back| - 1];
      assert back == init + [last] && front + back == (front + init) + [last];
      assert ((front + init) + [last])[..|front + init|] == front + init;
      ReversedFirst(ops, init, last);
      RedoMoves(ops + [last], front, init, more);
    }
  }

  lemma RedoManyMoves(h: History, n: nat)
    ensures var k := if n <= |h.redoStack| then n else |h.redoStack|;
            RedoMany(h, n) ==
              History(h.ops + Reverse(h.redoStack[|h.redoStack| - k..]), h.redoStack[..|h.redoStack| - k])
  {
    hide RedoMany, Reverse;
    var k := if n <= |h.redoStack| then n else |h.redoStack|;
    var front, back := h.redoStack[..|h.redoStack| - k], h.redoStack[|h.redoStack| - k..];
    assert h.redoStack == front + back;
    RedoMoves(h.ops, front, back, n - k);
  }

  lemma {:induction false} ReverseTwice<T>(s: seq<T>)
    ensures |Reverse(s)| == |s| && Reverse(Reverse(s)) == s
  {
    if s != [] {
      var front, last := s[..|s| - 1], s[|s| - 1];
      ReverseTwice(front);
      ReverseAppends([last], Reverse(front));
      assert Reverse([last]) == [last];
    }
  }

  lemma {:induction false} ReverseAppends<T>(a: seq<T>, b: seq<T>)
    ensures Reverse(a + b) == Reverse(b) + Reverse(a)
  {
    if b == [] {
      assert a + b == a;
    } else {
      assert (a + b)[..|a + b| - 1] == a + b[..|b| - 1];
      ReverseAppends(a, b[..|b| - 1]);
    }
  }

  /** Redoing what was undone puts it back: the newest of the redo stack, in reverse. */
  lemma RedoPutsBack(h: History, k: nat)
    requires k <= |h.ops|
    ensures RedoMany(UndoMany(h, k), k) == h
  {
    hide UndoMany, RedoMany, Reverse;
    var taken, rest := h.ops[|h.ops| - k..], h.ops[..|h.ops| - k];
    var u := UndoMany(h, k);
    UndoManyMoves(h, k);
    ReverseTwice(taken);
    RedoManyMoves(u, k);
    assert u.redoStack[|u.redoStack| - k..] == Reverse(taken);
    assert u.redoStack[..|u.redoStack| - k] == h.redoStack;
    assert h.ops == rest + taken;
  }

  /** More redos than there were operations to undo also redo what had been undone before. */
  lemma RedoGoesFurther(h: History, n: nat)
    requires n > |h.ops|
    ensures RedoMany(UndoMany(h, n), n) == h <==> h.redoStack == []
  {
    hide UndoMany, RedoMany, Reverse;
    var k := |h.ops|;
    var u := UndoMany(h, n);
    UndoManyStops(h, n);
    UndoManyMoves(h, k);
    assert h.ops[0..] == h.ops;
    ReverseTwice(h.ops);
    RedoManyMoves(u, n);
    assert |u.redoStack| == |h.redoStack| + k;
    if h.redoStack == [] {
      RedoPutsBack(h, k);
      RedoManyMoves(u, k);
    }
  }

  /**
   * n undos and then n redos restore the session, exactly when there are n
   * operations to undo or nothing was undone before.
   */
  lemma UndoManyRedoMany(h: History, n: nat)
    ensures RedoMany(UndoMany(h, n), n) == h <==> n <= |h.ops| || h.redoStack == []
  {
    if n <= |h.ops| {
      RedoPutsBack(h, n);
    } else {
      RedoGoesFurther(h, n);
    }
  }

  // ------------------------------------------------------------ the controller

  class EditSessionController {
    const source: Timeline
    var ops: seq<EditOperation>
    var redoStack: seq<EditOperation>

    constructor (source: Timeline)
      ensures Valid() && this.source == source && State() == History([], [])
    {
      this.source, ops, redoStack := source, [], [];
    }

    function State(): History
      reads this
    {
      History(ops, redoStack)
    }

    ghost predicate Valid()
      reads this
    {
      Replayable(source, State())
    }

    /** The timeline after folding every recorded operation over the source. It never fails. */
    method Result() returns (t: Timeline)
      requires Valid()
      ensures ApplyEdits(source, ops) == Ok(t)
    {
      ReplayableMeans(source, State());
      t := ApplyEdits(source, ops).value;
    }

    /** Append an operation, if the reducer accepts it; otherwise nothing changes. */
    method Apply(op: EditOperation) returns (r: Result<(), RangeError>)
      requires Valid()
      modifies this
      ensures Valid() && State() == Perform(source, old(State()), Command.Apply(op))
      ensures r.Ok? <==> ApplyEdits(source, old(ops) + [op]).Ok?
      ensures r.Ok? ==> ops == old(ops) + [op] && redoStack == []
      ensures r.Err? ==> ops == old(ops) && redoStack == old(redoStack)
    {
      PerformKeepsReplayable(source, State(), Command.Apply(op));
      var next := ops + [op];
      var folded := ApplyEdits(source, next);
      if folded.Err? {
        return Err(folded.error);
      }
      ops := next;
      redoStack := [];
      r := Ok(());
    }

    method Undo()
      requires Valid()
      modifies this
      ensures Valid() && State() == Perform(source, old(State()), Command.Undo)
      ensures old(ops) == [] ==> ops == [] && redoStack == old(redoStack)
      ensures old(ops) != [] ==>
                redoStack != [] && old(ops) == ops + [redoStack[|redoStack| - 1]] &&
                old(redoStack) == redoStack[..|redoStack| - 1]
    {
      PerformKeepsReplayable(source, State(), Command.Undo);
      if |ops| > 0 {
        var last := ops[|ops| - 1];
        ops := ops[..|ops| - 1];
        redoStack := redoStack + [last];
      }
    }

    method Redo()
      requires Valid()
      modifies this
      ensures Valid() && State() == Perform(source, old(State()), Command.Redo)
      ensures old(redoStack) == [] ==> ops == old(ops) && redoStack == []
      ensures old(redoStack) != [] ==>
                ops == old(ops) + [old(redoStack)[|old(redoStack)| - 1]] &&
                redoStack == old(redoStack)[..|old(redoStack)| - 1]
    {
      PerformKeepsReplayable(source, State(), Command.Redo);
      if |redoStack| > 0 {
        var op := redoStack[|redoStack| - 1];
        redoStack := redoStack[..|redoStack| - 1];
        ops := ops + [op];
      }
    }

    method Reset()
      modifies this
      ensures Valid() && State() == Perform(source, old(State()), Command.Reset)
      ensures ops == [] && redoStack == []
    {
      ops, redoStack := [], [];
    }
  }
}
