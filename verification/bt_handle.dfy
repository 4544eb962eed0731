/** The runtime as the library has it: methods that update the node table in place,
    each proved to do what the tree semantics says. */
module BtHandle {
  import opened Wrappers
  import opened BtTypes
  import opened BtArena
  import opened BtLinks
  import Sem = BtSemantics
  import Runs = BtRuns

  lemma BranchOff(t: Tree, i: nat, r: Sem.State)
    requires i < |t.kids|
    ensures i < |Sem.Unfocus(t, i, r).t.kids|
    ensures Sem.Unfocus(t, i, Sem.SetRun(r, r.t.run.(branchPrepared := false))) ==
      Sem.SetBranch(Sem.Unfocus(t, i, r), i, false)
  {
    hide ShapeOf;
  }

  class Handle {
    const m: nat
    const maxNodes: nat
    const maxDepth: nat
    var nodes: array<Entry>
    var count: nat
    var root: nat
    var busy: bool
    var script: seq<Answer>
    ghost var trace: seq<Event>

    ghost function Table(): seq<Entry>
      reads this`nodes, this`count, nodes
    {
      if count < nodes.Length then nodes[..count + 1] else []
    }

    ghost predicate Valid()
      reads this`nodes, this`count, nodes
    {
      nodes.Length == maxNodes + 1 && count <= maxNodes && Linked(Table()) && CursorsOk(Table())
    }

    /** The state of the subtree at id, as the semantics sees it. */
    ghost function S(id: nat): Sem.State
      reads this`nodes, this`count, this`script, this`trace, nodes
    {
      Sem.State(script, trace,
        if Valid() && 1 <= id <= count then TreeOf(Table(), id) else Node(NOTHING, FreshRun(NOTHING), []))
    }

    /** The table is valid, id names a node, and since table o nothing outside the
        subtree of id has changed. */
    ghost predicate At(o: seq<Entry>, id: nat)
      reads this`nodes, this`count, nodes
    {
      Valid() && 1 <= id <= count && Only(o, Table(), id)
    }

    function NextAnswer(): (a: Answer)
      reads this`script
      ensures forall t, tr :: a == Sem.Next(Sem.State(script, tr, t))
    {
      if script == [] then DEFAULT_ANSWER else script[0]
    }

    // ---- elementary steps ----------------------------------------------------------------

    /** A callback that returns something has been made. */
    method Called(id: nat, ghost e: Event, ghost o: seq<Entry>)
      requires At(o, id)
      modifies this`script, this`trace
      ensures At(o, id) && S(id) == Sem.Call(old(S(id)), e)
    {
      script := if script == [] then [] else script[1..];
      trace := trace + [e];
    }

    /** A void callback or a silent action. */
    method Noted(id: nat, ghost e: Event, ghost o: seq<Entry>)
      requires At(o, id)
      modifies this`trace
      ensures At(o, id) && S(id) == Sem.Note(old(S(id)), e)
    {
      trace := trace + [e];
    }

    method Get(id: nat, ghost o: seq<Entry>) returns (e: Entry)
      requires At(o, id)
      ensures Mirrors(e, S(id).t) && e.run.cursor >= 0 && |S(id).t.kids| == |Kids(o, id)|
      ensures Nth(Kids(o, id), e.run.cursor, S(id).t.run.cursor)
      ensures Nth(Kids(o, id), e.link.firstChild, if Kids(o, id) == [] then NO_CHILD else 0)
    {
      hide TreeOf, CursorsOk, Lineage, Only;
      e := nodes[id];
      assert Linked(o) && SameLinks(o, Table()) by { OnlyParts(o, Table(), id); }
      CursorHere(Table(), id);
      ReadEntry(Table(), id);
      KidsSame(o, Table(), id);
    }

    /** The sibling after child i. */
    method NextOf(id: nat, c: nat, ghost i: nat, ghost o: seq<Entry>) returns (next: nat)
      requires At(o, id) && c != 0 && Nth(Kids(o, id), c, i)
      ensures Nth(Kids(o, id), next, if i + 1 < |Kids(o, id)| then i + 1 else NO_CHILD)
    {
      hide TreeOf, CursorsOk, Lineage, Only, Under;
      ghost var t := Table();
      OnlyParts(o, t, id);
      KidsSame(o, t, id);
      KidStep(t, id, i);
      assert t[c] == nodes[c];
      next := nodes[c].link.nextSibling;
    }

    /** Writes a run state whose cursor names child i. */
    method Put(id: nat, r: Run, ghost i: int, ghost o: seq<Entry>)
      requires At(o, id) && r.cursor >= 0 && Nth(Kids(o, id), r.cursor, i)
      modifies nodes
      ensures At(o, id) && S(id) == Sem.SetRun(old(S(id)), r.(cursor := i))
    {
      hide TreeOf, Lineage, Only, Under, KidsOf;
      ghost var t := Table();
      assert Linked(o) && SameLinks(o, t) by { OnlyParts(o, t, id); }
      KidsSame(o, t, id);
      nodes[id] := nodes[id].(run := r);
      assert Table() == t[id := t[id].(run := r)];
      PutView(t, id, r, i);
      OnlyTrans(o, t, Table(), id);
    }

    /** Writes a run state with the cursor it has. */
    method PutRun(id: nat, r: Run, ghost o: seq<Entry>)
      requires At(o, id) && r.cursor >= 0 && Nth(Kids(o, id), r.cursor, S(id).t.run.cursor)
      modifies nodes
      ensures At(o, id) && S(id) == Sem.SetRun(old(S(id)), r.(cursor := old(S(id)).t.run.cursor))
    {
      hide At, S, Kids, ShapeOf;
      Put(id, r, S(id).t.run.cursor, o);
    }

    method PutLast(id: nat, st: Status, ghost o: seq<Entry>)
      requires At(o, id)
      modifies nodes
      ensures At(o, id) && S(id) == Sem.SetLast(old(S(id)), st)
    {
      hide At, S, Kids, ShapeOf;
      var e := Get(id, o);
      PutRun(id, e.run.(last := st), o);
    }

    method PutCursor(id: nat, c: nat, ghost i: int, ghost o: seq<Entry>)
      requires At(o, id) && Nth(Kids(o, id), c, i)
      modifies nodes
      ensures At(o, id) && S(id) == Sem.SetCursor(old(S(id)), i)
    {
      hide At, S, Kids, ShapeOf;
      var e := Get(id, o);
      Put(id, e.run.(cursor := c), i, o);
    }

    /** Going down to child i: its state is the focused state of the parent. */
    lemma EnterKid(id: nat, c: nat, i: nat, o: seq<Entry>)
      requires At(o, id) && c != 0 && Nth(Kids(o, id), c, i)
      ensures At(Table(), c) && id < c <= count && i < |S(id).t.kids| && S(c) == Sem.Focus(S(id), i)
    {
      hide CursorsOk, Lineage, Under;
      var t := Table();
      OnlyParts(o, t, id);
      KidsSame(o, t, id);
      KidTree(t, id, i);
      OnlyRefl(t, c);
    }

    /** Coming back from child i, of which t was the table before. */
    lemma LeaveKid(t: seq<Entry>, id: nat, c: nat, i: nat, o: seq<Entry>)
      requires Only(o, t, id) && 1 <= id < |t| && c != 0 && Nth(Kids(o, id), c, i) && At(t, c)
      ensures At(o, id) && Linked(t) && i < |TreeOf(t, id).kids|
      ensures S(id) == Sem.Unfocus(TreeOf(t, id), i, S(c))
    {
      hide CursorsOk, Lineage, Under, TreeOf;
      OnlyParts(o, t, id);
      KidsSame(o, t, id);
      OnlyParts(t, Table(), c);
      WriteKid(t, Table(), id, i);
      OnlyTrans(o, t, Table(), id);
    }

    /** What At says about the table, for those who need it. */
    lemma Here(o: seq<Entry>, id: nat)
      requires At(o, id)
      ensures Only(o, Table(), id) && 1 <= id < |Table()| && S(id).t == TreeOf(Table(), id)
    {
    }

    // ---- reset ------------------------------------------------------------------------------

    method ResetNode(id: nat, clear: bool, ghost o: seq<Entry>)
      requires At(o, id)
      modifies this`trace, nodes
      ensures At(o, id) && S(id) == Sem.ResetNode(old(S(id)), clear)
      decreases count - id, 2
    {
      hide At, S, Kids, ShapeOf, Sem.ResetKids, Sem.Clear;
      ghost var s0 := S(id);
      var node := ClearNode(id, clear, o);
      ResetChildren(id, clear, o);
      if node.cfg.kind == Pipeline && node.run.prepared {
        Noted(id, PipelineAbort(s0.t.cfg.path, node.run.counter, node.cfg.abort), o);
      }
      if node.cfg.kind == ConsumeQueue && node.run.prepared {
        Noted(id, QueueAbort(s0.t.cfg.path, node.cfg.abort), o);
      }
    }

    /** Halts a running leaf and clears the node's own fields; returns what they were. */
    method ClearNode(id: nat, clear: bool, ghost o: seq<Entry>) returns (node: Entry)
      requires At(o, id)
      modifies this`trace, nodes
      ensures At(o, id) && S(id) == Sem.Clear(old(S(id)), clear) && Mirrors(node, old(S(id)).t)
    {
      hide At, S, Kids, ShapeOf;
      ghost var s0 := S(id);
      node := Get(id, o);
      var keepOnce := !clear && node.cfg.kind == RunOnce && node.run.runOnceComplete;
      var keepEntry := !clear && node.cfg.kind == EntryUpdated && node.run.observed;
      if node.cfg.kind == Leaf && node.run.running {
        Noted(id, Halt(s0.t.cfg.path, node.cfg.halt), o);
      }
      Put(id, Run(if keepOnce || keepEntry then node.run.last else Failure,
                  0, 0, node.run.limit, node.run.duration, 0, 0, false, false, false,
                  keepOnce, keepEntry, false, node.run.branchPrepared,
                  node.cfg.kind != Leaf && node.run.running), NO_CHILD, o);
    }

    /** Walks the sibling chain of the children. */
    method ResetChildren(id: nat, clear: bool, ghost o: seq<Entry>)
      requires At(o, id)
      modifies this`trace, nodes
      ensures At(o, id) && S(id) == Sem.ResetKids(old(S(id)), 0, clear)
      decreases count - id, 1
    {
      hide At, S, Kids, ShapeOf, Sem.ResetChild;
      ghost var s0 := S(id);
      var node := Get(id, o);
      var child := node.link.firstChild;
      ghost var i := 0;
      while child != 0
        invariant At(o, id) && |S(id).t.kids| == |Kids(o, id)| && 0 <= i <= |Kids(o, id)|
        invariant Nth(Kids(o, id), child, if i < |Kids(o, id)| then i else NO_CHILD)
        invariant Sem.ResetKids(S(id), i, clear) == Sem.ResetKids(s0, 0, clear)
        decreases |Kids(o, id)| - i
      {
        var next := NextOf(id, child, i, o);
        ResetChildAt(id, child, i, clear, o);
        child, i := next, i + 1;
      }
    }

    /** One child of a node that is being reset. */
    method ResetChildAt(id: nat, c: nat, ghost i: nat, clear: bool, ghost o: seq<Entry>)
      requires At(o, id) && c != 0 && Nth(Kids(o, id), c, i) && i < |S(id).t.kids|
      modifies this`trace, nodes
      ensures At(o, id) && S(id) == Sem.ResetChild(old(S(id)), i, clear)
      decreases count - id, 0
    {
      hide At, S, Kids, ShapeOf, Sem.ResetNode, Sem.SetBranch, Sem.SetRun, Table;
      ghost var s0, t := S(id), Table();
      Here(o, id);
      EnterKid(id, c, i, o);
      var node := Get(id, o);
      var branch := UnmarkAndReset(c, node.cfg.kind == Parallel, clear, t);
      LeaveKid(t, id, c, i, o);
      BranchOff(s0.t, i, Sem.ResetNode(Sem.Focus(s0, i), clear));
      if branch {
        Noted(id, BranchAbort(s0.t.cfg.path, s0.t.kids[i].cfg.path, i, node.cfg.abort), o);
      }
    }

    /** Clears the marker of a Parallel's child before resetting it; tells whether it was set. */
    method UnmarkAndReset(id: nat, parallel: bool, clear: bool, ghost o: seq<Entry>) returns (branch: bool)
      requires At(o, id)
      modifies this`trace, nodes
      ensures At(o, id) && branch == (parallel && old(S(id)).t.run.branchPrepared)
      ensures var r := Sem.ResetNode(old(S(id)), clear);
        S(id) == if branch then Sem.SetRun(r, r.t.run.(branchPrepared := false)) else r
      decreases count - id, 3
    {
      hide At, S, Kids, ShapeOf, Sem.ResetNode;
      ghost var s0 := S(id);
      var e := Get(id, o);
      branch := parallel && e.run.branchPrepared;
      if branch {
        PutRun(id, e.run.(branchPrepared := false), o);
        Sem.MarkerCommutes(s0, clear, false);
      }
      ResetNode(id, clear, o);
    }

    method ResetKid(id: nat, c: nat, ghost i: int, clear: bool, ghost o: seq<Entry>)
      requires At(o, id) && Nth(Kids(o, id), c, i)
      modifies this`trace, nodes
      ensures At(o, id) && S(id) == Sem.ResetKid(old(S(id)), i, clear)
    {
      hide At, S, Kids, ShapeOf, Sem.ResetNode;
      if c != 0 {
        ghost var t := Table();
        Here(o, id);
        EnterKid(id, c, i, o);
        ResetNode(c, clear, t);
        LeaveKid(t, id, c, i, o);
      }
    }

    method End(id: nat, st: Status, ghost o: seq<Entry>)
      requires At(o, id)
      modifies this`trace, nodes
      ensures At(o, id) && Sem.Out(S(id), Ok, st) == Sem.End(old(S(id)), st)
    {
      hide At, S, Kids, ShapeOf, Sem.ResetNode;
      ResetNode(id, false, o);
      PutLast(id, st, o);
    }

    method Report(id: nat, st: Status, ghost o: seq<Entry>)
      requires At(o, id)
      modifies nodes
      ensures At(o, id) && Sem.Out(S(id), Ok, st) == Sem.Report(old(S(id)), st)
    {
      hide At, S, Kids, ShapeOf;
      PutLast(id, st, o);
    }

    // ---- tick ---------------------------------------------------------------------------------

    method TickNode(id: nat, ghost o: seq<Entry>) returns (code: Code, status: Status)
      requires At(o, id)
      modifies this`script, this`trace, nodes
      ensures At(o, id) && Sem.Out(S(id), code, status) == Sem.TickNode(m, old(S(id)))
      decreases count - id, 6
    {
      hide At, S, Kids, ShapeOf, Sem.TickImpl;
      code, status := TickImpl(id, o);
      if code.Ok? {
        var e := Get(id, o);
        PutRun(id, e.run.(evaluated := true), o);
      }
    }

    method TickImpl(id: nat, ghost o: seq<Entry>) returns (code: Code, status: Status)
      requires At(o, id)
      modifies this`script, this`trace, nodes
      ensures At(o, id) && Sem.Out(S(id), code, status) == Sem.TickImpl(m, old(S(id)))
      decreases count - id, 5
    {
      hide At, S, Kids, ShapeOf, Sem.Dispatch, Sem.Resolved;
      code := ResolveParameters(id, o);
      if !code.Ok? { return code, Failure; }
      code, status := Dispatch(id, o);
    }

    method ResolveParameters(id: nat, ghost o: seq<Entry>) returns (code: Code)
      requires At(o, id)
      modifies this`script, this`trace, nodes
      ensures At(o, id) && Sem.Out(S(id), code, Failure) == Sem.Resolved(m, old(S(id)))
    {
      hide At, S, Kids, ShapeOf;
      ghost var s0 := S(id);
      var e := Get(id, o);
      if e.cfg.resolver.NoResolver? {
        PutRun(id, e.run.(evaluated := false), o);
        return Ok;
      }
      var a := NextAnswer();
      assert a == Sem.Next(s0) by { Upcoming(id); }
      Called(id, Event.Resolve(s0.t.cfg.path, a.code), o);
      if !a.code.Ok? { return a.code; }
      if e.cfg.resolver.LimitResolver? {
        if a.limit > m { return EInval; }
        PutRun(id, e.run.(limit := a.limit, evaluated := false), o);
      } else {
        var d := if e.run.timerStarted then Deadline(e.run.timerBegan, a.duration) else e.run.deadline;
        PutRun(id, e.run.(duration := a.duration, deadline := d, evaluated := false), o);
      }
      return Ok;
    }

    lemma Upcoming(id: nat)
      ensures NextAnswer() == Sem.Next(S(id))
    {
    }

    method Dispatch(id: nat, ghost o: seq<Entry>) returns (code: Code, status: Status)
      requires At(o, id)
      modifies this`script, this`trace, nodes
      ensures At(o, id) && Sem.Out(S(id), code, status) == Sem.Dispatch(m, old(S(id)))
      decreases count - id, 4
    {
      hide At, S, Kids, ShapeOf, Sem.TickLeaf, Sem.TickDecorator, Sem.ChildLoop, Sem.RepeatLoop, Sem.RetryLoop, Sem.End,
        Sem.TickPipeline, Sem.TickEntry, Sem.TickQueue, Sem.TickGuarded, Sem.TickWhile, Sem.TickSwitch,
        Sem.TickParallel,
        Sem.ReactiveLoop, Sem.TickKeepRunning, Sem.TickRunOnce, Sem.TickTimeout, Sem.TickDelay;
      var e := Get(id, o);
      match e.cfg.kind {
        case Leaf => code, status := TickLeaf(id, o);
        case Inverter => code, status := TickDecorator(id, o);
        case ForceSuccess => code, status := TickDecorator(id, o);
        case ForceFailure => code, status := TickDecorator(id, o);
        case Sequence => code, status := TickChildren(id, Success, o);
        case Fallback => code, status := TickChildren(id, Failure, o);
        case ReactiveFallback =>
          if e.link.firstChild == 0 { return EInval, Failure; }
          code, status := TickReactive(id, o, Failure);
        case ReactiveSequence =>
          if e.link.firstChild == 0 { return EInval, Failure; }
          code, status := TickReactive(id, o, Success);
        case Repeat => code, status := TickRepeat(id, o);
        case Retry => code, status := TickRetry(id, o);
        case KeepRunning => code, status := TickKeepRunning(id, o);
        case RunOnce => code, status := TickRunOnce(id, o);
        case Timeout => code, status := TickTimeout(id, o);
        case Delay => code, status := TickDelay(id, o);
        case Pipeline => code, status := TickPipeline(id, o);
        case EntryUpdated => code, status := TickEntry(id, o);
        case ConsumeQueue => code, status := TickQueue(id, o);
        case Precondition => code, status := TickGuarded(id, o);
        case IfThenElse => code, status := TickGuarded(id, o);
        case WhileDo => code, status := TickWhile(id, o);
        case Switch => code, status := TickSwitch(id, o);
        case Parallel => code, status := TickParallel(id, o);
      }
    }

    /** Ticks child i; a missing child is an API error. */
    method TickChild(id: nat, c: nat, ghost i: int, ghost o: seq<Entry>) returns (code: Code, status: Status)
      requires At(o, id) && Nth(Kids(o, id), c, i)
      modifies this`script, this`trace, nodes
      ensures At(o, id) && Sem.Out(S(id), code, status) == Sem.TickKid(m, old(S(id)), i)
      decreases count - id, 0, 0
    {
      hide At, S, Kids, ShapeOf, Sem.TickNode;
      if c == 0 { return EInval, Failure; }
      ghost var t := Table();
      Here(o, id);
      EnterKid(id, c, i, o);
      code, status := TickNode(c, t);
      LeaveKid(t, id, c, i, o);
    }

    method TickLeaf(id: nat, ghost o: seq<Entry>) returns (code: Code, status: Status)
      requires At(o, id)
      modifies this`script, this`trace, nodes
      ensures At(o, id) && Sem.Out(S(id), code, status) == Sem.TickLeaf(old(S(id)))
    {
      hide At, S, Kids, ShapeOf;
      ghost var s0 := S(id);
      var a := NextAnswer();
      assert a == Sem.Next(s0) by { Upcoming(id); }
      Called(id, Handler(s0.t.cfg.path, a.status), o);
      if a.status.None? { return EInval, Failure; }
      var e := Get(id, o);
      PutRun(id, e.run.(running := a.status.value == Running, last := a.status.value), o);
      return Ok, a.status.value;
    }

    method TickDecorator(id: nat, ghost o: seq<Entry>) returns (code: Code, status: Status)
      requires At(o, id)
      modifies this`script, this`trace, nodes
      ensures At(o, id) && Sem.Out(S(id), code, status) == Sem.TickDecorator(m, old(S(id)))
      decreases count - id, 2
    {
      hide At, S, Kids, ShapeOf, Sem.TickKid, Sem.End, Sem.Report;
      var e := Get(id, o);
      var child: nat := if e.run.cursor != 0 then e.run.cursor else e.link.firstChild;
      code, status := TickChild(id, child, Sem.ResumeAt(S(id).t), o);
      if !code.Ok? { return code, Failure; }
      if e.cfg.kind == Inverter {
        if status == Success { status := Failure; } else if status == Failure { status := Success; }
      } else if e.cfg.kind == ForceSuccess {
        if status != Running { status := Success; }
      } else if e.cfg.kind == ForceFailure {
        if status != Running { status := Failure; }
      }
      Report(id, status, o);
    }

    /** Reads child i. */
    method GetKid(id: nat, c: nat, ghost i: nat, ghost o: seq<Entry>) returns (e: Entry)
      requires At(o, id) && c != 0 && Nth(Kids(o, id), c, i) && i < |S(id).t.kids|
      ensures Mirrors(e, S(id).t.kids[i])
    {
      hide At, S, Kids, ShapeOf;
      EnterKid(id, c, i, o);
      e := Get(c, Table());
    }

    /** Counts a finished cycle of a loop and re-arms its child. */
    method NextCycle(id: nat, c: nat, ghost i: int, ghost o: seq<Entry>)
      requires At(o, id) && Nth(Kids(o, id), c, i)
      modifies this`trace, nodes
      ensures At(o, id) && S(id) == Sem.NextCycle(old(S(id)), i)
    {
      hide At, S, Kids, ShapeOf, Sem.ResetKid;
      var e := Get(id, o);
      PutRun(id, e.run.(counter := e.run.counter + 1), o);
      ResetKid(id, c, i, false, o);
    }

    method Fail(id: nat, code: Code, ghost o: seq<Entry>)
      requires At(o, id)
      modifies this`trace, nodes
      ensures At(o, id) && Sem.Out(S(id), code, Failure) == Sem.Fail(old(S(id)), code)
    {
      hide At, S, Kids, ShapeOf, Sem.ResetNode;
      ResetNode(id, false, o);
    }

    method TickReactive(id: nat, ghost o: seq<Entry>, go: Status) returns (code: Code, status: Status)
      requires At(o, id) && go != Running
      modifies this`script, this`trace, nodes
      ensures At(o, id) && Sem.Out(S(id), code, status) == Sem.ReactiveLoop(m, old(S(id)), 0, go)
      decreases count - id, 2
    {
      hide At, S, Kids, ShapeOf, Sem.TickKid, Sem.End, Sem.Report, Sem.ResetLater;
      ghost var s0 := S(id);
      var e := Get(id, o);
      var child := e.link.firstChild;
      ghost var i := 0;
      ghost var goal := Sem.ReactiveLoop(m, s0, 0, go);
      while child != 0
        invariant At(o, id) && |S(id).t.kids| == |Kids(o, id)| && 0 <= i <= |Kids(o, id)|
        invariant Nth(Kids(o, id), child, if i < |Kids(o, id)| then i else NO_CHILD)
        invariant Sem.ReactiveLoop(m, S(id), i, go) == goal
        decreases |Kids(o, id)| - i
      {
        var next := NextOf(id, child, i, o);
        code, status := TickChild(id, child, i, o);
        if !code.Ok? { return code, Failure; }
        if status == Running {
          ResetLater(id, next, i + 1, o);
          PutCursor(id, child, i, o);
          Report(id, Running, o);
          return Ok, Running;
        }
        if status != go {
          End(id, status, o);
          return Ok, status;
        }
        child, i := next, i + 1;
      }
      End(id, go, o);
      return Ok, go;
    }

    /** Resets the children from j on. */
    method ResetLater(id: nat, first: nat, ghost j: nat, ghost o: seq<Entry>)
      requires At(o, id) && j <= |S(id).t.kids| == |Kids(o, id)|
      requires Nth(Kids(o, id), first, if j < |Kids(o, id)| then j else NO_CHILD)
      modifies this`trace, nodes
      ensures At(o, id) && S(id) == Sem.ResetLater(old(S(id)), j)
    {
      hide At, S, Kids, ShapeOf, Sem.ResetKid;
      ghost var goal := Sem.ResetLater(S(id), j);
      var later := first;
      ghost var i := j;
      while later != 0
        invariant At(o, id) && |S(id).t.kids| == |Kids(o, id)| && 0 <= i <= |Kids(o, id)|
        invariant Nth(Kids(o, id), later, if i < |Kids(o, id)| then i else NO_CHILD)
        invariant Sem.ResetLater(S(id), i) == goal
        decreases |Kids(o, id)| - i
      {
        var next := NextOf(id, later, i, o);
        ResetKid(id, later, i, false, o);
        later, i := next, i + 1;
      }
    }

    method TickRepeat(id: nat, ghost o: seq<Entry>) returns (code: Code, status: Status)
      requires At(o, id)
      modifies this`script, this`trace, nodes
      ensures At(o, id)
      ensures var s := old(S(id));
        Sem.Out(S(id), code, status) ==
        if s.t.run.limit == 0 then Sem.End(s, Success) else Sem.RepeatLoop(m, s, Sem.ResumeAt(s.t))
      decreases count - id, 2
    {
      hide At, S, Kids, ShapeOf, Sem.TickKid, Sem.End, Sem.Report, Sem.NextCycle;
      ghost var s0 := S(id);
      var e := Get(id, o);
      if e.run.limit == 0 {
        End(id, Success, o);
        return Ok, Success;
      }
      var first := e.link.firstChild;
      var child: nat := if e.run.cursor != 0 then e.run.cursor else first;
      ghost var i := Sem.ResumeAt(s0.t);
      ghost var goal := Sem.RepeatLoop(m, s0, i);
      while e.run.counter < e.run.limit
        invariant At(o, id) && |S(id).t.kids| == |Kids(o, id)| && Nth(Kids(o, id), child, i)
        invariant Mirrors(e, S(id).t) && Sem.RepeatLoop(m, S(id), i) == goal
        decreases e.run.limit - e.run.counter
      {
        code, status := TickChild(id, child, i, o);
        if !code.Ok? { return code, Failure; }
        if status == Running {
          Report(id, Running, o);
          return Ok, Running;
        }
        NextCycle(id, child, i, o);
        e := Get(id, o);
        child := first;
        i := if |Kids(o, id)| > 0 then 0 else NO_CHILD;
      }
      End(id, Success, o);
      return Ok, Success;
    }

    method TickRetry(id: nat, ghost o: seq<Entry>) returns (code: Code, status: Status)
      requires At(o, id)
      modifies this`script, this`trace, nodes
      ensures At(o, id)
      ensures var s := old(S(id));
        Sem.Out(S(id), code, status) ==
        if s.t.run.counter >= s.t.run.limit then Sem.End(s, Failure)
        else Sem.RetryLoop(m, s, Sem.ResumeAt(s.t))
      decreases count - id, 2
    {
      hide At, S, Kids, ShapeOf, Sem.TickKid, Sem.End, Sem.Report, Sem.NextCycle;
      ghost var s0 := S(id);
      var e := Get(id, o);
      if e.run.limit == 0 || e.run.counter >= e.run.limit {
        End(id, Failure, o);
        return Ok, Failure;
      }
      var first := e.link.firstChild;
      var child: nat := if e.run.cursor != 0 then e.run.cursor else first;
      ghost var i := Sem.ResumeAt(s0.t);
      ghost var goal := Sem.RetryLoop(m, s0, i);
      while true
        invariant At(o, id) && |S(id).t.kids| == |Kids(o, id)| && Nth(Kids(o, id), child, i)
        invariant e.run.counter < e.run.limit && Mirrors(e, S(id).t) && Sem.RetryLoop(m, S(id), i) == goal
        decreases e.run.limit - e.run.counter
      {
        code, status := TickChild(id, child, i, o);
        if !code.Ok? { return code, Failure; }
        if status == Running {
          Report(id, Running, o);
          return Ok, Running;
        }
        if status == Success {
          End(id, Success, o);
          return Ok, Success;
        }
        NextCycle(id, child, i, o);
        e := Get(id, o);
        if e.run.counter >= e.run.limit {
          End(id, Failure, o);
          return Ok, Failure;
        }
        child := first;
        i := if |Kids(o, id)| > 0 then 0 else NO_CHILD;
      }
    }

    method TickKeepRunning(id: nat, ghost o: seq<Entry>) returns (code: Code, status: Status)
      requires At(o, id)
      modifies this`script, this`trace, nodes
      ensures At(o, id) && Sem.Out(S(id), code, status) == Sem.TickKeepRunning(m, old(S(id)))
      decreases count - id, 2
    {
      hide At, S, Kids, ShapeOf, Sem.TickKid, Sem.End, Sem.Report, Sem.NextCycle;
      ghost var i := Sem.ResumeAt(S(id).t);
      var e := Get(id, o);
      var child: nat := if e.run.cursor != 0 then e.run.cursor else e.link.firstChild;
      if child == 0 { return EInval, Failure; }
      if e.run.limit == 0 || e.run.counter >= e.run.limit {
        End(id, Failure, o);
        return Ok, Failure;
      }
      code, status := TickChild(id, child, i, o);
      if !code.Ok? { return code, Failure; }
      if status == Running {
        Report(id, Running, o);
        return Ok, Running;
      }
      if status == Failure {
        End(id, Success, o);
        return Ok, Success;
      }
      NextCycle(id, child, i, o);
      e := Get(id, o);
      if e.run.counter >= e.run.limit {
        End(id, Failure, o);
        return Ok, Failure;
      }
      Report(id, Running, o);
      return Ok, Running;
    }

    method TickRunOnce(id: nat, ghost o: seq<Entry>) returns (code: Code, status: Status)
      requires At(o, id)
      modifies this`script, this`trace, nodes
      ensures At(o, id) && Sem.Out(S(id), code, status) == Sem.TickRunOnce(m, old(S(id)))
      decreases count - id, 2
    {
      hide At, S, Kids, ShapeOf, Sem.TickKid, Sem.End, Sem.Report;
      ghost var i := Sem.ResumeAt(S(id).t);
      var e := Get(id, o);
      if e.run.runOnceComplete { return Ok, e.run.last; }
      var child: nat := if e.run.cursor != 0 then e.run.cursor else e.link.firstChild;
      code, status := TickChild(id, child, i, o);
      if !code.Ok? { return code, Failure; }
      e := Get(id, o);
      PutRun(id, e.run.(runOnceComplete := status != Running), o);
      Report(id, status, o);
    }

    /** Reads the clock and starts the node's timer if it is not running. */
    method StartTimer(id: nat, ghost o: seq<Entry>) returns (now: nat, deadline: nat)
      requires At(o, id)
      modifies this`script, this`trace, nodes
      ensures At(o, id) && S(id) == Sem.StartTimer(old(S(id)))
      ensures now == Sem.Next(old(S(id))).now && deadline == S(id).t.run.deadline
    {
      hide At, S, Kids, ShapeOf;
      ghost var s0 := S(id);
      var a := NextAnswer();
      assert a == Sem.Next(s0) by { Upcoming(id); }
      now := a.now;
      Called(id, Clock(s0.t.cfg.path, now), o);
      var e := Get(id, o);
      deadline := e.run.deadline;
      if !e.run.timerStarted {
        deadline := Deadline(now, e.run.duration);
        PutRun(id, e.run.(timerStarted := true, timerBegan := now, deadline := deadline), o);
      }
    }

    method TickTimeout(id: nat, ghost o: seq<Entry>) returns (code: Code, status: Status)
      requires At(o, id)
      modifies this`script, this`trace, nodes
      ensures At(o, id) && Sem.Out(S(id), code, status) == Sem.TickTimeout(m, old(S(id)))
      decreases count - id, 2
    {
      hide At, S, Kids, ShapeOf, Sem.TickKid, Sem.End, Sem.Report, Sem.StartTimer;
      ghost var s0 := S(id);
      ghost var i := Sem.ResumeAt(s0.t);
      var e := Get(id, o);
      var child: nat := if e.run.cursor != 0 then e.run.cursor else e.link.firstChild;
      if child == 0 { return EInval, Failure; }
      var now, deadline := StartTimer(id, o);
      if now >= deadline {
        End(id, Failure, o);
        return Ok, Failure;
      }
      code, status := TickChild(id, child, i, o);
      if !code.Ok? { return code, Failure; }
      var a := NextAnswer();
      assert a == Sem.Next(S(id)) by { Upcoming(id); }
      Called(id, Clock(s0.t.cfg.path, a.now), o);
      if a.now >= deadline {
        End(id, Failure, o);
        return Ok, Failure;
      }
      if status == Running {
        Report(id, Running, o);
        return Ok, Running;
      }
      End(id, status, o);
    }

    method TickDelay(id: nat, ghost o: seq<Entry>) returns (code: Code, status: Status)
      requires At(o, id)
      modifies this`script, this`trace, nodes
      ensures At(o, id) && Sem.Out(S(id), code, status) == Sem.TickDelay(m, old(S(id)))
      decreases count - id, 3
    {
      hide At, S, Kids, ShapeOf, Sem.DelayChild, Sem.Report, Sem.StartTimer;
      ghost var i := Sem.ResumeAt(S(id).t);
      var e := Get(id, o);
      var child: nat := if e.run.cursor != 0 then e.run.cursor else e.link.firstChild;
      if child == 0 { return EInval, Failure; }
      if !e.run.delayElapsed {
        var now, deadline := StartTimer(id, o);
        if now < deadline {
          Report(id, Running, o);
          return Ok, Running;
        }
        e := Get(id, o);
        PutRun(id, e.run.(delayElapsed := true, timerStarted := false, deadline := 0, timerBegan := 0), o);
      }
      code, status := DelayChild(id, child, i, o);
    }

    method DelayChild(id: nat, child: nat, ghost i: int, ghost o: seq<Entry>) returns (code: Code, status: Status)
      requires At(o, id) && Nth(Kids(o, id), child, i)
      modifies this`script, this`trace, nodes
      ensures At(o, id) && Sem.Out(S(id), code, status) == Sem.DelayChild(m, old(S(id)), i)
      decreases count - id, 2
    {
      hide At, S, Kids, ShapeOf, Sem.TickKid, Sem.End, Sem.Report;
      code, status := TickChild(id, child, i, o);
      if !code.Ok? { return code, Failure; }
      if status == Running {
        Report(id, Running, o);
        return Ok, Running;
      }
      End(id, status, o);
    }

    /** The guard: a predicate callback, or the first of at least two children. */
    method AskGuard(id: nat, ghost o: seq<Entry>) returns (code: Code, status: Status)
      requires At(o, id)
      modifies this`script, this`trace, nodes
      ensures At(o, id) && Sem.Out(S(id), code, status) == Sem.AskGuard(m, old(S(id)))
      decreases count - id, 1
    {
      hide At, S, Kids, ShapeOf, Sem.TickKid, Sem.End, Sem.Report;
      ghost var s0 := S(id);
      var e := Get(id, o);
      if e.cfg.condition {
        var a := NextAnswer();
        assert a == Sem.Next(s0) by { Upcoming(id); }
        Called(id, Condition(s0.t.cfg.path, a.code, a.status), o);
        if !a.code.Ok? { return a.code, Failure; }
        if a.status.None? { return EInval, Failure; }
        return Ok, a.status.value;
      }
      var first := e.link.firstChild;
      if first == 0 { return EInval, Failure; }
      var second := NextOf(id, first, 0, o);
      if second == 0 { return EInval, Failure; }
      code, status := TickChild(id, first, 0, o);
    }

    /** Stops the branch under the cursor, if any. */
    method DropCursor(id: nat, ghost o: seq<Entry>)
      requires At(o, id)
      modifies this`trace, nodes
      ensures At(o, id) && S(id) == Sem.DropCursor(old(S(id)))
    {
      hide At, S, Kids, ShapeOf, Sem.ResetKid;
      var e := Get(id, o);
      if e.run.cursor != 0 {
        ResetKid(id, e.run.cursor, S(id).t.run.cursor, false, o);
        PutCursor(id, 0, NO_CHILD, o);
      }
    }

    /** Ticks one selected branch, stopping another one first. */
    method TickSelected(id: nat, selected: nat, ghost i: nat, ghost o: seq<Entry>) returns (code: Code, status: Status)
      requires At(o, id) && Nth(Kids(o, id), selected, if i < |Kids(o, id)| then i else NO_CHILD)
      modifies this`script, this`trace, nodes
      ensures At(o, id) && Sem.Out(S(id), code, status) == Sem.TickSelected(m, old(S(id)), i)
      decreases count - id, 2
    {
      hide At, S, Kids, ShapeOf, Sem.RunSelected, Sem.DropCursor;
      var e := Get(id, o);
      OneIndex(o, id, e.run.cursor, S(id).t.run.cursor, i);
      if e.run.cursor != 0 && e.run.cursor != selected {
        DropCursor(id, o);
      } else if e.run.cursor == 0 {
        NoCursor(S(id));
      }
      code, status := RunSelected(id, selected, i, o);
    }

    method RunSelected(id: nat, selected: nat, ghost i: nat, ghost o: seq<Entry>) returns (code: Code, status: Status)
      requires At(o, id) && Nth(Kids(o, id), selected, if i < |Kids(o, id)| then i else NO_CHILD)
      modifies this`script, this`trace, nodes
      ensures At(o, id) && Sem.Out(S(id), code, status) == Sem.RunSelected(m, old(S(id)), i)
      decreases count - id, 1
    {
      hide At, S, Kids, ShapeOf, Sem.TickKid, Sem.End, Sem.Report;
      if selected == 0 {
        MissingKid(id, i, o);
        return EInval, Failure;
      }
      code, status := TickChild(id, selected, i, o);
      if !code.Ok? { return code, Failure; }
      if status == Running {
        PutCursor(id, selected, i, o);
        Report(id, Running, o);
        return Ok, Running;
      }
      End(id, status, o);
    }

    /** An index beyond the last child names no child. */
    lemma MissingKid(id: nat, i: nat, o: seq<Entry>)
      requires At(o, id) && i >= |Kids(o, id)|
      ensures Sem.TickKid(m, S(id), i) == Sem.Err(S(id), EInval)
    {
      hide TreeOf, CursorsOk, Lineage, Only, Sem.TickNode;
      OnlyParts(o, Table(), id);
      KidsSame(o, Table(), id);
    }

    /** IfThenElse and Precondition. */
    method TickGuarded(id: nat, ghost o: seq<Entry>) returns (code: Code, status: Status)
      requires At(o, id)
      modifies this`script, this`trace, nodes
      ensures At(o, id) && Sem.Out(S(id), code, status) == Sem.TickGuarded(m, old(S(id)))
      decreases count - id, 3
    {
      hide At, S, Kids, ShapeOf, Sem.TickKid, Sem.End, Sem.Report, Sem.AskGuard, Sem.TickSelected, Sem.DropCursor, Nth;
      var e := Get(id, o);
      code, status := AskGuard(id, o);
      if !code.Ok? { return code, Failure; }
      if status == Running {
        DropCursor(id, o);
        Report(id, Running, o);
        return Ok, Running;
      }
      if e.cfg.kind == Precondition && status == Failure {
        End(id, Failure, o);
        return Ok, Failure;
      }
      var thenNode, elseNode := Branches(id, e.cfg.condition, o);
      ghost var first := if e.cfg.condition then 0 else 1;
      if e.cfg.kind == Precondition {
        code, status := TickSelected(id, thenNode, first, o);
        return;
      }
      if thenNode == 0 { return EInval, Failure; }
      if status == Success {
        code, status := TickSelected(id, thenNode, first, o);
        return;
      }
      if elseNode == 0 {
        End(id, Failure, o);
        return Ok, Failure;
      }
      code, status := TickSelected(id, elseNode, first + 1, o);
    }

    /** The then and else children: the first two, or the two after an in-tree condition. */
    method Branches(id: nat, condition: bool, ghost o: seq<Entry>) returns (thenNode: nat, elseNode: nat)
      requires At(o, id)
      ensures var first := if condition then 0 else 1;
        && |S(id).t.kids| == |Kids(o, id)|
        && Nth(Kids(o, id), thenNode, if first < |Kids(o, id)| then first else NO_CHILD)
        && Nth(Kids(o, id), elseNode, if first + 1 < |Kids(o, id)| then first + 1 else NO_CHILD)
        && (thenNode == 0 <==> first >= |Kids(o, id)|) && (elseNode == 0 <==> first + 1 >= |Kids(o, id)|)
    {
      hide At, S, Kids, ShapeOf;
      var e := Get(id, o);
      thenNode, elseNode := e.link.firstChild, 0;
      ghost var i := 0;
      if !condition && thenNode != 0 {
        thenNode := NextOf(id, thenNode, 0, o);
        i := 1;
      }
      if thenNode != 0 { elseNode := NextOf(id, thenNode, i, o); }
    }

    method TickSwitch(id: nat, ghost o: seq<Entry>) returns (code: Code, status: Status)
      requires At(o, id)
      modifies this`script, this`trace, nodes
      ensures At(o, id) && Sem.Out(S(id), code, status) == Sem.TickSwitch(m, old(S(id)))
      decreases count - id, 3
    {
      hide At, S, Kids, ShapeOf, Sem.TickSelected, Sem.End;
      ghost var s0 := S(id);
      var a := NextAnswer();
      assert a == Sem.Next(s0) by { Upcoming(id); }
      Called(id, Select(s0.t.cfg.path, a.code, a.index), o);
      if !a.code.Ok? { return a.code, Failure; }
      var current := ScanTo(id, a.index, o);
      if current == 0 {
        End(id, Failure, o);
        return Ok, Failure;
      }
      code, status := TickSelected(id, current, a.index, o);
    }

    method TickWhile(id: nat, ghost o: seq<Entry>) returns (code: Code, status: Status)
      requires At(o, id)
      modifies this`script, this`trace, nodes
      ensures At(o, id) && Sem.Out(S(id), code, status) == Sem.TickWhile(m, old(S(id)))
      decreases count - id, 2
    {
      hide At, S, Kids, ShapeOf, Sem.AskGuard, Sem.WhileBody, Sem.DropCursor, Sem.End, Sem.Report;
      var e := Get(id, o);
      var body, _ := Branches(id, e.cfg.condition, o);
      if body == 0 { return EInval, Failure; }
      if e.run.counter >= e.run.limit {
        End(id, Success, o);
        return Ok, Success;
      }
      code, status := AskGuard(id, o);
      if !code.Ok? { return code, Failure; }
      if status == Running {
        DropCursor(id, o);
        Report(id, Running, o);
        return Ok, Running;
      }
      if status == Failure {
        End(id, Success, o);
        return Ok, Success;
      }
      code, status := WhileBody(id, body, if e.cfg.condition then 0 else 1, o);
    }

    method WhileBody(id: nat, body: nat, ghost i: nat, ghost o: seq<Entry>) returns (code: Code, status: Status)
      requires At(o, id) && body != 0 && Nth(Kids(o, id), body, i)
      modifies this`script, this`trace, nodes
      ensures At(o, id) && Sem.Out(S(id), code, status) == Sem.WhileBody(m, old(S(id)), i)
      decreases count - id, 1
    {
      hide At, S, Kids, ShapeOf, Sem.TickKid, Sem.End, Sem.Report, Sem.NextCycle;
      code, status := TickChild(id, body, i, o);
      if !code.Ok? { return code, Failure; }
      if status == Running {
        PutCursor(id, body, i, o);
        Report(id, Running, o);
        return Ok, Running;
      }
      PutCursor(id, 0, NO_CHILD, o);
      if status == Failure {
        End(id, Failure, o);
        return Ok, Failure;
      }
      NextCycle(id, body, i, o);
      var e := Get(id, o);
      if e.run.counter >= e.run.limit {
        End(id, Success, o);
        return Ok, Success;
      }
      Report(id, Running, o);
      return Ok, Running;
    }

    method TickPipeline(id: nat, ghost o: seq<Entry>) returns (code: Code, status: Status)
      requires At(o, id)
      modifies this`script, this`trace, nodes
      ensures At(o, id) && Sem.Out(S(id), code, status) == Sem.TickPipeline(m, old(S(id)))
      decreases count - id, 3
    {
      hide At, S, Kids, ShapeOf, Sem.TickPipeline, Sem.PipelineLeft;
      ghost var goal := Sem.TickPipeline(m, S(id));
      while true
        invariant At(o, id) && Sem.TickPipeline(m, S(id)) == goal
        decreases Sem.PipelineLeft(S(id).t)
      {
        var again;
        again, code, status := PipelineTurn(id, o);
        if !again { return; }
      }
    }

    /** One turn of the pipeline loop; `again` when the next child is due. */
    method PipelineTurn(id: nat, ghost o: seq<Entry>) returns (again: bool, code: Code, status: Status)
      requires At(o, id)
      modifies this`script, this`trace, nodes
      ensures At(o, id)
      ensures var spec := Sem.TickPipeline(m, old(S(id)));
        if again then
          spec == Sem.TickPipeline(m, S(id)) && Sem.PipelineLeft(S(id).t) < Sem.PipelineLeft(old(S(id)).t)
        else Sem.Out(S(id), code, status) == spec
      decreases count - id, 2
    {
      hide At, S, Kids, ShapeOf, Sem.PipelineChild, Sem.End, Sem.Fail, Nth;
      ghost var s0 := S(id);
      var e := Get(id, o);
      var current := PipelineCurrent(id, e, o);
      if current == 0 {
        End(id, Success, o);
        return false, Ok, Success;
      }
      if !e.run.prepared {
        code := PreparePipeline(id, e, o);
        if !code.Ok? {
          Fail(id, code, o);
          return false, code, Failure;
        }
      }
      again, code, status := PipelineStep(id, current, Current(s0.t), o);
    }

    /** The child a pipeline is at: the cursor, or the one its counter names. */
    method PipelineCurrent(id: nat, e: Entry, ghost o: seq<Entry>) returns (current: nat)
      requires At(o, id) && Mirrors(e, S(id).t) && e.run.cursor >= 0
      requires Nth(Kids(o, id), e.run.cursor, S(id).t.run.cursor)
      ensures Nth(Kids(o, id), current, Current(S(id).t)) && (current == 0 <==> Current(S(id).t) < 0)
    {
      hide At, S, Kids, ShapeOf;
      current := e.run.cursor;
      if current == 0 { current := ScanTo(id, e.run.counter, o); }
    }

    /** Opens the context of the current child. */
    method PreparePipeline(id: nat, e: Entry, ghost o: seq<Entry>) returns (code: Code)
      requires At(o, id) && Mirrors(e, S(id).t) && e.run.cursor >= 0
      requires Nth(Kids(o, id), e.run.cursor, S(id).t.run.cursor)
      modifies this`script, this`trace, nodes
      ensures At(o, id) && code == Sem.Next(old(S(id))).code
      ensures var s := old(S(id));
        S(id) == Sem.Call(Sem.SetRun(s, s.t.run.(prepared := true)), Prepare(s.t.cfg.path, s.t.run.counter, code))
    {
      hide At, S, Kids, ShapeOf;
      ghost var s0 := S(id);
      PutRun(id, e.run.(prepared := true), o);
      var a := NextAnswer();
      assert a == Sem.Next(S(id)) by { Upcoming(id); }
      Called(id, Prepare(s0.t.cfg.path, e.run.counter, a.code), o);
      code := a.code;
    }

    /** The child with this index, or 0. */
    method ScanTo(id: nat, counter: nat, ghost o: seq<Entry>) returns (scan: nat)
      requires At(o, id)
      ensures |S(id).t.kids| == |Kids(o, id)| && (scan == 0 <==> counter >= |Kids(o, id)|)
      ensures Nth(Kids(o, id), scan, if counter < |Kids(o, id)| then counter else NO_CHILD)
    {
      hide At, S, Kids, ShapeOf;
      var e := Get(id, o);
      scan := e.link.firstChild;
      var index := 0;
      while scan != 0 && index < counter
        invariant 0 <= index <= counter && index <= |Kids(o, id)|
        invariant Nth(Kids(o, id), scan, if index < |Kids(o, id)| then index else NO_CHILD)
        decreases counter - index
      {
        scan := NextOf(id, scan, index, o);
        index := index + 1;
      }
    }

    /** Ticks the current child of a pipeline. */
    method PipelineStep(id: nat, c: nat, ghost i: nat, ghost o: seq<Entry>)
      returns (again: bool, code: Code, status: Status)
      requires At(o, id) && c != 0 && Nth(Kids(o, id), c, i)
      requires S(id).t.run.cursor >= 0 || S(id).t.run.counter < |S(id).t.kids|
      modifies this`script, this`trace, nodes
      ensures At(o, id)
      ensures var spec := Sem.PipelineChild(m, old(S(id)), i);
        if again then
          spec == Sem.TickPipeline(m, S(id)) && Sem.PipelineLeft(S(id).t) < Sem.PipelineLeft(old(S(id)).t)
        else Sem.Out(S(id), code, status) == spec
      decreases count - id, 1
    {
      hide At, S, Kids, ShapeOf, Sem.TickKid, Sem.End, Sem.Report, Sem.Fail, Sem.TickPipeline, Sem.PipelineComplete;
      again := false;
      code, status := TickChild(id, c, i, o);
      if !code.Ok? {
        Fail(id, code, o);
        return again, code, Failure;
      }
      if status == Running {
        PutCursor(id, c, i, o);
        Report(id, Running, o);
        return again, Ok, Running;
      }
      again, code, status := PipelineComplete(id, status, o);
    }

    /** Completes the current child; `again` when the next one is due. */
    method PipelineComplete(id: nat, st: Status, ghost o: seq<Entry>)
      returns (again: bool, code: Code, status: Status)
      requires At(o, id) && st != Running
      requires S(id).t.run.cursor >= 0 || S(id).t.run.counter < |S(id).t.kids|
      modifies this`script, this`trace, nodes
      ensures At(o, id)
      ensures var spec := Sem.PipelineComplete(m, old(S(id)), st);
        if again then
          spec == Sem.TickPipeline(m, S(id)) && Sem.PipelineLeft(S(id).t) < Sem.PipelineLeft(old(S(id)).t)
        else Sem.Out(S(id), code, status) == spec
    {
      hide At, S, Kids, ShapeOf, Sem.End, Sem.Fail, Sem.TickPipeline, Sem.Completed, Sem.Call, Sem.Next;
      code := CompleteChild(id, st, o);
      if !code.Ok? {
        Fail(id, code, o);
        return false, code, Failure;
      }
      if st == Failure {
        End(id, Failure, o);
        return false, Ok, Failure;
      }
      return true, Ok, Success;
    }

    /** The complete callback; when it succeeds the child's context is closed. */
    method CompleteChild(id: nat, st: Status, ghost o: seq<Entry>) returns (code: Code)
      requires At(o, id)
      modifies this`script, this`trace, nodes
      ensures At(o, id) && code == Sem.Next(old(S(id))).code
      ensures var s := old(S(id)); var e := Complete(s.t.cfg.path, s.t.run.counter, st, code);
        S(id) == if !code.Ok? then Sem.Call(s, e)
                 else Sem.Completed(s, e, s.t.run.counter + if st == Failure then 0 else 1)
    {
      hide At, S, Kids, ShapeOf, Sem.Call, Sem.Next, Sem.SetRun;
      ghost var s0 := S(id);
      var e := Get(id, o);
      var a := NextAnswer();
      assert a == Sem.Next(s0) by { Upcoming(id); }
      code := a.code;
      Called(id, Complete(s0.t.cfg.path, e.run.counter, st, code), o);
      if code.Ok? {
        var step := if st == Failure then 0 else 1;
        Put(id, e.run.(cursor := 0, prepared := false, counter := e.run.counter + step), NO_CHILD, o);
      }
    }

    method TickEntry(id: nat, ghost o: seq<Entry>) returns (code: Code, status: Status)
      requires At(o, id)
      modifies this`script, this`trace, nodes
      ensures At(o, id) && Sem.Out(S(id), code, status) == Sem.TickEntry(m, old(S(id)))
      decreases count - id, 2
    {
      hide At, S, Kids, ShapeOf, Sem.ResetKid, Sem.EntryChild, Sem.Fail;
      ghost var s0 := S(id);
      var e := Get(id, o);
      var child := e.link.firstChild;
      if child == 0 { return EInval, Failure; }
      var a := NextAnswer();
      assert a == Sem.Next(s0) by { Upcoming(id); }
      Called(id, Changed(s0.t.cfg.path, a.code, a.flag), o);
      if !a.code.Ok? {
        Fail(id, a.code, o);
        return a.code, Failure;
      }
      if a.flag || !e.run.observed {
        ResetKid(id, if e.run.cursor != 0 then e.run.cursor else child, Sem.ResumeAt(s0.t), false, o);
        var q := Get(id, o);
        Put(id, q.run.(cursor := 0, observed := true), NO_CHILD, o);
      } else if e.run.cursor == 0 && e.run.last != Running {
        return Ok, e.run.last;
      }
      code, status := EntryChild(id, child, o);
    }

    method EntryChild(id: nat, child: nat, ghost o: seq<Entry>) returns (code: Code, status: Status)
      requires At(o, id) && child != 0 && Nth(Kids(o, id), child, 0)
      modifies this`script, this`trace, nodes
      ensures At(o, id) && Sem.Out(S(id), code, status) == Sem.EntryChild(m, old(S(id)))
      decreases count - id, 1
    {
      hide At, S, Kids, ShapeOf, Sem.TickKid, Sem.End, Sem.Report, Sem.Fail;
      code, status := TickChild(id, child, 0, o);
      if !code.Ok? {
        Fail(id, code, o);
        return code, Failure;
      }
      if status == Running { PutCursor(id, child, 0, o); } else { PutCursor(id, 0, NO_CHILD, o); }
      Report(id, status, o);
    }

    method TickQueue(id: nat, ghost o: seq<Entry>) returns (code: Code, status: Status)
      requires At(o, id)
      modifies this`script, this`trace, nodes
      ensures At(o, id) && Sem.Out(S(id), code, status) == Sem.TickQueue(m, old(S(id)))
      decreases count - id, 3
    {
      hide At, S, Kids, ShapeOf, Sem.QueueItem, Sem.Fail, Sem.End;
      var e := Get(id, o);
      var child := e.link.firstChild;
      if child == 0 { return EInval, Failure; }
      if !e.run.prepared {
        code, status := OpenQueue(id, e, child, o);
        return;
      }
      code, status := QueueItem(id, child, o);
    }

    /** Begins an item; an empty queue is a failure. */
    method OpenQueue(id: nat, e: Entry, child: nat, ghost o: seq<Entry>) returns (code: Code, status: Status)
      requires At(o, id) && Mirrors(e, S(id).t) && e.run.cursor >= 0 && !e.run.prepared
      requires Nth(Kids(o, id), e.run.cursor, S(id).t.run.cursor)
      requires child != 0 && Nth(Kids(o, id), child, 0) && S(id).t.kids != []
      modifies this`script, this`trace, nodes
      ensures At(o, id) && Sem.Out(S(id), code, status) == Sem.TickQueue(m, old(S(id)))
      decreases count - id, 2
    {
      hide At, S, Kids, ShapeOf, Sem.QueueItem, Sem.Fail, Sem.End, Nth;
      var a := BeginItem(id, e, o);
      if !a.code.Ok? {
        Fail(id, a.code, o);
        return a.code, Failure;
      }
      if a.flag {
        code, status := QueueItem(id, child, o);
        return;
      }
      Put(id, e.run.(prepared := false), S(id).t.run.cursor, o);
      End(id, Failure, o);
      return Ok, Failure;
    }

    method BeginItem(id: nat, e: Entry, ghost o: seq<Entry>) returns (a: Answer)
      requires At(o, id) && Mirrors(e, S(id).t) && e.run.cursor >= 0
      requires Nth(Kids(o, id), e.run.cursor, S(id).t.run.cursor)
      modifies this`script, this`trace, nodes
      ensures At(o, id) && a == Sem.Next(old(S(id)))
      ensures var s := old(S(id));
        S(id) == Sem.Call(Sem.SetRun(s, s.t.run.(prepared := true)), Begin(s.t.cfg.path, a.code, a.flag))
    {
      hide At, S, Kids, ShapeOf;
      ghost var s0 := S(id);
      PutRun(id, e.run.(prepared := true), o);
      a := NextAnswer();
      assert a == Sem.Next(S(id)) by { Upcoming(id); }
      Called(id, Begin(s0.t.cfg.path, a.code, a.flag), o);
    }

    method QueueItem(id: nat, child: nat, ghost o: seq<Entry>) returns (code: Code, status: Status)
      requires At(o, id) && child != 0 && Nth(Kids(o, id), child, 0) && S(id).t.kids != []
      modifies this`script, this`trace, nodes
      ensures At(o, id) && Sem.Out(S(id), code, status) == Sem.QueueItem(m, old(S(id)))
      decreases count - id, 1
    {
      hide At, S, Kids, ShapeOf, Sem.TickKid, Sem.End, Sem.Report, Sem.Fail, Sem.ResetKid, Sem.FinishItem;
      code, status := TickChild(id, child, 0, o);
      if !code.Ok? {
        Fail(id, code, o);
        return code, Failure;
      }
      if status == Running {
        PutCursor(id, child, 0, o);
        Report(id, Running, o);
        return Ok, Running;
      }
      if status == Failure {
        End(id, Failure, o);
        return Ok, Failure;
      }
      code, status := FinishItem(id, child, o);
    }

    method FinishItem(id: nat, child: nat, ghost o: seq<Entry>) returns (code: Code, status: Status)
      requires At(o, id) && child != 0 && Nth(Kids(o, id), child, 0)
      modifies this`script, this`trace, nodes
      ensures At(o, id) && Sem.Out(S(id), code, status) == Sem.FinishItem(old(S(id)))
    {
      hide At, S, Kids, ShapeOf, Sem.End, Sem.Report, Sem.Fail, Sem.ResetKid;
      ghost var s0 := S(id);
      var a := NextAnswer();
      assert a == Sem.Next(s0) by { Upcoming(id); }
      Called(id, Finish(s0.t.cfg.path, a.code, a.flag), o);
      if !a.code.Ok? {
        Fail(id, a.code, o);
        return a.code, Failure;
      }
      var e := Get(id, o);
      PutRun(id, e.run.(prepared := false), o);
      if a.flag {
        ResetKid(id, child, 0, false, o);
        PutCursor(id, 0, NO_CHILD, o);
        Report(id, Running, o);
        return Ok, Running;
      }
      End(id, Success, o);
      return Ok, Success;
    }

    // ---- Parallel --------------------------------------------------------------------------------

    method SetBranch(id: nat, c: nat, ghost i: nat, b: bool, ghost o: seq<Entry>)
      requires At(o, id) && c != 0 && Nth(Kids(o, id), c, i) && i < |S(id).t.kids|
      modifies nodes
      ensures At(o, id) && S(id) == Sem.SetBranch(old(S(id)), i, b)
    {
      hide At, S, Kids, ShapeOf, Table;
      ghost var t := Table();
      Here(o, id);
      EnterKid(id, c, i, o);
      var e := Get(c, t);
      PutRun(c, e.run.(branchPrepared := b), t);
      LeaveKid(t, id, c, i, o);
    }

    /** One branch: enter, tick, step. */
    method TickBranch(id: nat, c: nat, ghost i: nat, ghost o: seq<Entry>) returns (code: Code, status: Status)
      requires At(o, id) && c != 0 && Nth(Kids(o, id), c, i) && i < |S(id).t.kids|
      modifies this`script, this`trace, nodes
      ensures At(o, id) && Sem.Out(S(id), code, status) == Sem.TickBranch(m, old(S(id)), i)
      decreases count - id, 1
    {
      hide At, S, Kids, ShapeOf, Sem.TickKid, Sem.TickEntered, Sem.Fail, Sem.SetBranch;
      ghost var s0 := S(id);
      var e := Get(id, o);
      var kid := GetKid(id, c, i, o);
      if kid.run.evaluated && kid.run.last != Running { return Ok, kid.run.last; }
      if !e.cfg.hooks {
        code, status := TickChild(id, c, i, o);
        if !code.Ok? {
          Fail(id, code, o);
          return code, Failure;
        }
        return;
      }
      SetBranch(id, c, i, true, o);
      var a := NextAnswer();
      assert a == Sem.Next(S(id)) by { Upcoming(id); }
      Called(id, Enter(s0.t.cfg.path, s0.t.kids[i].cfg.path, i, !kid.run.branchPrepared, a.code), o);
      if !a.code.Ok? {
        Fail(id, a.code, o);
        return a.code, Failure;
      }
      code, status := TickEntered(id, c, i, o);
    }

    method TickEntered(id: nat, c: nat, ghost i: nat, ghost o: seq<Entry>) returns (code: Code, status: Status)
      requires At(o, id) && c != 0 && Nth(Kids(o, id), c, i) && i < |S(id).t.kids|
      modifies this`script, this`trace, nodes
      ensures At(o, id) && Sem.Out(S(id), code, status) == Sem.TickEntered(m, old(S(id)), i)
      decreases count - id, 0, 1
    {
      hide At, S, Kids, ShapeOf, Sem.TickKid, Sem.Fail;
      ghost var s0 := S(id);
      code, status := TickChild(id, c, i, o);
      if !code.Ok? {
        Fail(id, code, o);
        return code, Failure;
      }
      var b := NextAnswer();
      assert b == Sem.Next(S(id)) by { Upcoming(id); }
      Called(id, Step(s0.t.cfg.path, s0.t.kids[i].cfg.path, i, status, b.code), o);
      if !b.code.Ok? {
        Fail(id, b.code, o);
        return b.code, Failure;
      }
    }

    /** Ticks all branches in order and aggregates their statuses. */
    method TickBranches(id: nat, ghost o: seq<Entry>) returns (code: Code, status: Status)
      requires At(o, id)
      modifies this`script, this`trace, nodes
      ensures At(o, id) && Sem.Out(S(id), code, status) == Sem.BranchLoop(m, old(S(id)), 0, Success)
      decreases count - id, 2
    {
      hide At, S, Kids, ShapeOf, Sem.TickBranch;
      var e := Get(id, o);
      var current := e.link.firstChild;
      var anyFailure, anyRunning := false, false;
      ghost var i := 0;
      ghost var goal := Sem.BranchLoop(m, S(id), 0, Success);
      while current != 0
        invariant At(o, id) && |S(id).t.kids| == |Kids(o, id)| && 0 <= i <= |Kids(o, id)|
        invariant Nth(Kids(o, id), current, if i < |Kids(o, id)| then i else NO_CHILD)
        invariant Sem.BranchLoop(m, S(id), i, Sum(anyRunning, anyFailure)) == goal
        decreases |Kids(o, id)| - i
      {
        var next := NextOf(id, current, i, o);
        code, status := TickBranch(id, current, i, o);
        if !code.Ok? { return; }
        if status == Failure { anyFailure := true; } else if status == Running { anyRunning := true; }
        current, i := next, i + 1;
      }
      return Ok, Sum(anyRunning, anyFailure);
    }

    /** Closes terminal branches; re-arms them when the Parallel keeps running. */
    method FinishBranches(id: nat, agg: Status, ghost o: seq<Entry>) returns (code: Code)
      requires At(o, id)
      modifies this`script, this`trace, nodes
      ensures At(o, id)
      ensures var f := Sem.FinishLoop(old(S(id)), 0, agg); code == f.code && S(id) == f.s
    {
      hide At, S, Kids, ShapeOf, Sem.Rearm, Sem.SetBranch, Sem.Fail;
      ghost var s0 := S(id);
      var e := Get(id, o);
      var current := e.link.firstChild;
      ghost var i := 0;
      ghost var goal := Sem.FinishLoop(s0, 0, agg);
      while current != 0
        invariant At(o, id) && |S(id).t.kids| == |Kids(o, id)| && 0 <= i <= |Kids(o, id)|
        invariant Mirrors(e, S(id).t)
        invariant Nth(Kids(o, id), current, if i < |Kids(o, id)| then i else NO_CHILD)
        invariant Sem.FinishLoop(S(id), i, agg) == goal
        decreases |Kids(o, id)| - i
      {
        var next := NextOf(id, current, i, o);
        code := FinishBranch(id, current, i, agg, e.cfg.hooks, o);
        if !code.Ok? { return; }
        current, i := next, i + 1;
      }
      code := Ok;
    }

    method FinishBranch(id: nat, c: nat, ghost i: nat, agg: Status, hooks: bool, ghost o: seq<Entry>)
      returns (code: Code)
      requires At(o, id) && c != 0 && Nth(Kids(o, id), c, i) && i < |S(id).t.kids|
      requires hooks == S(id).t.cfg.hooks
      modifies this`script, this`trace, nodes
      ensures At(o, id)
      ensures code.Ok? ==> |S(id).t.kids| == |old(S(id)).t.kids| && S(id).t.cfg == old(S(id)).t.cfg
      ensures code.Ok? ==> S(id).t.run == old(S(id)).t.run
      ensures var f := Sem.FinishLoop(old(S(id)), i, agg);
        if code.Ok? then f == Sem.FinishLoop(S(id), i + 1, agg) else code == f.code && S(id) == f.s
    {
      hide At, S, Kids, ShapeOf, Sem.ResetKid, Sem.SetBranch, Sem.Fail;
      ghost var s0 := S(id);
      var kid := GetKid(id, c, i, o);
      code := Ok;
      if !(kid.run.evaluated && kid.run.last != Running) { return; }
      if hooks && kid.run.branchPrepared {
        var a := NextAnswer();
        assert a == Sem.Next(s0) by { Upcoming(id); }
        Called(id, BranchFinish(s0.t.cfg.path, s0.t.kids[i].cfg.path, i, kid.run.last, a.code), o);
        if !a.code.Ok? {
          Fail(id, a.code, o);
          return a.code;
        }
        SetBranch(id, c, i, false, o);
      }
      if agg == Running {
        SetBranch(id, c, i, false, o);
        ResetKid(id, c, i, true, o);
      }
    }

    method TickParallel(id: nat, ghost o: seq<Entry>) returns (code: Code, status: Status)
      requires At(o, id)
      modifies this`script, this`trace, nodes
      ensures At(o, id) && Sem.Out(S(id), code, status) == Sem.TickParallel(m, old(S(id)))
      decreases count - id, 3
    {
      hide At, S, Kids, ShapeOf, Sem.BranchLoop, Sem.FinishLoop, Sem.Fail, Sem.End, Sem.Report;
      ghost var s0 := S(id);
      var e := Get(id, o);
      if e.link.firstChild == 0 { return EInval, Failure; }
      code, status := TickBranches(id, o);
      if !code.Ok? { return; }
      if e.cfg.hooks {
        var a := NextAnswer();
        assert a == Sem.Next(S(id)) by { Upcoming(id); }
        Called(id, Join(s0.t.cfg.path, status, a.code), o);
        if !a.code.Ok? {
          Fail(id, a.code, o);
          return a.code, Failure;
        }
      }
      code := FinishBranches(id, status, o);
      if !code.Ok? { return code, Failure; }
      if status == Running {
        Report(id, Running, o);
        return Ok, Running;
      }
      End(id, status, o);
    }

    /** Sequence (go == Success) and Fallback (go == Failure). */
    method TickChildren(id: nat, go: Status, ghost o: seq<Entry>) returns (code: Code, status: Status)
      requires At(o, id) && go != Running
      modifies this`script, this`trace, nodes
      ensures At(o, id)
      ensures Sem.Out(S(id), code, status) == Sem.ChildLoop(m, old(S(id)), Sem.ResumeAt(old(S(id)).t), go)
      decreases count - id, 2
    {
      hide At, S, Kids, ShapeOf, Sem.TickKid, Sem.End, Sem.Report;
      ghost var s0 := S(id);
      var e := Get(id, o);
      var child: nat := if e.run.cursor != 0 then e.run.cursor else e.link.firstChild;
      ghost var i := Sem.ResumeAt(s0.t);
      ghost var goal := Sem.ChildLoop(m, s0, i, go);
      while child != 0
        invariant At(o, id) && |S(id).t.kids| == |Kids(o, id)| && Nth(Kids(o, id), child, i)
        invariant Sem.ChildLoop(m, S(id), i, go) == goal
        decreases if i < 0 then 0 else |Kids(o, id)| - i
      {
        var next := NextOf(id, child, i, o);
        code, status := TickChild(id, child, i, o);
        if !code.Ok? { return code, Failure; }
        if status == Running {
          PutCursor(id, child, i, o);
          Report(id, Running, o);
          return Ok, Running;
        }
        if status != go {
          End(id, status, o);
          return Ok, status;
        }
        child := next;
        i := if i + 1 < |Kids(o, id)| then i + 1 else NO_CHILD;
        PutCursor(id, child, i, o);
      }
      End(id, go, o);
      return Ok, go;
    }

    // ---- the public interface ---------------------------------------------------------------------

    /** The machine this object stands for. */
    ghost function View(): Runs.Machine
      reads this`nodes, this`count, this`script, this`trace, nodes
      requires Valid()
    {
      Shown(m, maxNodes, maxDepth, script, trace, Table())
    }

    /** Valid, a finite ordered tree with correct bookkeeping, and healthy as a machine. */
    ghost predicate Ready()
      reads this`nodes, this`count, this`root, this`script, this`trace, nodes
    {
      && Valid() && Bookkept(Table()) && root == (if count == 0 then 0 else 1)
      && Runs.Healthy(View())
    }

    constructor (m: nat, maxNodes: nat, maxDepth: nat, script: seq<Answer>)
      ensures Ready() && !busy && fresh(nodes)
      ensures View() == Runs.Empty(m, maxNodes, maxDepth, script)
    {
      this.m, this.maxNodes, this.maxDepth, this.script := m, maxNodes, maxDepth, script;
      nodes := new Entry[maxNodes + 1](_ => Entry(Fixed(Leaf, false, false, false, false, 0, 0, NoResolver),
        Link(0, 0, 0, 0, 0, 0), FreshRun(NOTHING)));
      count, root, busy, trace := 0, 0, false, [];
    }

    /** Adds a node below `parent` (0 for the root); ids count up from 1. */
    method Add(parent: nat, n: Runs.NodeSpec) returns (code: Code, id: nat)
      requires Ready()
      modifies this`count, this`root, nodes
      ensures Ready() && (code.Ok? ==> id == count == old(count) + 1)
      ensures busy ==> code == EBusy && View() == old(View())
      ensures var path := if parent == 0 then None else Some(PathOf(old(Table()), parent));
        !busy ==> Runs.Reply(View(), code, Failure) == Runs.AddNode(old(View()), path, n)
    {
      hide Linked, Bookkept, CursorsOk, Runs.Healthy, Grown, Runs.Proper, Runs.LimitAccepted, Lineage,
        Runs.AddCode, Shown;
      ghost var ns, x := Table(), View();
      ghost var path := if parent == 0 then None else Some(PathOf(ns, parent));
      id := 0;
      if busy { return EBusy, 0; }
      CodeIs(x, ns, parent, n);
      if !Runs.Proper(n) || !Runs.LimitAccepted(m, n) { return EInval, 0; }
      if parent == 0 {
        if root != 0 { return EInval, 0; }
      } else {
        if parent > count { return EInval, 0; }
        if !EntryHasRoom(nodes[parent]) || nodes[parent].link.depth + 1 > maxDepth { return EInval, 0; }
      }
      if count >= maxNodes { return ENoBufs, 0; }
      id := count + 1;
      LinkIn(parent, n);
      GrownIsAdded(x, ns, parent, n);
      BookkeptLinked(Table());
      Runs.AddHealthy(x, path, n);
      return Ok, id;
    }

    lemma CodeIs(x: Runs.Machine, ns: seq<Entry>, parent: nat, n: Runs.NodeSpec)
      requires Ready() && ns == Table() && x == View()
      ensures x.m == m && x.maxNodes == maxNodes && x.maxDepth == maxDepth && x.script == script && x.trace == trace
      ensures x == Shown(m, maxNodes, maxDepth, script, trace, ns)
      ensures Runs.AddCode(x, if parent == 0 then None else Some(PathOf(ns, parent)), n) ==
        EntryAddCode(m, maxNodes, maxDepth, ns, parent, n)
    {
      CodeAgrees(x, ns, parent, n);
    }

    /** Writes the new entry and appends it to the parent's sibling chain. */
    method LinkIn(parent: nat, n: Runs.NodeSpec)
      requires Valid() && Bookkept(Table()) && parent <= count < maxNodes && (parent == 0 ==> count == 0)
      modifies this`count, this`root, nodes
      ensures nodes.Length == maxNodes + 1 && count == old(count) + 1
      ensures root == if parent == 0 then count else old(root)
      ensures Table() == Grown(old(Table()), parent, Build(n))
    {
      hide CursorsOk, Lineage, Linked, Bookkept;
      ghost var ns := Table();
      var id := count + 1;
      var depth := if parent == 0 then 1 else nodes[parent].link.depth + 1;
      nodes[id] := Entry(Build(n), Link(parent, 0, 0, 0, depth, 0), ZeroRun(Build(n)));
      count := id;
      assert Table() == ns + [nodes[id]];
      if parent == 0 { root := id; } else { HangBelow(parent); }
    }

    method HangBelow(parent: nat)
      requires nodes.Length == maxNodes + 1 && 1 <= parent < count <= maxNodes
      modifies nodes
      ensures Table() == Hung(old(Table()), parent)
    {
      var l := nodes[parent].link;
      if l.firstChild == 0 {
        SetLink(parent, l.(firstChild := count, lastChild := count, childCount := l.childCount + 1));
      } else {
        if l.lastChild <= count { SetLink(l.lastChild, nodes[l.lastChild].link.(nextSibling := count)); }
        SetLink(parent, l.(lastChild := count, childCount := l.childCount + 1));
      }
    }

    method SetLink(id: nat, l: Link)
      requires id <= count < nodes.Length
      modifies nodes
      ensures Table() == Relink(old(Table()), id, l)
    {
      nodes[id] := nodes[id].(link := l);
    }

    /** Checks every entry of the table. */
    method Validate() returns (ok: bool)
      requires Valid() && Bookkept(Table()) && count > 0
      ensures ok == Runs.ValidTree(m, maxDepth, TreeOf(Table(), 1))
    {
      hide Bookkept, CursorsOk, Linked, TreeOf, Runs.ValidNode, Runs.ValidTree, ValidEntry, AllValid;
      ghost var ns := Table();
      ValidEverywhere(m, maxDepth, ns);
      var id := 1;
      while id <= count
        invariant 1 <= id <= count + 1
        invariant forall j :: 1 <= j < id ==> Runs.ValidNode(m, maxDepth, TreeOf(ns, j))
      {
        EntryIsNode(m, maxDepth, ns, id);
        if !ValidEntry(m, maxDepth, nodes[id]) {
          NotAllValid(m, maxDepth, ns, id);
          return false;
        }
        id := id + 1;
      }
      EachIsAll(m, maxDepth, ns);
      return true;
    }

    /** One public tick. */
    method Tick() returns (code: Code, status: Status)
      requires Ready()
      modifies this`script, this`trace, this`busy, nodes
      ensures Ready() && busy == old(busy)
      ensures busy ==> code == EBusy && View() == old(View())
      ensures !busy ==> Runs.Reply(View(), code, status) == Runs.TickTree(old(View()))
      ensures !busy && root != 0 && !(code.Ok? && status == Running) ==> Runs.Closed(View())
    {
      hide Valid, Bookkept, View, Runs.Healthy, Runs.TickTree, Runs.Closed;
      if busy { return EBusy, Failure; }
      ghost var x := View();
      busy := true;
      code, status := TickRoot();
      busy := false;
      Runs.TickHealthy(x);
    }

    method TickRoot() returns (code: Code, status: Status)
      requires Valid() && Bookkept(Table()) && root == if count == 0 then 0 else 1
      modifies this`script, this`trace, nodes
      ensures Valid() && Bookkept(Table())
      ensures Runs.Reply(View(), code, status) == Runs.TickTree(old(View()))
      ensures old(View()).root.Some? <==> root != 0
    {
      hide At, S, Bookkept, Runs.ValidTree, Sem.TickNode, Runs.ResetTree, Valid, Table, View, TreeOf;
      if root == 0 {
        NoRoot();
        return EInval, Failure;
      }
      RootView();
      ghost var o, x := Table(), View();
      var ok := Validate();
      if !ok {
        ResetRoot();
        return EInval, Failure;
      }
      code, status := TickNode(1, o);
      RootBack(x, o);
      if !code.Ok? {
        ResetRoot();
        status := Failure;
      }
    }

    method ResetRoot()
      requires Valid() && Bookkept(Table()) && count > 0
      modifies this`trace, nodes
      ensures Valid() && Bookkept(Table()) && View() == Runs.ResetTree(old(View()))
    {
      hide At, S, Bookkept, Sem.ResetNode, Valid, Table, View, TreeOf;
      RootView();
      ghost var o, x := Table(), View();
      ResetNode(1, true, o);
      RootBack(x, o);
    }

    lemma NoRoot()
      requires Valid() && count == 0
      ensures View().root == None
    {
    }

    /** Going down to the root. */
    lemma RootView()
      requires Valid() && Bookkept(Table()) && count > 0
      ensures At(Table(), 1) && Linked(Table()) && |Table()| > 1 && S(1).t == TreeOf(Table(), 1)
      ensures var x := View();
        && x.root == Some(S(1).t) && x.script == S(1).script && x.trace == S(1).trace
        && x.m == m && x.maxNodes == maxNodes && x.maxDepth == maxDepth && x.count == |Table()| - 1
    {
      OnlyRefl(Table(), 1);
    }

    /** Coming back from the root, of which o was the table before. */
    lemma RootBack(x: Runs.Machine, o: seq<Entry>)
      requires At(o, 1) && Bookkept(o)
      requires x.m == m && x.maxNodes == maxNodes && x.maxDepth == maxDepth && x.count == |o| - 1
      ensures Valid() && Bookkept(Table()) && View() == Runs.Rooted(x, S(1))
    {
      OnlyParts(o, Table(), 1);
      BookkeptSame(o, Table());
    }

    method Reset() returns (code: Code)
      requires Ready()
      modifies this`trace, this`busy, nodes
      ensures Ready() && busy == old(busy)
      ensures busy ==> code == EBusy && View() == old(View())
      ensures !busy ==> code == Ok && View() == Runs.ResetTree(old(View())) && Runs.Closed(View())
    {
      hide Valid, Bookkept, View, Runs.Healthy, Runs.ResetTree, Runs.Closed;
      if busy { return EBusy; }
      ghost var x := View();
      busy := true;
      if root != 0 { ResetRoot(); } else { NothingToReset(); }
      busy := false;
      Runs.HealthyResets(x);
      return Ok;
    }

    lemma NothingToReset()
      requires Valid() && count == 0
      ensures View() == Runs.ResetTree(View())
    {
    }

    /** Attaches, replaces or removes the parameter resolver of a node. */
    method SetResolver(id: nat, r: Resolver) returns (code: Code)
      requires Ready()
      modifies this`trace, this`busy, nodes
      ensures Ready() && busy == old(busy)
      ensures busy ==> code == EBusy && View() == old(View())
      ensures !busy ==> Runs.Reply(View(), code, Failure) == Runs.PutResolver(old(View()), PathOf(old(Table()), id), r)
    {
      hide Bookkept, Runs.Healthy, Runs.PutResolver, TreeOf, Linked, CursorsOk, PathOf, Runs.ResolverAt;
      if busy { return EBusy; }
      ghost var x, ns := View(), Table();
      ghost var p := PathOf(ns, id);
      Runs.ResolverHealthy(x, p, r);
      ResolverChecks(x, ns, id, r);
      if id == 0 || id > count { return EInval; }
      var e := nodes[id];
      if Unfit(e.cfg.kind, r) { return EInval; }
      if e.cfg.resolver == r { return Ok; }
      busy := true;
      Install(id, r);
      busy := false;
      return Ok;
    }

    /** Resets the subtree, restores the constructor's parameters and sets the resolver. */
    method Install(id: nat, r: Resolver)
      requires Valid() && Bookkept(Table()) && 1 <= id <= count
      modifies this`trace, nodes
      ensures Valid() && Bookkept(Table())
      ensures Sem.State(script, trace, TreeOf(Table(), 1)) ==
        Runs.ResolverAt(Sem.State(old(script), old(trace), TreeOf(old(Table()), 1)), PathOf(old(Table()), id), r)
    {
      hide At, S, TreeOf, Linked, Bookkept, CursorsOk, Sem.ResetNode, Only, Under;
      ghost var o, s1 := Table(), Sem.State(script, trace, TreeOf(Table(), 1));
      ghost var s0 := S(id);
      AtHere(id);
      ResetNode(id, true, o);
      PutConfig(id, r, o);
      AtParts(o, id);
      BookkeptSame(o, Table());
      AllUnderRoot(o, id);
      assert Runs.ResolverAt(s0, Lineage(o, id), r) == S(id);
      ResolverClimbs(o, Table(), 1, id, s1, S(id), r);
    }

    lemma AtHere(id: nat)
      requires Valid() && 1 <= id <= count
      ensures At(Table(), id) && S(id) == Sem.State(script, trace, TreeOf(Table(), id))
      ensures S(id).t.cfg.path == Lineage(Table(), id) && S(id).t.cfg.path == PathOf(Table(), id)
    {
      OnlyRefl(Table(), id);
    }

    lemma AtParts(o: seq<Entry>, id: nat)
      requires At(o, id)
      ensures Valid() && Only(o, Table(), id) && Linked(o) && SameLinks(o, Table())
      ensures S(id) == Sem.State(script, trace, TreeOf(Table(), id))
    {
    }

    /** Writes the resolver and the constructor-time parameters. */
    method PutConfig(id: nat, r: Resolver, ghost o: seq<Entry>)
      requires At(o, id)
      modifies nodes
      ensures At(o, id)
      ensures var s := old(S(id));
        S(id) == s.(t := s.t.(cfg := s.t.cfg.(resolver := r),
                              run := s.t.run.(limit := s.t.cfg.limit, duration := s.t.cfg.duration)))
    {
      hide TreeOf, Lineage, Only, Under, KidsOf;
      ghost var t := Table();
      assert Linked(o) && SameLinks(o, t) by { OnlyParts(o, t, id); }
      var e := nodes[id];
      nodes[id] := e.(cfg := e.cfg.(resolver := r), run := e.run.(limit := e.cfg.limit, duration := e.cfg.duration));
      assert Table() == t[id := nodes[id]];
      ConfigView(t, id, nodes[id]);
      OnlyTrans(o, t, Table(), id);
    }
  }

  const NOTHING := Config([], Leaf, false, false, false, false, 0, 0, NoResolver)

  /** The child a pipeline is at. */
  ghost function Current(t: Tree): int {
    if t.run.cursor >= 0 then t.run.cursor
    else if t.run.counter < |t.kids| then t.run.counter else NO_CHILD
  }

  /** The aggregate that the two flags of the branch loop stand for. */
  function Sum(anyRunning: bool, anyFailure: bool): Status {
    if anyRunning then Running else if anyFailure then Failure else Success
  }

  /** Equal ids stand at equal places among the children. */
  lemma OneIndex(o: seq<Entry>, id: nat, c: nat, i: int, j: nat)
    requires Nth(Kids(o, id), c, i)
    ensures c != 0 && j < |Kids(o, id)| ==> (c == Kids(o, id)[j] <==> i == j)
  {
  }

  lemma NoCursor(s: Sem.State)
    requires s.t.run.cursor < 0
    ensures Sem.DropCursor(s) == s
  {
  }

  lemma OnlyParts(o: seq<Entry>, ns: seq<Entry>, id: nat)
    requires Only(o, ns, id)
    ensures Linked(o) && Linked(ns) && SameLinks(o, ns)
  {
  }

  lemma OnlyRefl(ns: seq<Entry>, id: nat)
    requires Linked(ns)
    ensures Only(ns, ns, id)
  {
  }

  /** Writing one entry, seen as a change of the tree value. */
  lemma PutView(ns: seq<Entry>, id: nat, r: Run, i: int)
    requires Linked(ns) && CursorsOk(ns) && 1 <= id < |ns| && r.cursor >= 0 && Nth(KidsOf(ns, id), r.cursor, i)
    ensures var ms := ns[id := ns[id].(run := r)];
      && Linked(ms) && CursorsOk(ms) && Only(ns, ms, id)
      && TreeOf(ms, id) == TreeOf(ns, id).(run := r.(cursor := i))
  {
    hide TreeOf, Lineage, Under, CursorsOk;
    var ms := ns[id := ns[id].(run := r)];
    WriteRun(ns, id, r);
    CursorsKept(ns, ms, id);
    OnlySelf(ns, ms, id);
    var kids := KidsOf(ns, id);
    if r.cursor != 0 { IndexUnique(kids, i); }
  }

  /** Writing an entry with the same links and cursor. */
  lemma ConfigView(ns: seq<Entry>, id: nat, e: Entry)
    requires Linked(ns) && CursorsOk(ns) && 1 <= id < |ns| && e.link == ns[id].link && e.run.cursor == ns[id].run.cursor
    ensures var ms := ns[id := e];
      && Linked(ms) && CursorsOk(ms) && Only(ns, ms, id)
      && TreeOf(ms, id) == Node(
           Config(TreeOf(ns, id).cfg.path, e.cfg.kind, e.cfg.halt, e.cfg.condition, e.cfg.hooks, e.cfg.abort,
                  e.cfg.limit, e.cfg.duration, e.cfg.resolver),
           e.run.(cursor := TreeOf(ns, id).run.cursor), TreeOf(ns, id).kids)
  {
    hide TreeOf, Lineage, Under, CursorsOk;
    var ms := ns[id := e];
    WriteEntry(ns, id, e);
    CursorHere(ns, id);
    CursorsKept(ns, ms, id);
    OnlySelf(ns, ms, id);
  }

  lemma CursorHere(ns: seq<Entry>, id: nat)
    requires Linked(ns) && CursorsOk(ns) && 1 <= id < |ns|
    ensures CursorOk(ns, id)
  {
  }

  lemma CursorsKept(o: seq<Entry>, ns: seq<Entry>, id: nat)
    requires Linked(o) && Linked(ns) && SameLinks(o, ns) && CursorsOk(o) && 1 <= id < |o|
    requires forall j :: 0 <= j < |o| && j != id ==> o[j] == ns[j]
    requires ns[id].run.cursor == 0 || ns[id].run.cursor in KidsOf(o, id)
    ensures CursorsOk(ns)
  {
    forall j | 1 <= j < |ns| ensures CursorOk(ns, j) {
      KidsSame(o, ns, j);
      assert CursorOk(o, j);
    }
  }

  lemma OnlySelf(o: seq<Entry>, ns: seq<Entry>, id: nat)
    requires Linked(o) && Linked(ns) && SameLinks(o, ns) && 1 <= id < |o|
    requires forall j :: 0 <= j < |o| && j != id ==> o[j] == ns[j]
    ensures Only(o, ns, id)
  {
  }

  lemma NotAllValid(m: nat, maxDepth: nat, ns: seq<Entry>, id: nat)
    requires Linked(ns) && 1 <= id < |ns| && !Runs.ValidNode(m, maxDepth, TreeOf(ns, id))
    ensures !AllValid(m, maxDepth, ns)
  {
  }

  lemma EachIsAll(m: nat, maxDepth: nat, ns: seq<Entry>)
    requires Linked(ns) && forall j :: 1 <= j < |ns| ==> Runs.ValidNode(m, maxDepth, TreeOf(ns, j))
    ensures AllValid(m, maxDepth, ns)
  {
  }
}
