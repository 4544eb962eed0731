/** The past has no influence: what the runtime does next depends on the tree and on the host's
    answers, not on what has been done before. */
module BtPast {
  import opened Wrappers
  import opened BtTypes
  import opened BtSemantics
  import opened BtRuns
  import opened BtTheorems

  /** The same state with an earlier history h. */
  function After(h: seq<Event>, s: State): State {
    s.(trace := h + s.trace)
  }

  function OutAfter(h: seq<Event>, o: Out): Out {
    o.(s := After(h, o.s))
  }

  // ---- elementary steps --------------------------------------------------------------------------

  lemma CallPast(h: seq<Event>, s: State, e: Event)
    ensures Call(After(h, s), e) == After(h, Call(s, e)) && Next(After(h, s)) == Next(s)
  {
    assert h + (s.trace + [e]) == h + s.trace + [e];
  }

  lemma NotePast(h: seq<Event>, s: State, e: Event)
    ensures Note(After(h, s), e) == After(h, Note(s, e))
  {
    assert h + (s.trace + [e]) == h + s.trace + [e];
  }

  lemma {:induction false} ResetPast(h: seq<Event>, s: State, clear: bool)
    ensures ResetNode(After(h, s), clear) == After(h, ResetNode(s, clear))
    decreases ShapeOf(s.t), 1, 0
  {
    hide ResetKids, Clear;
    var c := Clear(s, clear);
    ClearPast(h, s, clear);
    ResetKidsPast(h, c, 0, clear);
    ClosePast(h, s.t, ResetKids(c, 0, clear));
  }

  lemma ClearPast(h: seq<Event>, s: State, clear: bool)
    ensures Clear(After(h, s), clear) == After(h, Clear(s, clear))
  {
    hide ShapeOf;
    NotePast(h, s, Halt(s.t.cfg.path, s.t.cfg.halt));
  }

  lemma ClosePast(h: seq<Event>, was: Tree, s: State)
    ensures CloseAdapter(was, After(h, s)) == After(h, CloseAdapter(was, s))
  {
    NotePast(h, s, PipelineAbort(was.cfg.path, was.run.counter, was.cfg.abort));
    NotePast(h, s, QueueAbort(was.cfg.path, was.cfg.abort));
  }

  lemma {:induction false} ResetKidsPast(h: seq<Event>, s: State, i: nat, clear: bool)
    requires i <= |s.t.kids|
    ensures ResetKids(After(h, s), i, clear) == After(h, ResetKids(s, i, clear))
    decreases ShapeOf(s.t), 0, |s.t.kids| - i
  {
    hide ResetChild;
    if i < |s.t.kids| {
      ResetChildPast(h, s, i, clear);
      ResetKidsPast(h, ResetChild(s, i, clear), i + 1, clear);
    }
  }

  lemma {:induction false} ResetChildPast(h: seq<Event>, s: State, i: nat, clear: bool)
    requires i < |s.t.kids|
    ensures ResetChild(After(h, s), i, clear) == After(h, ResetChild(s, i, clear))
    decreases ShapeOf(s.t), 0, 0
  {
    hide ResetNode;
    ShapeKid(s.t, i);
    ResetPast(h, Focus(s, i), clear);
    var r, kid := Unfocus(s.t, i, ResetNode(Focus(s, i), clear)), s.t.kids[i];
    NotePast(h, SetBranch(r, i, false), BranchAbort(s.t.cfg.path, kid.cfg.path, i, s.t.cfg.abort));
  }

  lemma ResetKidPast(h: seq<Event>, s: State, i: int, clear: bool)
    ensures ResetKid(After(h, s), i, clear) == After(h, ResetKid(s, i, clear))
  {
    hide ResetNode, ShapeOf;
    if 0 <= i < |s.t.kids| { ResetPast(h, Focus(s, i), clear); }
  }

  lemma {:induction false} LaterPast(h: seq<Event>, s: State, j: nat)
    requires j <= |s.t.kids|
    ensures ResetLater(After(h, s), j) == After(h, ResetLater(s, j))
    decreases |s.t.kids| - j
  {
    hide ResetKid, ShapeOf;
    if j < |s.t.kids| {
      ResetKidPast(h, s, j, false);
      LaterPast(h, ResetKid(s, j, false), j + 1);
    }
  }

  lemma EndPast(h: seq<Event>, s: State, st: Status)
    ensures End(After(h, s), st) == OutAfter(h, End(s, st))
  {
    hide ResetNode, ShapeOf;
    ResetPast(h, s, false);
  }

  lemma FailPast(h: seq<Event>, s: State, code: Code)
    ensures Fail(After(h, s), code) == OutAfter(h, Fail(s, code))
  {
    hide ResetNode, ShapeOf;
    ResetPast(h, s, false);
  }

  lemma CyclePast(h: seq<Event>, s: State, child: int)
    ensures NextCycle(After(h, s), child) == After(h, NextCycle(s, child))
  {
    hide ResetKid, ShapeOf;
    ResetKidPast(h, SetRun(s, s.t.run.(counter := s.t.run.counter + 1)), child, false);
  }

  lemma DropPast(h: seq<Event>, s: State)
    ensures DropCursor(After(h, s)) == After(h, DropCursor(s))
  {
    hide ResetKid, ShapeOf;
    ResetKidPast(h, s, s.t.run.cursor, false);
  }

  lemma TimerPast(h: seq<Event>, s: State)
    ensures StartTimer(After(h, s)) == After(h, StartTimer(s)) && Next(After(h, s)) == Next(s)
  {
    hide ShapeOf;
    CallPast(h, s, Clock(s.t.cfg.path, Next(s).now));
  }

  lemma RearmPast(h: seq<Event>, s: State, i: nat, agg: Status)
    requires i < |s.t.kids|
    ensures Rearm(After(h, s), i, agg) == After(h, Rearm(s, i, agg))
  {
    hide ResetKid, ShapeOf;
    ResetKidPast(h, SetBranch(s, i, false), i, true);
  }

  // ---- one tick --------------------------------------------------------------------------------------

  lemma {:induction false} NodePast(h: seq<Event>, m: nat, s: State)
    ensures TickNode(m, After(h, s)) == OutAfter(h, TickNode(m, s))
    decreases ShapeOf(s.t), 4, 0
  {
    hide TickImpl;
    ImplPast(h, m, s);
  }

  lemma {:induction false} ImplPast(h: seq<Event>, m: nat, s: State)
    ensures TickImpl(m, After(h, s)) == OutAfter(h, TickImpl(m, s))
    decreases ShapeOf(s.t), 3, 0
  {
    hide Resolved, Dispatch;
    ResolvedPast(h, m, s);
    if Resolved(m, s).code.Ok? { DispatchPast(h, m, Resolved(m, s).s); }
  }

  lemma ResolvedPast(h: seq<Event>, m: nat, s: State)
    ensures Resolved(m, After(h, s)) == OutAfter(h, Resolved(m, s))
  {
    hide ShapeOf, Deadline;
    CallPast(h, s, Resolve(s.t.cfg.path, Next(s).code));
    hide Call, Next;
  }

  lemma {:induction false} DispatchPast(h: seq<Event>, m: nat, s: State)
    ensures Dispatch(m, After(h, s)) == OutAfter(h, Dispatch(m, s))
    decreases ShapeOf(s.t), 2, 0
  {
    hide TickLeaf, TickPipeline, TickEntry, TickQueue, TickGuarded, TickKeepRunning, TickWhile, TickSwitch, TickRunOnce,
      TickTimeout, TickDelay, TickDecorator, TickParallel, ReactiveLoop, ChildLoop, RetryLoop, RepeatLoop, End, ShapeOf;
    match s.t.cfg.kind
    case Leaf => LeafPast(h, s);
    case Pipeline => PipelinePast(h, m, s);
    case EntryUpdated => EntryPast(h, m, s);
    case ConsumeQueue => QueuePast(h, m, s);
    case Precondition => GuardedPast(h, m, s);
    case IfThenElse => GuardedPast(h, m, s);
    case KeepRunning => KeepRunningPast(h, m, s);
    case WhileDo => WhilePast(h, m, s);
    case Switch => SwitchPast(h, m, s);
    case RunOnce => RunOncePast(h, m, s);
    case Timeout => TimeoutPast(h, m, s);
    case Delay => DelayPast(h, m, s);
    case Repeat => if s.t.run.limit == 0 { EndPast(h, s, Success); } else { RepeatPast(h, m, s, ResumeAt(s.t)); }
    case Retry =>
      if s.t.run.counter >= s.t.run.limit { EndPast(h, s, Failure); } else { RetryPast(h, m, s, ResumeAt(s.t)); }
    case Inverter => DecoratorPast(h, m, s);
    case ForceSuccess => DecoratorPast(h, m, s);
    case ForceFailure => DecoratorPast(h, m, s);
    case Parallel => ParallelPast(h, m, s);
    case ReactiveFallback => if s.t.kids != [] { ReactivePast(h, m, s, 0, Failure); }
    case ReactiveSequence => if s.t.kids != [] { ReactivePast(h, m, s, 0, Success); }
    case Sequence => ChildPast(h, m, s, ResumeAt(s.t), Success);
    case Fallback => ChildPast(h, m, s, ResumeAt(s.t), Failure);
  }

  lemma {:induction false} KidPast(h: seq<Event>, m: nat, s: State, i: int)
    ensures TickKid(m, After(h, s), i) == OutAfter(h, TickKid(m, s, i))
    decreases ShapeOf(s.t), 0, 0
  {
    hide TickNode;
    if 0 <= i < |s.t.kids| {
      ShapeKid(s.t, i);
      NodePast(h, m, Focus(s, i));
    }
  }

  lemma LeafPast(h: seq<Event>, s: State)
    ensures TickLeaf(After(h, s)) == OutAfter(h, TickLeaf(s))
  {
    hide ShapeOf;
    CallPast(h, s, Handler(s.t.cfg.path, Next(s).status));
  }

  lemma {:induction false} DecoratorPast(h: seq<Event>, m: nat, s: State)
    ensures TickDecorator(m, After(h, s)) == OutAfter(h, TickDecorator(m, s))
    decreases ShapeOf(s.t), 1, 0
  {
    hide TickKid, ShapeOf;
    KidPast(h, m, s, ResumeAt(s.t));
  }

  lemma {:induction false} ChildPast(h: seq<Event>, m: nat, s: State, i: int, go: Status)
    ensures ChildLoop(m, After(h, s), i, go) == OutAfter(h, ChildLoop(m, s, i, go))
    decreases ShapeOf(s.t), 1, if i < |s.t.kids| then |s.t.kids| - i else 0
  {
    hide TickKid, ShapeOf, End, Report, SetCursor;
    if i < 0 { EndPast(h, s, go); }
    else {
      KidPast(h, m, s, i);
      var o := TickKid(m, s, i);
      if !o.code.Ok? {
      } else if o.status == Running {
        CursorPast(h, o.s, i);
        ReportPast(h, SetCursor(o.s, i), Running);
      } else if o.status != go {
        EndPast(h, o.s, o.status);
      } else {
        var next := if i + 1 < |s.t.kids| then i + 1 else NO_CHILD;
        CursorPast(h, o.s, next);
        if next < 0 { EndPast(h, SetCursor(o.s, next), go); }
        else { ChildPast(h, m, SetCursor(o.s, next), next, go); }
      }
    }
  }

  lemma CursorPast(h: seq<Event>, s: State, c: int)
    ensures SetCursor(After(h, s), c) == After(h, SetCursor(s, c))
    ensures |SetCursor(s, c).t.kids| == |s.t.kids|
  {
    hide ShapeOf;
  }

  lemma ReportPast(h: seq<Event>, s: State, st: Status)
    ensures Report(After(h, s), st) == OutAfter(h, Report(s, st))
  {
    hide ShapeOf;
  }

  lemma {:induction false} ReactivePast(h: seq<Event>, m: nat, s: State, i: nat, go: Status)
    requires i <= |s.t.kids|
    ensures ReactiveLoop(m, After(h, s), i, go) == OutAfter(h, ReactiveLoop(m, s, i, go))
    decreases ShapeOf(s.t), 1, |s.t.kids| - i
  {
    hide TickKid, ShapeOf, End, Report, SetCursor, ResetLater;
    if i == |s.t.kids| { EndPast(h, s, go); }
    else {
      KidPast(h, m, s, i);
      var o := TickKid(m, s, i);
      if !o.code.Ok? {
      } else if o.status == Running {
        LaterPast(h, o.s, i + 1);
        CursorPast(h, ResetLater(o.s, i + 1), i);
        ReportPast(h, SetCursor(ResetLater(o.s, i + 1), i), Running);
      } else if o.status != go {
        EndPast(h, o.s, o.status);
      } else {
        ReactivePast(h, m, o.s, i + 1, go);
      }
    }
  }

  lemma {:induction false} RetryPast(h: seq<Event>, m: nat, s: State, child: int)
    requires s.t.run.counter < s.t.run.limit
    ensures RetryLoop(m, After(h, s), child) == OutAfter(h, RetryLoop(m, s, child))
    decreases ShapeOf(s.t), 1, s.t.run.limit - s.t.run.counter
  {
    hide TickKid, ShapeOf, End, Report, NextCycle;
    KidPast(h, m, s, child);
    var o := TickKid(m, s, child);
    if !o.code.Ok? {
    } else if o.status == Running { ReportPast(h, o.s, Running); }
    else if o.status == Success { EndPast(h, o.s, Success); }
    else {
      CyclePast(h, o.s, child);
      var r := NextCycle(o.s, child);
      if r.t.run.counter >= r.t.run.limit { EndPast(h, r, Failure); }
      else { RetryPast(h, m, r, if |r.t.kids| > 0 then 0 else NO_CHILD); }
    }
  }

  lemma {:induction false} RepeatPast(h: seq<Event>, m: nat, s: State, child: int)
    ensures RepeatLoop(m, After(h, s), child) == OutAfter(h, RepeatLoop(m, s, child))
    decreases ShapeOf(s.t), 1, if s.t.run.counter < s.t.run.limit then s.t.run.limit - s.t.run.counter else 0
  {
    hide TickKid, ShapeOf, End, Report, NextCycle;
    if s.t.run.counter >= s.t.run.limit { EndPast(h, s, Success); }
    else {
      KidPast(h, m, s, child);
      var o := TickKid(m, s, child);
      if !o.code.Ok? {
      } else if o.status == Running { ReportPast(h, o.s, Running); }
      else {
        CyclePast(h, o.s, child);
        var r := NextCycle(o.s, child);
        RepeatPast(h, m, r, if |r.t.kids| > 0 then 0 else NO_CHILD);
      }
    }
  }

  lemma {:induction false} KeepRunningPast(h: seq<Event>, m: nat, s: State)
    ensures TickKeepRunning(m, After(h, s)) == OutAfter(h, TickKeepRunning(m, s))
    decreases ShapeOf(s.t), 1, 0
  {
    hide TickKid, ShapeOf, End, Report, NextCycle;
    var child := ResumeAt(s.t);
    EndPast(h, s, Failure);
    KidPast(h, m, s, child);
    var o := TickKid(m, s, child);
    ReportPast(h, o.s, Running);
    EndPast(h, o.s, Success);
    CyclePast(h, o.s, child);
    EndPast(h, NextCycle(o.s, child), Failure);
    ReportPast(h, NextCycle(o.s, child), Running);
  }

  lemma {:induction false} RunOncePast(h: seq<Event>, m: nat, s: State)
    ensures TickRunOnce(m, After(h, s)) == OutAfter(h, TickRunOnce(m, s))
    decreases ShapeOf(s.t), 1, 0
  {
    hide TickKid, ShapeOf;
    KidPast(h, m, s, ResumeAt(s.t));
  }

  lemma {:induction false} TimeoutPast(h: seq<Event>, m: nat, s: State)
    ensures TickTimeout(m, After(h, s)) == OutAfter(h, TickTimeout(m, s))
    decreases ShapeOf(s.t), 1, 0
  {
    hide TickKid, ShapeOf, End, Report, StartTimer;
    TimerPast(h, s);
    var armed := StartTimer(s);
    EndPast(h, armed, Failure);
    KidPast(h, m, armed, ResumeAt(s.t));
    var o := TickKid(m, armed, ResumeAt(s.t));
    CallPast(h, o.s, Clock(s.t.cfg.path, Next(o.s).now));
    var c := Call(o.s, Clock(s.t.cfg.path, Next(o.s).now));
    EndPast(h, c, Failure);
    EndPast(h, c, o.status);
    ReportPast(h, c, Running);
  }

  lemma {:induction false} DelayPast(h: seq<Event>, m: nat, s: State)
    ensures TickDelay(m, After(h, s)) == OutAfter(h, TickDelay(m, s))
    decreases ShapeOf(s.t), 1, 1
  {
    hide DelayChild, ShapeOf, Report, StartTimer;
    var child := ResumeAt(s.t);
    TimerPast(h, s);
    var armed := StartTimer(s);
    ReportPast(h, armed, Running);
    var q := armed.t.run.(delayElapsed := true, timerStarted := false, deadline := 0, timerBegan := 0);
    if s.t.run.delayElapsed { DelayChildPast(h, m, s, child); } else { DelayChildPast(h, m, SetRun(armed, q), child); }
  }

  lemma {:induction false} DelayChildPast(h: seq<Event>, m: nat, s: State, child: int)
    ensures DelayChild(m, After(h, s), child) == OutAfter(h, DelayChild(m, s, child))
    decreases ShapeOf(s.t), 1, 0
  {
    hide TickKid, ShapeOf, End, Report;
    KidPast(h, m, s, child);
    var o := TickKid(m, s, child);
    ReportPast(h, o.s, Running);
    EndPast(h, o.s, o.status);
  }

  lemma {:induction false} EntryPast(h: seq<Event>, m: nat, s: State)
    ensures TickEntry(m, After(h, s)) == OutAfter(h, TickEntry(m, s))
    decreases ShapeOf(s.t), 1, 1
  {
    hide EntryChild, ShapeOf, ResetKid, Fail;
    var a := Next(s);
    var e := Changed(s.t.cfg.path, a.code, a.flag);
    CallPast(h, s, e);
    var asked := Call(s, e);
    FailPast(h, asked, a.code);
    ResetKidPast(h, asked, ResumeAt(s.t), false);
    var stopped := ResetKid(asked, ResumeAt(s.t), false);
    EntryChildPast(h, m, SetRun(stopped, stopped.t.run.(cursor := NO_CHILD, observed := true)));
    EntryChildPast(h, m, asked);
  }

  lemma {:induction false} EntryChildPast(h: seq<Event>, m: nat, s: State)
    ensures EntryChild(m, After(h, s)) == OutAfter(h, EntryChild(m, s))
    decreases ShapeOf(s.t), 1, 0
  {
    hide TickKid, ShapeOf, Report, SetCursor, Fail;
    KidPast(h, m, s, 0);
    var o := TickKid(m, s, 0);
    FailPast(h, o.s, o.code);
    CursorPast(h, o.s, 0);
    CursorPast(h, o.s, NO_CHILD);
    ReportPast(h, SetCursor(o.s, 0), Running);
    ReportPast(h, SetCursor(o.s, NO_CHILD), o.status);
  }

  lemma {:induction false} QueuePast(h: seq<Event>, m: nat, s: State)
    ensures TickQueue(m, After(h, s)) == OutAfter(h, TickQueue(m, s))
    decreases ShapeOf(s.t), 1, 1
  {
    hide QueueItem, ShapeOf, End, Fail;
    if s.t.kids != [] {
      if s.t.run.prepared { QueueItemPast(h, m, s); }
      else {
        var a, q := Next(s), SetRun(s, s.t.run.(prepared := true));
        var e := Begin(s.t.cfg.path, a.code, a.flag);
        CallPast(h, q, e);
        var b := Call(q, e);
        FailPast(h, b, a.code);
        EndPast(h, SetRun(b, b.t.run.(prepared := false)), Failure);
        QueueItemPast(h, m, b);
      }
    }
  }

  lemma {:induction false} QueueItemPast(h: seq<Event>, m: nat, s: State)
    requires s.t.kids != []
    ensures QueueItem(m, After(h, s)) == OutAfter(h, QueueItem(m, s))
    decreases ShapeOf(s.t), 1, 0
  {
    hide TickKid, ShapeOf, Report, SetCursor, Fail, End, FinishItem;
    KidPast(h, m, s, 0);
    var o := TickKid(m, s, 0);
    FailPast(h, o.s, o.code);
    CursorPast(h, o.s, 0);
    ReportPast(h, SetCursor(o.s, 0), Running);
    EndPast(h, o.s, Failure);
    FinishPast(h, o.s);
  }

  lemma FinishPast(h: seq<Event>, s: State)
    ensures FinishItem(After(h, s)) == OutAfter(h, FinishItem(s))
  {
    hide ShapeOf, Report, SetCursor, Fail, End, ResetKid;
    var a := Next(s);
    var e := Finish(s.t.cfg.path, a.code, a.flag);
    CallPast(h, s, e);
    FailPast(h, Call(s, e), a.code);
    var closed := SetRun(Call(s, e), s.t.run.(prepared := false));
    ResetKidPast(h, closed, 0, false);
    CursorPast(h, ResetKid(closed, 0, false), NO_CHILD);
    ReportPast(h, SetCursor(ResetKid(closed, 0, false), NO_CHILD), Running);
    EndPast(h, closed, Success);
  }

  lemma {:induction false} GuardPast(h: seq<Event>, m: nat, s: State)
    ensures AskGuard(m, After(h, s)) == OutAfter(h, AskGuard(m, s))
    decreases ShapeOf(s.t), 1, 0
  {
    hide TickKid, ShapeOf;
    CallPast(h, s, Condition(s.t.cfg.path, Next(s).code, Next(s).status));
    KidPast(h, m, s, 0);
  }

  lemma {:induction false} SelectedPast(h: seq<Event>, m: nat, s: State, selected: int)
    ensures TickSelected(m, After(h, s), selected) == OutAfter(h, TickSelected(m, s, selected))
    decreases ShapeOf(s.t), 1, 1
  {
    hide TickKid, ShapeOf, DropCursor, End, Report, SetCursor;
    DropPast(h, s);
    var q := if s.t.run.cursor != selected then DropCursor(s) else s;
    KidPast(h, m, q, selected);
    var o := TickKid(m, q, selected);
    CursorPast(h, o.s, selected);
    ReportPast(h, SetCursor(o.s, selected), Running);
    EndPast(h, o.s, o.status);
  }

  lemma {:induction false} GuardedPast(h: seq<Event>, m: nat, s: State)
    ensures TickGuarded(m, After(h, s)) == OutAfter(h, TickGuarded(m, s))
    decreases ShapeOf(s.t), 1, 2
  {
    hide AskGuard, TickSelected, ShapeOf, DropCursor, End, Report;
    GuardPast(h, m, s);
    var g := AskGuard(m, s);
    var first := if s.t.cfg.condition then 0 else 1;
    DropPast(h, g.s);
    ReportPast(h, DropCursor(g.s), Running);
    EndPast(h, g.s, Failure);
    SelectedPast(h, m, g.s, first);
    SelectedPast(h, m, g.s, first + 1);
  }

  lemma {:induction false} SwitchPast(h: seq<Event>, m: nat, s: State)
    ensures TickSwitch(m, After(h, s)) == OutAfter(h, TickSwitch(m, s))
    decreases ShapeOf(s.t), 1, 2
  {
    hide TickSelected, ShapeOf, End;
    var a := Next(s);
    var e := Select(s.t.cfg.path, a.code, a.index);
    CallPast(h, s, e);
    EndPast(h, Call(s, e), Failure);
    SelectedPast(h, m, Call(s, e), a.index);
  }

  lemma {:induction false} WhilePast(h: seq<Event>, m: nat, s: State)
    ensures TickWhile(m, After(h, s)) == OutAfter(h, TickWhile(m, s))
    decreases ShapeOf(s.t), 1, 2
  {
    hide AskGuard, WhileBody, ShapeOf, DropCursor, End, Report;
    EndPast(h, s, Success);
    GuardPast(h, m, s);
    var g := AskGuard(m, s);
    DropPast(h, g.s);
    ReportPast(h, DropCursor(g.s), Running);
    EndPast(h, g.s, Success);
    BodyPast(h, m, g.s, if s.t.cfg.condition then 0 else 1);
  }

  lemma {:induction false} BodyPast(h: seq<Event>, m: nat, s: State, body: nat)
    ensures WhileBody(m, After(h, s), body) == OutAfter(h, WhileBody(m, s, body))
    decreases ShapeOf(s.t), 1, 0
  {
    hide TickKid, ShapeOf, End, Report, NextCycle, SetCursor;
    KidPast(h, m, s, body);
    var o := TickKid(m, s, body);
    CursorPast(h, o.s, body);
    ReportPast(h, SetCursor(o.s, body), Running);
    CursorPast(h, o.s, NO_CHILD);
    var idle := SetCursor(o.s, NO_CHILD);
    EndPast(h, idle, Failure);
    CyclePast(h, idle, body);
    EndPast(h, NextCycle(idle, body), Success);
    ReportPast(h, NextCycle(idle, body), Running);
  }

  lemma {:induction false} BranchPast(h: seq<Event>, m: nat, s: State, i: nat)
    requires i < |s.t.kids|
    ensures TickBranch(m, After(h, s), i) == OutAfter(h, TickBranch(m, s, i))
    decreases ShapeOf(s.t), 1, 0
  {
    hide TickKid, TickEntered, ShapeOf, Fail;
    KidPast(h, m, s, i);
    FailPast(h, TickKid(m, s, i).s, TickKid(m, s, i).code);
    var a, kid, q := Next(s), s.t.kids[i], SetBranch(s, i, true);
    var e := Enter(s.t.cfg.path, kid.cfg.path, i, !kid.run.branchPrepared, a.code);
    CallPast(h, q, e);
    FailPast(h, Call(q, e), a.code);
    EnteredPast(h, m, Call(q, e), i);
  }

  lemma {:induction false} EnteredPast(h: seq<Event>, m: nat, s: State, i: nat)
    requires i < |s.t.kids|
    ensures TickEntered(m, After(h, s), i) == OutAfter(h, TickEntered(m, s, i))
    decreases ShapeOf(s.t), 0, 1
  {
    hide TickKid, ShapeOf, Fail;
    KidPast(h, m, s, i);
    var o := TickKid(m, s, i);
    FailPast(h, o.s, o.code);
    var e := Step(s.t.cfg.path, s.t.kids[i].cfg.path, i, o.status, Next(o.s).code);
    CallPast(h, o.s, e);
    FailPast(h, Call(o.s, e), Next(o.s).code);
  }

  lemma {:induction false} BranchesPast(h: seq<Event>, m: nat, s: State, i: nat, sofar: Status)
    requires i <= |s.t.kids|
    ensures BranchLoop(m, After(h, s), i, sofar) == OutAfter(h, BranchLoop(m, s, i, sofar))
    decreases ShapeOf(s.t), 1, |s.t.kids| - i + 1
  {
    hide TickBranch, ShapeOf;
    if i < |s.t.kids| {
      BranchPast(h, m, s, i);
      var o := TickBranch(m, s, i);
      if o.code.Ok? { BranchesPast(h, m, o.s, i + 1, Aggregate(sofar, o.status)); }
    }
  }

  lemma {:induction false} FinishLoopPast(h: seq<Event>, s: State, i: nat, agg: Status)
    requires i <= |s.t.kids|
    ensures FinishLoop(After(h, s), i, agg) == OutAfter(h, FinishLoop(s, i, agg))
    decreases |s.t.kids| - i
  {
    hide ShapeOf, Rearm, Fail;
    if i < |s.t.kids| {
      var kid := s.t.kids[i];
      if !Terminal(kid) { FinishLoopPast(h, s, i + 1, agg); }
      else if s.t.cfg.hooks && kid.run.branchPrepared {
        var a := Next(s);
        var e := BranchFinish(s.t.cfg.path, kid.cfg.path, i, kid.run.last, a.code);
        CallPast(h, s, e);
        var f := Call(s, e);
        FailPast(h, f, a.code);
        RearmPast(h, SetBranch(f, i, false), i, agg);
        FinishLoopPast(h, Rearm(SetBranch(f, i, false), i, agg), i + 1, agg);
      } else {
        RearmPast(h, s, i, agg);
        FinishLoopPast(h, Rearm(s, i, agg), i + 1, agg);
      }
    }
  }

  lemma {:induction false} ParallelPast(h: seq<Event>, m: nat, s: State)
    ensures TickParallel(m, After(h, s)) == OutAfter(h, TickParallel(m, s))
    decreases ShapeOf(s.t), 1, |s.t.kids| + 2
  {
    hide BranchLoop, FinishLoop, ShapeOf, Fail, End, Report;
    if s.t.kids != [] {
      BranchesPast(h, m, s, 0, Success);
      var o := BranchLoop(m, s, 0, Success);
      if o.code.Ok? {
        var a := Next(o.s);
        var e := Join(s.t.cfg.path, o.status, a.code);
        CallPast(h, o.s, e);
        var joined := if s.t.cfg.hooks then Call(o.s, e) else o.s;
        FailPast(h, joined, a.code);
        FinishLoopPast(h, joined, 0, o.status);
        var f := FinishLoop(joined, 0, o.status);
        ReportPast(h, f.s, Running);
        EndPast(h, f.s, o.status);
      }
    }
  }

  lemma {:induction false} PipelinePast(h: seq<Event>, m: nat, s: State)
    ensures TickPipeline(m, After(h, s)) == OutAfter(h, TickPipeline(m, s))
    decreases ShapeOf(s.t), 1, PipelineLeft(s.t), 2
  {
    hide PipelineChild, ShapeOf, Fail, End;
    EndPast(h, s, Success);
    var run, a := s.t.run, Next(s);
    if run.cursor >= 0 || run.counter < |s.t.kids| {
      var current := if run.cursor >= 0 then run.cursor else run.counter;
      var q, e := SetRun(s, run.(prepared := true)), Prepare(s.t.cfg.path, run.counter, a.code);
      CallPast(h, q, e);
      FailPast(h, Call(q, e), a.code);
      PipelineChildPast(h, m, if run.prepared then s else Call(q, e), current);
    }
  }

  lemma {:induction false} PipelineChildPast(h: seq<Event>, m: nat, s: State, current: nat)
    requires s.t.run.cursor >= 0 || s.t.run.counter < |s.t.kids|
    ensures PipelineChild(m, After(h, s), current) == OutAfter(h, PipelineChild(m, s, current))
    decreases ShapeOf(s.t), 1, PipelineLeft(s.t), 1
  {
    hide TickKid, PipelineComplete, ShapeOf, Fail, Report, SetCursor;
    KidPast(h, m, s, current);
    var o := TickKid(m, s, current);
    FailPast(h, o.s, o.code);
    CursorPast(h, o.s, current);
    ReportPast(h, SetCursor(o.s, current), Running);
    if o.code.Ok? && o.status != Running { CompletePast(h, m, o.s, o.status); }
  }

  lemma {:induction false} CompletePast(h: seq<Event>, m: nat, s: State, st: Status)
    requires s.t.run.cursor >= 0 || s.t.run.counter < |s.t.kids|
    ensures PipelineComplete(m, After(h, s), st) == OutAfter(h, PipelineComplete(m, s, st))
    decreases ShapeOf(s.t), 1, PipelineLeft(s.t), 0
  {
    hide TickPipeline, ShapeOf, Fail, End;
    var a := Next(s);
    var e := Complete(s.t.cfg.path, s.t.run.counter, st, a.code);
    CallPast(h, s, e);
    FailPast(h, Call(s, e), a.code);
    EndPast(h, Completed(s, e, s.t.run.counter), Failure);
    if a.code.Ok? && st != Failure { PipelinePast(h, m, Completed(s, e, s.t.run.counter + 1)); }
  }

  // ---- whole runs ------------------------------------------------------------------------------------

  function MachineAfter(h: seq<Event>, x: Machine): Machine {
    x.(trace := h + x.trace)
  }

  function ReplyAfter(h: seq<Event>, r: Reply): Reply {
    r.(machine := MachineAfter(h, r.machine))
  }

  lemma ResetTreePast(h: seq<Event>, x: Machine)
    ensures ResetTree(MachineAfter(h, x)) == MachineAfter(h, ResetTree(x))
  {
    hide ResetNode, ShapeOf;
    if x.root.Some? { ResetPast(h, State(x.script, x.trace, x.root.value), true); }
  }

  lemma TickTreePast(h: seq<Event>, x: Machine)
    ensures TickTree(MachineAfter(h, x)) == ReplyAfter(h, TickTree(x))
  {
    hide TickNode, ResetTree, ShapeOf, ValidTree;
    if x.root.Some? {
      ResetTreePast(h, x);
      var s := State(x.script, x.trace, x.root.value);
      NodePast(h, x.m, s);
      ResetTreePast(h, Rooted(x, TickNode(x.m, s).s));
    }
  }

  lemma {:induction false} ResolverAtPast(h: seq<Event>, s: State, p: Path, r: Resolver)
    ensures ResolverAt(After(h, s), p, r) == After(h, ResolverAt(s, p, r))
    decreases s.t
  {
    hide ResetNode, ShapeOf;
    if s.t.cfg.path == p {
      ResetPast(h, s, true);
    } else {
      var i := KidToward(s.t.kids, p);
      if i >= 0 { ResolverAtPast(h, Focus(s, i), p, r); }
    }
  }

  /** A public call does the same whatever has happened before. */
  lemma DoPast(h: seq<Event>, x: Machine, op: Op)
    ensures Do(MachineAfter(h, x), op) == ReplyAfter(h, Do(x, op))
  {
    hide TickTree, ResetTree, PutResolver, AddNode;
    match op
    case Tick => TickTreePast(h, x);
    case Reset => ResetTreePast(h, x);
    case Cancel => ResetTreePast(h, x);
    case Add(parent, n) => AddPast(h, x, parent, n);
    case SetResolver(p, r) => PutResolverPast(h, x, p, r);
  }

  lemma AddPast(h: seq<Event>, x: Machine, parent: Option<Path>, n: NodeSpec)
    ensures AddNode(MachineAfter(h, x), parent, n) == ReplyAfter(h, AddNode(x, parent, n))
  {
    hide ShapeOf, Lookup, AddAt, Proper, LimitAccepted, HasRoom;
  }

  lemma PutResolverPast(h: seq<Event>, x: Machine, p: Path, r: Resolver)
    ensures PutResolver(MachineAfter(h, x), p, r) == ReplyAfter(h, PutResolver(x, p, r))
  {
    hide ShapeOf, Lookup, ResolverAt;
    if x.root.Some? { ResolverAtPast(h, State(x.script, x.trace, x.root.value), p, r); }
  }

  /** And so does any sequence of them. */
  lemma {:induction false} RunPast(h: seq<Event>, x: Machine, ops: seq<Op>)
    ensures Perform(MachineAfter(h, x), ops) == MachineAfter(h, Perform(x, ops))
    decreases |ops|
  {
    hide Do;
    if ops != [] {
      DoPast(h, x, ops[0]);
      RunPast(h, Do(x, ops[0]).machine, ops[1..]);
    }
  }

  // ---- a reset tree and a new one ----------------------------------------------------------------------

  lemma {:induction false} AddAtFresh(t: Tree, p: Path, n: Tree)
    requires t == FreshOf(ShapeOf(t)) && n == FreshOf(ShapeOf(n))
    ensures AddAt(t, p, n) == FreshOf(ShapeOf(AddAt(t, p, n)))
    decreases t
  {
    var u, f := AddAt(t, p, n), FreshOf(ShapeOf(AddAt(t, p, n)));
    forall j | 0 <= j < |u.kids| ensures u.kids[j] == f.kids[j] {
      ShapeKid(u, j);
      if j < |t.kids| {
        FreshKid(t, j);
        AddAtFresh(t.kids[j], p, n);
      }
    }
    assert u.kids == f.kids;
  }

  lemma FreshKid(t: Tree, j: nat)
    requires t == FreshOf(ShapeOf(t)) && j < |t.kids|
    ensures t.kids[j] == FreshOf(ShapeOf(t.kids[j]))
  {
    ShapeKid(t, j);
  }

  /** What construction alone gives: a machine reached by Add calls only has a fresh tree and
      has called nobody. */
  lemma {:induction false} BuiltIsFresh(x: Machine, ops: seq<Op>)
    requires x.root.Some? ==> x.root.value == FreshOf(ShapeOf(x.root.value))
    requires forall i :: 0 <= i < |ops| ==> ops[i].Add?
    ensures var z := Perform(x, ops);
      && z.trace == x.trace && (z.root.Some? ==> z.root.value == FreshOf(ShapeOf(z.root.value)))
    decreases |ops|
  {
    hide ShapeOf, FreshOf, Do;
    if ops != [] {
      AddIsFresh(x, ops[0]);
      BuiltIsFresh(Do(x, ops[0]).machine, ops[1..]);
    }
  }

  lemma AddIsFresh(x: Machine, op: Op)
    requires op.Add? && (x.root.Some? ==> x.root.value == FreshOf(ShapeOf(x.root.value)))
    ensures var z := Do(x, op).machine;
      z.trace == x.trace && (z.root.Some? ==> z.root.value == FreshOf(ShapeOf(z.root.value)))
  {
    hide ShapeOf, FreshOf, AddAt, NewNode, Lookup, Proper, LimitAccepted, HasRoom;
    var n, id := op.spec, x.count + 1;
    var p := if op.parent.Some? then op.parent.value + [id] else [id];
    NewIsFresh(p, n);
    if x.root.Some? && op.parent.Some? { AddAtFresh(x.root.value, op.parent.value, NewNode(p, n)); }
  }

  lemma NewIsFresh(p: Path, n: NodeSpec)
    ensures NewNode(p, n) == FreshOf(ShapeOf(NewNode(p, n)))
  {
    assert FreshOf(ShapeOf(NewNode(p, n))).kids == [];
  }

  /** Without resolvers, a tree that was used in any way and then reset answers every later
      call as a newly built tree of the same shape does, given the same host answers. */
  lemma ResetBehavesAsNew(m: nat, maxNodes: nat, maxDepth: nat, script: seq<Answer>, ops: seq<Op>,
                          built: seq<Op>, answers: seq<Answer>, later: seq<Op>)
    requires forall i :: 0 <= i < |built| ==> built[i].Add?
    ensures var x := Perform(Empty(m, maxNodes, maxDepth, script), ops);
      var y := Perform(Empty(m, maxNodes, maxDepth, answers), built);
      && x.root.Some? && y.root.Some? && x.count == y.count
      && ShapeOf(x.root.value) == ShapeOf(y.root.value) && NoResolvers(ShapeOf(x.root.value)) ==>
        var r := ResetTree(x).(script := y.script);
        r == MachineAfter(r.trace, y) && Perform(r, later) == MachineAfter(r.trace, Perform(y, later))
  {
    var x := Perform(Empty(m, maxNodes, maxDepth, script), ops);
    var y := Perform(Empty(m, maxNodes, maxDepth, answers), built);
    hide NoResolvers, FreshOf, Renewed;
    BuiltIsFresh(Empty(m, maxNodes, maxDepth, answers), built);
    ResetEqualsFresh(m, maxNodes, maxDepth, script, ops);
    LimitsKept(Empty(m, maxNodes, maxDepth, script), ops);
    LimitsKept(Empty(m, maxNodes, maxDepth, answers), built);
    hide Perform, ShapeOf, ResetNode;
    if x.root.Some? && y.root.Some? {
      var r := ResetTree(x).(script := y.script);
      RunPast(r.trace, y, later);
    }
  }

  lemma {:induction false} LimitsKept(x: Machine, ops: seq<Op>)
    ensures var z := Perform(x, ops); z.m == x.m && z.maxNodes == x.maxNodes && z.maxDepth == x.maxDepth
    decreases |ops|
  {
    if ops != [] {
      OneKept(x, ops[0]);
      hide Do;
      LimitsKept(Do(x, ops[0]).machine, ops[1..]);
    }
  }

  lemma OneKept(x: Machine, op: Op)
    ensures var z := Do(x, op).machine; z.m == x.m && z.maxNodes == x.maxNodes && z.maxDepth == x.maxDepth
  {
    hide TickNode, ResetNode, ResolverAt, AddAt, ShapeOf, Lookup;
  }
}
