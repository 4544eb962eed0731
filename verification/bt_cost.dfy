/** How many leaf calls one tick can make. */
module BtCost {
  import opened BtTypes
  import opened BtSemantics
  import opened BtInvariant
  import opened BtRuns

  /** Leaf handler calls in a history. */
  function Calls(trace: seq<Event>): nat {
    if trace == [] then 0
    else
      var n := |trace| - 1;
      Calls(trace[..n]) + if trace[n].Handler? then 1 else 0
  }

  lemma CallsStep(trace: seq<Event>, e: Event)
    ensures Calls(trace + [e]) == Calls(trace) + if e.Handler? then 1 else 0
  {
    assert (trace + [e])[..|trace|] == trace;
  }

  /** Leaf calls that a node may make in one tick: Retry and Repeat multiply by m. */
  function Budget(sh: Shape, m: nat): nat {
    if sh.cfg.kind == Leaf then 1
    else if sh.cfg.kind == Retry || sh.cfg.kind == Repeat then m * SumFrom(sh, m, 0)
    else SumFrom(sh, m, 0)
  }

  function SumFrom(sh: Shape, m: nat, i: nat): nat
    decreases sh, 0, |sh.kids| - i
  {
    if i >= |sh.kids| then 0 else Budget(sh.kids[i], m) + SumFrom(sh, m, i + 1)
  }

  function Power(m: nat, k: nat): nat {
    if k == 0 then 1 else m * Power(m, k - 1)
  }

  /** The sum over the leaves of m to the number of their Retry and Repeat ancestors,
      of which k lie above this node. */
  function LeafSum(sh: Shape, m: nat, k: nat): nat
    decreases sh, 1, 0
  {
    if sh.cfg.kind == Leaf then Power(m, k)
    else LeafSumFrom(sh, m, if sh.cfg.kind == Retry || sh.cfg.kind == Repeat then k + 1 else k, 0)
  }

  function LeafSumFrom(sh: Shape, m: nat, k: nat, i: nat): nat
    decreases sh, 0, |sh.kids| - i
  {
    if i >= |sh.kids| then 0 else LeafSum(sh.kids[i], m, k) + LeafSumFrom(sh, m, k, i + 1)
  }

  lemma {:induction false} BudgetIsLeafSum(sh: Shape, m: nat, k: nat)
    ensures LeafSum(sh, m, k) == Power(m, k) * Budget(sh, m)
    decreases sh, 1, 0
  {
    hide SumFrom, LeafSumFrom;
    if sh.cfg.kind == Retry || sh.cfg.kind == Repeat {
      SumsAgree(sh, m, k + 1, 0);
      PowerStep(m, k, SumFrom(sh, m, 0));
    } else if sh.cfg.kind != Leaf {
      SumsAgree(sh, m, k, 0);
    }
  }

  lemma {:induction false} SumsAgree(sh: Shape, m: nat, k: nat, i: nat)
    ensures LeafSumFrom(sh, m, k, i) == Power(m, k) * SumFrom(sh, m, i)
    decreases sh, 0, |sh.kids| - i
  {
    hide Power, LeafSum, Budget;
    if i < |sh.kids| {
      BudgetIsLeafSum(sh.kids[i], m, k);
      SumsAgree(sh, m, k, i + 1);
      Distribute(Power(m, k), Budget(sh.kids[i], m), SumFrom(sh, m, i + 1));
    }
  }

  lemma PowerStep(m: nat, k: nat, q: nat)
    ensures Power(m, k + 1) * q == Power(m, k) * (m * q)
  {
    var p := Power(m, k);
    assert Power(m, k + 1) == m * p;
    hide Power;
    assert (m * p) * q == p * (m * q);
  }

  lemma Distribute(p: nat, a: nat, b: nat)
    ensures p * (a + b) == p * a + p * b
  {
  }

  /** One child's share is part of the sum. */
  lemma {:induction false} Share(sh: Shape, m: nat, i: nat, j: nat)
    requires i <= j < |sh.kids|
    ensures Budget(sh.kids[j], m) + SumFrom(sh, m, j + 1) <= SumFrom(sh, m, i)
    decreases j - i
  {
    if i < j { Share(sh, m, i + 1, j); }
  }

  // ---- what a step may spend -------------------------------------------------------------------

  /** Loop limits are at most m, and a pipeline's cursor is the child its counter names. */
  ghost predicate Bound(m: nat, t: Tree) {
    BoundNode(m, t.cfg.kind, t.run) && forall i :: 0 <= i < |t.kids| ==> Bound(m, t.kids[i])
  }

  predicate BoundNode(m: nat, k: Kind, run: Run) {
    (IsLoop(k) ==> run.limit <= m) && (k == Pipeline ==> run.cursor < 0 || run.cursor == run.counter)
  }

  /** From s to q at most b leaf calls are made, and bounds are kept. */
  ghost predicate Spent(m: nat, s: State, q: State, b: nat) {
    Bound(m, q.t) && Alike(q.t, s.t) && Calls(q.trace) <= Calls(s.trace) + b
  }

  lemma PayCall(m: nat, s: State, e: Event)
    requires Bound(m, s.t)
    ensures Spent(m, s, Call(s, e), if e.Handler? then 1 else 0)
  {
    hide Calls, Bound, ShapeOf;
    CallsStep(s.trace, e);
  }

  lemma PayNote(m: nat, s: State, e: Event)
    requires Bound(m, s.t) && !e.Handler?
    ensures Spent(m, s, Note(s, e), 0)
  {
    hide Calls, Bound, ShapeOf;
    CallsStep(s.trace, e);
  }

  lemma PayRun(m: nat, s: State, run: Run)
    requires Bound(m, s.t) && BoundNode(m, s.t.cfg.kind, run)
    ensures Spent(m, s, SetRun(s, run), 0)
  {
    hide ShapeOf, Calls;
  }

  lemma PayKid(m: nat, s: State, i: nat, q: State)
    requires Bound(m, s.t) && i < |s.t.kids| && Bound(m, q.t) && ShapeOf(q.t) == ShapeOf(s.t.kids[i])
    ensures var u := Unfocus(s.t, i, q).t; Bound(m, u) && Alike(u, s.t)
  {
    SameShapeKid(s.t, i, q.t);
  }

  lemma {:induction false} PayReset(m: nat, s: State, clear: bool)
    requires Bound(m, s.t)
    ensures Spent(m, s, ResetNode(s, clear), 0)
    decreases ShapeOf(s.t), 1, 0
  {
    hide ResetKids, Calls;
    var c := Clear(s, clear);
    PayClear(m, s, clear);
    PayResetKids(m, c, 0, clear);
    PayClose(m, s.t, ResetKids(c, 0, clear));
  }

  lemma PayClear(m: nat, s: State, clear: bool)
    requires Bound(m, s.t)
    ensures Spent(m, s, Clear(s, clear), 0)
  {
    hide Calls, ShapeOf, Bound;
    var halt := Halt(s.t.cfg.path, s.t.cfg.halt);
    PayNote(m, s, halt);
    assert BoundNode(m, s.t.cfg.kind, s.t.run) by { BoundHere(m, s.t); }
    PayRun(m, s, ClearedRun(s.t, clear));
    PayRun(m, Note(s, halt), ClearedRun(s.t, clear));
  }

  lemma BoundHere(m: nat, t: Tree)
    requires Bound(m, t)
    ensures BoundNode(m, t.cfg.kind, t.run)
  {
  }

  lemma PayClose(m: nat, was: Tree, s: State)
    requires Bound(m, s.t)
    ensures Spent(m, s, CloseAdapter(was, s), 0)
  {
    hide Calls, ShapeOf, Bound;
    PayNote(m, s, PipelineAbort(was.cfg.path, was.run.counter, was.cfg.abort));
    PayNote(m, s, QueueAbort(was.cfg.path, was.cfg.abort));
  }

  lemma {:induction false} PayResetKids(m: nat, s: State, i: nat, clear: bool)
    requires Bound(m, s.t) && i <= |s.t.kids|
    ensures Spent(m, s, ResetKids(s, i, clear), 0)
    decreases ShapeOf(s.t), 0, |s.t.kids| - i
  {
    hide ResetChild, Calls, Bound;
    if i < |s.t.kids| {
      PayResetChild(m, s, i, clear);
      PayResetKids(m, ResetChild(s, i, clear), i + 1, clear);
    }
  }

  lemma {:induction false} PayResetChild(m: nat, s: State, i: nat, clear: bool)
    requires Bound(m, s.t) && i < |s.t.kids|
    ensures Spent(m, s, ResetChild(s, i, clear), 0)
    decreases ShapeOf(s.t), 0, 0
  {
    hide ResetNode, Calls, Bound;
    ShapeKid(s.t, i);
    BoundKid(m, s.t, i);
    PayReset(m, Focus(s, i), clear);
    var kid, q := s.t.kids[i], ResetNode(Focus(s, i), clear);
    PayKid(m, s, i, q);
    var r := Unfocus(s.t, i, q);
    if s.t.cfg.kind == Parallel && kid.run.branchPrepared {
      PayBranch(m, r, i, false);
      PayNote(m, SetBranch(r, i, false), BranchAbort(s.t.cfg.path, kid.cfg.path, i, s.t.cfg.abort));
    }
  }

  lemma BoundKid(m: nat, t: Tree, i: nat)
    requires Bound(m, t) && i < |t.kids|
    ensures Bound(m, t.kids[i])
  {
  }

  lemma PayBranch(m: nat, s: State, i: nat, b: bool)
    requires Bound(m, s.t) && i < |s.t.kids|
    ensures Spent(m, s, SetBranch(s, i, b), 0)
  {
    hide Calls;
    var kid := s.t.kids[i];
    SameShape(kid, kid.(run := kid.run.(branchPrepared := b)));
    PayKid(m, s, i, s.(t := kid.(run := kid.run.(branchPrepared := b))));
  }

  lemma PayResetKid(m: nat, s: State, i: int, clear: bool)
    requires Bound(m, s.t)
    ensures Spent(m, s, ResetKid(s, i, clear), 0)
  {
    hide Calls, ResetNode, Bound;
    if 0 <= i < |s.t.kids| {
      BoundKid(m, s.t, i);
      PayReset(m, Focus(s, i), clear);
      PayKid(m, s, i, ResetNode(Focus(s, i), clear));
    }
  }

  lemma {:induction false} PayLater(m: nat, s: State, j: nat)
    requires Bound(m, s.t) && j <= |s.t.kids|
    ensures Spent(m, s, ResetLater(s, j), 0)
    decreases |s.t.kids| - j
  {
    hide Calls, ResetKid, Bound, ShapeOf;
    if j < |s.t.kids| {
      PayResetKid(m, s, j, false);
      PayLater(m, ResetKid(s, j, false), j + 1);
    }
  }

  lemma PayReport(m: nat, s: State, st: Status)
    requires Bound(m, s.t)
    ensures Spent(m, s, Report(s, st).s, 0)
  {
    hide Calls, ShapeOf, Bound;
    BoundHere(m, s.t);
    PayRun(m, s, s.t.run.(last := st));
  }

  lemma PayEnd(m: nat, s: State, st: Status)
    requires Bound(m, s.t)
    ensures Spent(m, s, End(s, st).s, 0)
  {
    hide Calls, ShapeOf, Bound, ResetNode;
    PayReset(m, s, false);
    var r := ResetNode(s, false);
    BoundHere(m, r.t);
    PayRun(m, r, r.t.run.(last := st));
  }

  lemma PayFail(m: nat, s: State, code: Code)
    requires Bound(m, s.t)
    ensures Spent(m, s, Fail(s, code).s, 0)
  {
    hide Calls, ShapeOf, Bound, ResetNode;
    PayReset(m, s, false);
  }

  lemma PayCursor(m: nat, s: State, c: int)
    requires Bound(m, s.t) && (s.t.cfg.kind == Pipeline ==> c < 0 || c == s.t.run.counter)
    ensures Spent(m, s, SetCursor(s, c), 0)
  {
    hide Calls, ShapeOf, Bound;
    BoundHere(m, s.t);
    PayRun(m, s, s.t.run.(cursor := c));
  }

  lemma PayCycle(m: nat, s: State, child: int)
    requires Bound(m, s.t) && s.t.cfg.kind != Pipeline
    ensures Spent(m, s, NextCycle(s, child), 0)
  {
    hide Calls, ShapeOf, Bound, ResetKid;
    BoundHere(m, s.t);
    var q := s.t.run.(counter := s.t.run.counter + 1);
    PayRun(m, s, q);
    PayResetKid(m, SetRun(s, q), child, false);
  }

  lemma PayDrop(m: nat, s: State)
    requires Bound(m, s.t)
    ensures Spent(m, s, DropCursor(s), 0)
  {
    hide Calls, ShapeOf, Bound, ResetKid;
    if s.t.run.cursor >= 0 {
      PayResetKid(m, s, s.t.run.cursor, false);
      PayCursor(m, ResetKid(s, s.t.run.cursor, false), NO_CHILD);
    }
  }

  lemma PayTimer(m: nat, s: State)
    requires Bound(m, s.t) && s.t.cfg.kind != Pipeline
    ensures Spent(m, s, StartTimer(s), 0)
  {
    hide Calls, ShapeOf, Bound;
    var now := Next(s).now;
    var e := Clock(s.t.cfg.path, now);
    PayCall(m, s, e);
    BoundHere(m, s.t);
    PayRun(m, Call(s, e), s.t.run.(timerStarted := true, timerBegan := now,
                                   deadline := Deadline(now, s.t.run.duration)));
  }

  lemma PayRearm(m: nat, s: State, i: nat, agg: Status)
    requires Bound(m, s.t) && i < |s.t.kids|
    ensures Spent(m, s, Rearm(s, i, agg), 0)
  {
    hide Calls, ShapeOf, Bound, ResetKid;
    if agg == Running {
      PayBranch(m, s, i, false);
      PayResetKid(m, SetBranch(s, i, false), i, true);
    }
  }

  // ---- the induction ---------------------------------------------------------------------------

  /** The share of child i; an index that names no child costs nothing. */
  function KidBudget(sh: Shape, m: nat, i: int): nat {
    if 0 <= i < |sh.kids| then Budget(sh.kids[i], m) else 0
  }

  lemma KidBudgetFits(sh: Shape, m: nat, i: int)
    ensures KidBudget(sh, m, i) <= SumFrom(sh, m, 0)
  {
    if 0 <= i < |sh.kids| { Share(sh, m, 0, i); }
  }

  lemma {:induction false} NodeCost(m: nat, s: State)
    requires Bound(m, s.t)
    ensures Spent(m, s, TickNode(m, s).s, Budget(ShapeOf(s.t), m))
    decreases ShapeOf(s.t), 4, 0
  {
    hide Calls, ShapeOf, Bound, TickImpl, Budget;
    ImplCost(m, s);
    var o := TickImpl(m, s);
    BoundHere(m, o.s.t);
    PayRun(m, o.s, o.s.t.run.(evaluated := true));
  }

  lemma {:induction false} ImplCost(m: nat, s: State)
    requires Bound(m, s.t)
    ensures Spent(m, s, TickImpl(m, s).s, Budget(ShapeOf(s.t), m))
    decreases ShapeOf(s.t), 3, 0
  {
    hide Calls, ShapeOf, Bound, Dispatch, Budget, Resolved;
    ResolvedCost(m, s);
    var r := Resolved(m, s);
    if r.code.Ok? { DispatchCost(m, r.s); }
  }

  lemma ResolvedCost(m: nat, s: State)
    requires Bound(m, s.t)
    ensures Spent(m, s, Resolved(m, s).s, 0)
  {
    hide Calls, ShapeOf, Bound, Deadline;
    BoundHere(m, s.t);
    var run, a := s.t.run, Next(s);
    var asked := Call(s, Resolve(s.t.cfg.path, a.code));
    PayCall(m, s, Resolve(s.t.cfg.path, a.code));
    if s.t.cfg.resolver.NoResolver? { PayRun(m, s, run.(evaluated := false)); }
    else if s.t.cfg.resolver.LimitResolver? {
      if a.limit <= m { PayRun(m, asked, run.(limit := a.limit, evaluated := false)); }
    } else {
      var d := if run.timerStarted then Deadline(run.timerBegan, a.duration) else run.deadline;
      PayRun(m, asked, run.(duration := a.duration, deadline := d, evaluated := false));
    }
  }

  lemma {:induction false} DispatchCost(m: nat, s: State)
    requires Bound(m, s.t)
    ensures Spent(m, s, Dispatch(m, s).s, Budget(ShapeOf(s.t), m))
    decreases ShapeOf(s.t), 2, 0
  {
    hide Calls, Bound, TickLeaf, TickPipeline, TickEntry, TickQueue, TickGuarded, TickKeepRunning, TickWhile,
      TickSwitch, TickRunOnce, TickTimeout, TickDelay, TickDecorator, TickParallel, ReactiveLoop, ChildLoop, RetryLoop,
      RepeatLoop, End, BoundNode,
      SumFrom, Budget;
    BudgetHere(s.t, m);
    hide ShapeOf;
    BoundHere(m, s.t);
    SumShrinks(ShapeOf(s.t), m, if ResumeAt(s.t) < 0 then 0 else ResumeAt(s.t));
    match s.t.cfg.kind
    case Leaf => LeafCost(m, s);
    case Pipeline => PipelineCost(m, s);
    case EntryUpdated => EntryCost(m, s);
    case ConsumeQueue => QueueCost(m, s);
    case Precondition => GuardedCost(m, s);
    case IfThenElse => GuardedCost(m, s);
    case KeepRunning => KeepRunningCost(m, s);
    case WhileDo => WhileCost(m, s);
    case Switch => SwitchCost(m, s);
    case RunOnce => RunOnceCost(m, s);
    case Timeout => TimeoutCost(m, s);
    case Delay => DelayCost(m, s);
    case Repeat => if s.t.run.limit == 0 { PayEnd(m, s, Success); } else { RepeatCost(m, s, ResumeAt(s.t)); }
    case Retry =>
      if s.t.run.counter >= s.t.run.limit { PayEnd(m, s, Failure); } else { RetryCost(m, s, ResumeAt(s.t)); }
    case Inverter => DecoratorCost(m, s);
    case ForceSuccess => DecoratorCost(m, s);
    case ForceFailure => DecoratorCost(m, s);
    case Parallel => ParallelCost(m, s);
    case ReactiveFallback => if s.t.kids != [] { ReactiveCost(m, s, 0, Failure); }
    case ReactiveSequence => if s.t.kids != [] { ReactiveCost(m, s, 0, Success); }
    case Sequence => ChildCost(m, s, ResumeAt(s.t), Success);
    case Fallback => ChildCost(m, s, ResumeAt(s.t), Failure);
  }

  lemma BudgetHere(t: Tree, m: nat)
    ensures var sh, k := ShapeOf(t), t.cfg.kind;
      Budget(sh, m) == if k == Leaf then 1
                       else if k == Retry || k == Repeat then m * SumFrom(sh, m, 0) else SumFrom(sh, m, 0)
    ensures |ShapeOf(t).kids| == |t.kids|
  {
  }

  lemma {:induction false} KidCost(m: nat, s: State, i: int)
    requires Bound(m, s.t)
    ensures Spent(m, s, TickKid(m, s, i).s, KidBudget(ShapeOf(s.t), m, i))
    decreases ShapeOf(s.t), 0, 0
  {
    hide Calls, TickNode, Budget;
    if 0 <= i < |s.t.kids| {
      ShapeKid(s.t, i);
      BoundKid(m, s.t, i);
      NodeCost(m, Focus(s, i));
      PayKid(m, s, i, TickNode(m, Focus(s, i)).s);
    }
  }

  lemma LeafCost(m: nat, s: State)
    requires Bound(m, s.t) && s.t.cfg.kind == Leaf
    ensures Spent(m, s, TickLeaf(s).s, 1)
  {
    hide Calls, Bound, ShapeOf;
    var a := Next(s);
    PayCall(m, s, Handler(s.t.cfg.path, a.status));
    if a.status.Some? {
      var r := Call(s, Handler(s.t.cfg.path, a.status));
      PayRun(m, r, r.t.run.(running := a.status.value == Running, last := a.status.value));
    }
  }

  lemma {:induction false} DecoratorCost(m: nat, s: State)
    requires Bound(m, s.t)
    ensures Spent(m, s, TickDecorator(m, s).s, SumFrom(ShapeOf(s.t), m, 0))
    decreases ShapeOf(s.t), 1, 0
  {
    hide Calls, Bound, ShapeOf, TickKid, SumFrom, KidBudget, Report;
    KidCost(m, s, ResumeAt(s.t));
    KidBudgetFits(ShapeOf(s.t), m, ResumeAt(s.t));
    var o := TickKid(m, s, ResumeAt(s.t));
    PayReport(m, o.s, Decorate(s.t.cfg.kind, o.status));
  }

  lemma {:induction false} ChildCost(m: nat, s: State, i: int, go: Status)
    requires Bound(m, s.t) && s.t.cfg.kind != Pipeline
    ensures Spent(m, s, ChildLoop(m, s, i, go).s, SumFrom(ShapeOf(s.t), m, if i < 0 then 0 else i))
    decreases ShapeOf(s.t), 1, if i < |s.t.kids| then |s.t.kids| - i else 0
  {
    hide Calls, Bound, ShapeOf, TickKid, Report, End, SetCursor, Budget;
    if i < 0 { PayEnd(m, s, go); }
    else {
      KidCost(m, s, i);
      ShapeKids(s.t);
      var o := TickKid(m, s, i);
      PayCursor(m, o.s, i);
      PayReport(m, SetCursor(o.s, i), Running);
      PayEnd(m, o.s, o.status);
      var next := if i + 1 < |s.t.kids| then i + 1 else NO_CHILD;
      var c := SetCursor(o.s, next);
      PayCursor(m, o.s, next);
      if o.code.Ok? && o.status != Running && o.status == go {
        if next < 0 { PayEnd(m, c, go); } else { ChildCost(m, c, next, go); }
      }
    }
  }

  lemma ShapeKids(t: Tree)
    ensures |ShapeOf(t).kids| == |t.kids|
  {
  }

  lemma {:induction false} ReactiveCost(m: nat, s: State, i: nat, go: Status)
    requires Bound(m, s.t) && i <= |s.t.kids| && s.t.cfg.kind != Pipeline
    ensures Spent(m, s, ReactiveLoop(m, s, i, go).s, SumFrom(ShapeOf(s.t), m, i))
    decreases ShapeOf(s.t), 1, |s.t.kids| - i
  {
    hide Calls, Bound, ShapeOf, TickKid, Report, End, SetCursor, ResetLater, Budget;
    ShapeKids(s.t);
    if i == |s.t.kids| { PayEnd(m, s, go); }
    else {
      KidCost(m, s, i);
      var o := TickKid(m, s, i);
      if !o.code.Ok? {
      } else if o.status == Running {
        PayLater(m, o.s, i + 1);
        PayCursor(m, ResetLater(o.s, i + 1), i);
        PayReport(m, SetCursor(ResetLater(o.s, i + 1), i), Running);
      } else if o.status != go {
        PayEnd(m, o.s, o.status);
      } else {
        ReactiveCost(m, o.s, i + 1, go);
      }
    }
  }

  lemma Times(a: nat, b: nat, c: nat)
    requires 0 < a <= b
    ensures (a - 1) * c + c == a * c <= b * c
  {
  }

  /** Iterations a loop has left. */
  function Rounds(run: Run): nat {
    if run.counter < run.limit then run.limit - run.counter else 0
  }

  function LoopBudget(t: Tree, m: nat): nat {
    Rounds(t.run) * SumFrom(ShapeOf(t), m, 0)
  }

  /** One round is one pass over the child, and no more than m rounds are left. */
  lemma OneRound(t: Tree, m: nat, i: int)
    requires Rounds(t.run) > 0 && t.run.limit <= m
    ensures KidBudget(ShapeOf(t), m, i) + (Rounds(t.run) - 1) * SumFrom(ShapeOf(t), m, 0) <= LoopBudget(t, m)
    ensures KidBudget(ShapeOf(t), m, i) <= LoopBudget(t, m) <= m * SumFrom(ShapeOf(t), m, 0)
  {
    hide ShapeOf, SumFrom;
    KidBudgetFits(ShapeOf(t), m, i);
    Times(Rounds(t.run), m, SumFrom(ShapeOf(t), m, 0));
  }

  lemma {:induction false} RetryCost(m: nat, s: State, child: int)
    requires Bound(m, s.t) && s.t.cfg.kind == Retry && s.t.run.counter < s.t.run.limit
    ensures Spent(m, s, RetryLoop(m, s, child).s, LoopBudget(s.t, m))
    ensures LoopBudget(s.t, m) <= m * SumFrom(ShapeOf(s.t), m, 0)
    decreases ShapeOf(s.t), 1, s.t.run.limit - s.t.run.counter
  {
    hide Calls, Bound, ShapeOf, TickKid, Report, End, NextCycle, SumFrom, KidBudget;
    BoundHere(m, s.t);
    KidCost(m, s, child);
    OneRound(s.t, m, child);
    var o := TickKid(m, s, child);
    if !o.code.Ok? {
    } else if o.status == Running { PayReport(m, o.s, Running); }
    else if o.status == Success { PayEnd(m, o.s, Success); }
    else {
      PayCycle(m, o.s, child);
      var r := NextCycle(o.s, child);
      if r.t.run.counter >= r.t.run.limit { PayEnd(m, r, Failure); }
      else { RetryCost(m, r, if |r.t.kids| > 0 then 0 else NO_CHILD); }
    }
  }

  lemma {:induction false} RepeatCost(m: nat, s: State, child: int)
    requires Bound(m, s.t) && s.t.cfg.kind == Repeat
    ensures Spent(m, s, RepeatLoop(m, s, child).s, LoopBudget(s.t, m))
    ensures LoopBudget(s.t, m) <= m * SumFrom(ShapeOf(s.t), m, 0)
    decreases ShapeOf(s.t), 1, Rounds(s.t.run)
  {
    hide Calls, Bound, ShapeOf, TickKid, Report, End, NextCycle, SumFrom, KidBudget;
    BoundHere(m, s.t);
    if s.t.run.counter >= s.t.run.limit { PayEnd(m, s, Success); }
    else {
      KidCost(m, s, child);
      OneRound(s.t, m, child);
      var o := TickKid(m, s, child);
      if !o.code.Ok? {
      } else if o.status == Running { PayReport(m, o.s, Running); }
      else {
        PayCycle(m, o.s, child);
        var r := NextCycle(o.s, child);
        RepeatCost(m, r, if |r.t.kids| > 0 then 0 else NO_CHILD);
      }
    }
  }

  lemma {:induction false} KeepRunningCost(m: nat, s: State)
    requires Bound(m, s.t) && s.t.cfg.kind == KeepRunning
    ensures Spent(m, s, TickKeepRunning(m, s).s, SumFrom(ShapeOf(s.t), m, 0))
    decreases ShapeOf(s.t), 1, 0
  {
    hide Calls, Bound, ShapeOf, TickKid, Report, End, NextCycle, SumFrom, KidBudget;
    var child := ResumeAt(s.t);
    KidCost(m, s, child);
    KidBudgetFits(ShapeOf(s.t), m, child);
    var o := TickKid(m, s, child);
    PayEnd(m, s, Failure);
    PayReport(m, o.s, Running);
    PayEnd(m, o.s, Success);
    PayCycle(m, o.s, child);
    PayEnd(m, NextCycle(o.s, child), Failure);
    PayReport(m, NextCycle(o.s, child), Running);
  }

  lemma {:induction false} RunOnceCost(m: nat, s: State)
    requires Bound(m, s.t) && s.t.cfg.kind == RunOnce
    ensures Spent(m, s, TickRunOnce(m, s).s, SumFrom(ShapeOf(s.t), m, 0))
    decreases ShapeOf(s.t), 1, 0
  {
    hide Calls, Bound, ShapeOf, TickKid, Report, End, SumFrom, KidBudget;
    KidCost(m, s, ResumeAt(s.t));
    KidBudgetFits(ShapeOf(s.t), m, ResumeAt(s.t));
    var o := TickKid(m, s, ResumeAt(s.t));
    var q := o.s.t.run.(runOnceComplete := o.status != Running);
    PayRun(m, o.s, q);
    PayReport(m, SetRun(o.s, q), o.status);
  }

  lemma {:induction false} TimeoutCost(m: nat, s: State)
    requires Bound(m, s.t) && s.t.cfg.kind == Timeout
    ensures Spent(m, s, TickTimeout(m, s).s, SumFrom(ShapeOf(s.t), m, 0))
    decreases ShapeOf(s.t), 1, 0
  {
    hide Calls, Bound, ShapeOf, TickKid, Report, End, SumFrom, KidBudget, StartTimer;
    var child := ResumeAt(s.t);
    PayTimer(m, s);
    var armed := StartTimer(s);
    PayEnd(m, armed, Failure);
    KidCost(m, armed, child);
    KidBudgetFits(ShapeOf(s.t), m, child);
    var o := TickKid(m, armed, child);
    var e := Clock(s.t.cfg.path, Next(o.s).now);
    PayCall(m, o.s, e);
    var c := Call(o.s, e);
    PayEnd(m, c, Failure);
    PayEnd(m, c, o.status);
    PayReport(m, c, Running);
  }

  lemma {:induction false} DelayCost(m: nat, s: State)
    requires Bound(m, s.t) && s.t.cfg.kind == Delay
    ensures Spent(m, s, TickDelay(m, s).s, SumFrom(ShapeOf(s.t), m, 0))
    decreases ShapeOf(s.t), 1, 1
  {
    hide Calls, Bound, ShapeOf, DelayChild, Report, SumFrom, StartTimer;
    var child := ResumeAt(s.t);
    if s.t.run.delayElapsed {
      DelayChildCost(m, s, child);
    } else {
      PayTimer(m, s);
      var armed := StartTimer(s);
      PayReport(m, armed, Running);
      var q := armed.t.run.(delayElapsed := true, timerStarted := false, deadline := 0, timerBegan := 0);
      PayRun(m, armed, q);
      DelayChildCost(m, SetRun(armed, q), child);
    }
  }

  lemma {:induction false} DelayChildCost(m: nat, s: State, child: int)
    requires Bound(m, s.t)
    ensures Spent(m, s, DelayChild(m, s, child).s, SumFrom(ShapeOf(s.t), m, 0))
    decreases ShapeOf(s.t), 1, 0
  {
    hide Calls, Bound, ShapeOf, TickKid, Report, End, SumFrom, KidBudget;
    KidCost(m, s, child);
    KidBudgetFits(ShapeOf(s.t), m, child);
    var o := TickKid(m, s, child);
    PayReport(m, o.s, Running);
    PayEnd(m, o.s, o.status);
  }

  lemma {:induction false} EntryCost(m: nat, s: State)
    requires Bound(m, s.t) && s.t.cfg.kind == EntryUpdated
    ensures Spent(m, s, TickEntry(m, s).s, SumFrom(ShapeOf(s.t), m, 0))
    decreases ShapeOf(s.t), 1, 1
  {
    hide Calls, Bound, ShapeOf, EntryChild, SumFrom, ResetKid, Fail;
    var a := Next(s);
    var e := Changed(s.t.cfg.path, a.code, a.flag);
    PayCall(m, s, e);
    var asked := Call(s, e);
    PayFail(m, asked, a.code);
    PayResetKid(m, asked, ResumeAt(s.t), false);
    var stopped := ResetKid(asked, ResumeAt(s.t), false);
    BoundHere(m, stopped.t);
    var q := stopped.t.run.(cursor := NO_CHILD, observed := true);
    PayRun(m, stopped, q);
    EntryChildCost(m, SetRun(stopped, q));
    EntryChildCost(m, asked);
  }

  lemma {:induction false} EntryChildCost(m: nat, s: State)
    requires Bound(m, s.t) && s.t.cfg.kind == EntryUpdated
    ensures Spent(m, s, EntryChild(m, s).s, SumFrom(ShapeOf(s.t), m, 0))
    decreases ShapeOf(s.t), 1, 0
  {
    hide Calls, Bound, ShapeOf, TickKid, SetCursor, Report, Fail, SumFrom, KidBudget;
    KidCost(m, s, 0);
    KidBudgetFits(ShapeOf(s.t), m, 0);
    var o := TickKid(m, s, 0);
    PayFail(m, o.s, o.code);
    PayCursor(m, o.s, 0);
    PayCursor(m, o.s, NO_CHILD);
    PayReport(m, SetCursor(o.s, 0), Running);
    PayReport(m, SetCursor(o.s, NO_CHILD), o.status);
  }

  lemma {:induction false} QueueCost(m: nat, s: State)
    requires Bound(m, s.t) && s.t.cfg.kind == ConsumeQueue
    ensures Spent(m, s, TickQueue(m, s).s, SumFrom(ShapeOf(s.t), m, 0))
    decreases ShapeOf(s.t), 1, 1
  {
    hide Calls, Bound, ShapeOf, QueueItem, SumFrom, Fail, End;
    if s.t.kids != [] {
      if s.t.run.prepared { QueueItemCost(m, s); }
      else {
        BoundHere(m, s.t);
        var a := Next(s);
        var q := SetRun(s, s.t.run.(prepared := true));
        PayRun(m, s, s.t.run.(prepared := true));
        var b := Call(q, Begin(s.t.cfg.path, a.code, a.flag));
        PayCall(m, q, Begin(s.t.cfg.path, a.code, a.flag));
        PayFail(m, b, a.code);
        PayRun(m, b, b.t.run.(prepared := false));
        PayEnd(m, SetRun(b, b.t.run.(prepared := false)), Failure);
        QueueItemCost(m, b);
      }
    }
  }

  lemma {:induction false} QueueItemCost(m: nat, s: State)
    requires Bound(m, s.t) && s.t.cfg.kind == ConsumeQueue && s.t.kids != []
    ensures Spent(m, s, QueueItem(m, s).s, SumFrom(ShapeOf(s.t), m, 0))
    decreases ShapeOf(s.t), 1, 0
  {
    hide Calls, Bound, ShapeOf, TickKid, SetCursor, Report, Fail, End, SumFrom, KidBudget, FinishItem;
    KidCost(m, s, 0);
    KidBudgetFits(ShapeOf(s.t), m, 0);
    var o := TickKid(m, s, 0);
    PayFail(m, o.s, o.code);
    PayCursor(m, o.s, 0);
    PayReport(m, SetCursor(o.s, 0), Running);
    PayEnd(m, o.s, Failure);
    FinishCost(m, o.s);
  }

  lemma FinishCost(m: nat, s: State)
    requires Bound(m, s.t) && s.t.cfg.kind == ConsumeQueue
    ensures Spent(m, s, FinishItem(s).s, 0)
  {
    hide Calls, Bound, ShapeOf, SetCursor, Report, Fail, End, ResetKid;
    var a := Next(s);
    var e := Finish(s.t.cfg.path, a.code, a.flag);
    PayCall(m, s, e);
    PayFail(m, Call(s, e), a.code);
    BoundHere(m, s.t);
    PayRun(m, Call(s, e), s.t.run.(prepared := false));
    var closed := SetRun(Call(s, e), s.t.run.(prepared := false));
    PayResetKid(m, closed, 0, false);
    PayCursor(m, ResetKid(closed, 0, false), NO_CHILD);
    PayReport(m, SetCursor(ResetKid(closed, 0, false), NO_CHILD), Running);
    PayEnd(m, closed, Success);
  }

  // ---- guards and selections -----------------------------------------------------------------------

  function GuardBudget(t: Tree, m: nat): nat {
    if t.cfg.condition then 0 else KidBudget(ShapeOf(t), m, 0)
  }

  /** The guard and one other child together stay within the sum. */
  lemma GuardAndBranch(t: Tree, m: nat, j: int)
    requires j != 0 || t.cfg.condition
    ensures GuardBudget(t, m) + KidBudget(ShapeOf(t), m, j) <= SumFrom(ShapeOf(t), m, 0)
    ensures GuardBudget(t, m) <= SumFrom(ShapeOf(t), m, 0)
  {
    hide Budget;
    var sh := ShapeOf(t);
    KidBudgetFits(sh, m, j);
    KidBudgetFits(sh, m, 0);
    if 0 < j < |sh.kids| { Share(sh, m, 1, j); }
  }

  lemma {:induction false} GuardCost(m: nat, s: State)
    requires Bound(m, s.t)
    ensures Spent(m, s, AskGuard(m, s).s, GuardBudget(s.t, m))
    decreases ShapeOf(s.t), 1, 0
  {
    hide Calls, Bound, ShapeOf, TickKid, KidBudget;
    var a := Next(s);
    if s.t.cfg.condition { PayCall(m, s, Condition(s.t.cfg.path, a.code, a.status)); } else { KidCost(m, s, 0); }
  }

  lemma {:induction false} SelectedCost(m: nat, s: State, selected: int)
    requires Bound(m, s.t) && s.t.cfg.kind != Pipeline
    ensures Spent(m, s, TickSelected(m, s, selected).s, KidBudget(ShapeOf(s.t), m, selected))
    decreases ShapeOf(s.t), 1, 1
  {
    hide Calls, Bound, ShapeOf, TickKid, KidBudget, SetCursor, Report, End, DropCursor;
    PayDrop(m, s);
    var q := if s.t.run.cursor != selected then DropCursor(s) else s;
    KidCost(m, q, selected);
    var o := TickKid(m, q, selected);
    PayCursor(m, o.s, selected);
    PayReport(m, SetCursor(o.s, selected), Running);
    PayEnd(m, o.s, o.status);
  }

  lemma {:induction false} GuardedCost(m: nat, s: State)
    requires Bound(m, s.t) && s.t.cfg.kind != Pipeline
    ensures Spent(m, s, TickGuarded(m, s).s, SumFrom(ShapeOf(s.t), m, 0))
    decreases ShapeOf(s.t), 1, 2
  {
    hide Calls, Bound, ShapeOf, AskGuard, TickSelected, SumFrom, KidBudget, Report, End, DropCursor;
    GuardCost(m, s);
    var g := AskGuard(m, s);
    var first := if s.t.cfg.condition then 0 else 1;
    GuardAndBranch(s.t, m, first);
    GuardAndBranch(s.t, m, first + 1);
    PayDrop(m, g.s);
    PayReport(m, DropCursor(g.s), Running);
    PayEnd(m, g.s, Failure);
    SelectedCost(m, g.s, first);
    SelectedCost(m, g.s, first + 1);
  }

  lemma {:induction false} SwitchCost(m: nat, s: State)
    requires Bound(m, s.t) && s.t.cfg.kind == Switch
    ensures Spent(m, s, TickSwitch(m, s).s, SumFrom(ShapeOf(s.t), m, 0))
    decreases ShapeOf(s.t), 1, 2
  {
    hide Calls, Bound, ShapeOf, TickSelected, SumFrom, KidBudget, End;
    var a := Next(s);
    var e := Select(s.t.cfg.path, a.code, a.index);
    PayCall(m, s, e);
    PayEnd(m, Call(s, e), Failure);
    SelectedCost(m, Call(s, e), a.index);
    KidBudgetFits(ShapeOf(s.t), m, a.index);
  }

  lemma {:induction false} WhileCost(m: nat, s: State)
    requires Bound(m, s.t) && s.t.cfg.kind == WhileDo
    ensures Spent(m, s, TickWhile(m, s).s, SumFrom(ShapeOf(s.t), m, 0))
    decreases ShapeOf(s.t), 1, 2
  {
    hide Calls, Bound, ShapeOf, AskGuard, WhileBody, SumFrom, KidBudget, Report, End, DropCursor;
    var body := if s.t.cfg.condition then 0 else 1;
    PayEnd(m, s, Success);
    GuardCost(m, s);
    var g := AskGuard(m, s);
    GuardAndBranch(s.t, m, body);
    PayDrop(m, g.s);
    PayReport(m, DropCursor(g.s), Running);
    PayEnd(m, g.s, Success);
    BodyCost(m, g.s, body);
  }

  lemma {:induction false} BodyCost(m: nat, s: State, body: nat)
    requires Bound(m, s.t) && s.t.cfg.kind == WhileDo
    ensures Spent(m, s, WhileBody(m, s, body).s, KidBudget(ShapeOf(s.t), m, body))
    decreases ShapeOf(s.t), 1, 0
  {
    hide Calls, Bound, ShapeOf, TickKid, KidBudget, SetCursor, Report, End, NextCycle;
    KidCost(m, s, body);
    var o := TickKid(m, s, body);
    PayCursor(m, o.s, body);
    PayReport(m, SetCursor(o.s, body), Running);
    PayCursor(m, o.s, NO_CHILD);
    var idle := SetCursor(o.s, NO_CHILD);
    PayEnd(m, idle, Failure);
    PayCycle(m, idle, body);
    PayEnd(m, NextCycle(idle, body), Success);
    PayReport(m, NextCycle(idle, body), Running);
  }

  // ---- Parallel --------------------------------------------------------------------------------------

  lemma {:induction false} BranchCost(m: nat, s: State, i: nat)
    requires Bound(m, s.t) && i < |s.t.kids|
    ensures Spent(m, s, TickBranch(m, s, i).s, KidBudget(ShapeOf(s.t), m, i))
    decreases ShapeOf(s.t), 1, 0
  {
    hide Calls, Bound, ShapeOf, TickKid, KidBudget, TickEntered, Fail, SetBranch;
    KidCost(m, s, i);
    PayFail(m, TickKid(m, s, i).s, TickKid(m, s, i).code);
    PayBranch(m, s, i, true);
    var a, kid, q := Next(s), s.t.kids[i], SetBranch(s, i, true);
    var e := Enter(s.t.cfg.path, kid.cfg.path, i, !kid.run.branchPrepared, a.code);
    PayCall(m, q, e);
    PayFail(m, Call(q, e), a.code);
    EnteredCost(m, Call(q, e), i);
  }

  lemma {:induction false} EnteredCost(m: nat, s: State, i: nat)
    requires Bound(m, s.t) && i < |s.t.kids|
    ensures Spent(m, s, TickEntered(m, s, i).s, KidBudget(ShapeOf(s.t), m, i))
    decreases ShapeOf(s.t), 0, 1
  {
    hide Calls, Bound, ShapeOf, TickKid, KidBudget, Fail;
    KidCost(m, s, i);
    var o := TickKid(m, s, i);
    PayFail(m, o.s, o.code);
    var e := Step(s.t.cfg.path, s.t.kids[i].cfg.path, i, o.status, Next(o.s).code);
    PayCall(m, o.s, e);
    PayFail(m, Call(o.s, e), Next(o.s).code);
  }

  lemma {:induction false} BranchesCost(m: nat, s: State, i: nat, sofar: Status)
    requires Bound(m, s.t) && i <= |s.t.kids|
    ensures Spent(m, s, BranchLoop(m, s, i, sofar).s, SumFrom(ShapeOf(s.t), m, i))
    decreases ShapeOf(s.t), 1, |s.t.kids| - i + 1
  {
    hide Calls, Bound, ShapeOf, TickBranch, Budget;
    if i < |s.t.kids| {
      ShapeKids(s.t);
      BranchCost(m, s, i);
      var o := TickBranch(m, s, i);
      if o.code.Ok? { BranchesCost(m, o.s, i + 1, Aggregate(sofar, o.status)); }
    }
  }

  lemma {:induction false} FinishLoopCost(m: nat, s: State, i: nat, agg: Status)
    requires Bound(m, s.t) && i <= |s.t.kids|
    ensures Spent(m, s, FinishLoop(s, i, agg).s, 0)
    decreases |s.t.kids| - i
  {
    hide Calls, Bound, ShapeOf, Rearm, SetBranch, Fail;
    if i < |s.t.kids| {
      var kid := s.t.kids[i];
      if !Terminal(kid) { FinishLoopCost(m, s, i + 1, agg); }
      else if s.t.cfg.hooks && kid.run.branchPrepared {
        var a := Next(s);
        var e := BranchFinish(s.t.cfg.path, kid.cfg.path, i, kid.run.last, a.code);
        PayCall(m, s, e);
        var f := Call(s, e);
        PayFail(m, f, a.code);
        PayBranch(m, f, i, false);
        PayRearm(m, SetBranch(f, i, false), i, agg);
        FinishLoopCost(m, Rearm(SetBranch(f, i, false), i, agg), i + 1, agg);
      } else {
        PayRearm(m, s, i, agg);
        FinishLoopCost(m, Rearm(s, i, agg), i + 1, agg);
      }
    }
  }

  lemma {:induction false} ParallelCost(m: nat, s: State)
    requires Bound(m, s.t)
    ensures Spent(m, s, TickParallel(m, s).s, SumFrom(ShapeOf(s.t), m, 0))
    decreases ShapeOf(s.t), 1, |s.t.kids| + 2
  {
    hide Calls, Bound, ShapeOf, BranchLoop, FinishLoop, SumFrom, Fail, End, Report;
    BranchesCost(m, s, 0, Success);
    var o := BranchLoop(m, s, 0, Success);
    if s.t.kids != [] && o.code.Ok? {
      var a := Next(o.s);
      var e := Join(s.t.cfg.path, o.status, a.code);
      PayCall(m, o.s, e);
      var joined := if s.t.cfg.hooks then Call(o.s, e) else o.s;
      PayFail(m, joined, a.code);
      FinishLoopCost(m, joined, 0, o.status);
      var f := FinishLoop(joined, 0, o.status);
      PayReport(m, f.s, Running);
      PayEnd(m, f.s, o.status);
    }
  }

  // ---- Pipeline --------------------------------------------------------------------------------------

  /** A pipeline visits the children from its counter on, each at most once. */
  lemma {:induction false} PipelineFrom(m: nat, s: State)
    requires Bound(m, s.t) && s.t.cfg.kind == Pipeline
    ensures Spent(m, s, TickPipeline(m, s).s, SumFrom(ShapeOf(s.t), m, s.t.run.counter))
    decreases ShapeOf(s.t), 1, PipelineLeft(s.t), 2
  {
    hide Calls, Bound, ShapeOf, PipelineChild, End, Fail, SumFrom;
    BoundHere(m, s.t);
    PayEnd(m, s, Success);
    var run, a := s.t.run, Next(s);
    if run.cursor >= 0 || run.counter < |s.t.kids| {
      var q := SetRun(s, run.(prepared := true));
      PayRun(m, s, run.(prepared := true));
      var e := Prepare(s.t.cfg.path, run.counter, a.code);
      PayCall(m, q, e);
      PayFail(m, Call(q, e), a.code);
      if run.prepared { PipelineChildCost(m, s); } else { PipelineChildCost(m, Call(q, e)); }
    }
  }

  lemma {:induction false} PipelineChildCost(m: nat, s: State)
    requires Bound(m, s.t) && s.t.cfg.kind == Pipeline
    requires s.t.run.cursor >= 0 || s.t.run.counter < |s.t.kids|
    ensures Spent(m, s, PipelineChild(m, s, s.t.run.counter).s, SumFrom(ShapeOf(s.t), m, s.t.run.counter))
    decreases ShapeOf(s.t), 1, PipelineLeft(s.t), 1
  {
    hide Calls, Bound, ShapeOf, TickKid, SetCursor, Report, Fail, Budget, PipelineComplete;
    var n := s.t.run.counter;
    ShapeKids(s.t);
    KidCost(m, s, n);
    var o := TickKid(m, s, n);
    PayFail(m, o.s, o.code);
    PayCursor(m, o.s, n);
    PayReport(m, SetCursor(o.s, n), Running);
    if o.code.Ok? && o.status != Running {
      CompleteCost(m, o.s, o.status);
    }
  }

  lemma {:induction false} CompleteCost(m: nat, s: State, st: Status)
    requires Bound(m, s.t) && s.t.cfg.kind == Pipeline
    requires s.t.run.cursor >= 0 || s.t.run.counter < |s.t.kids|
    ensures Spent(m, s, PipelineComplete(m, s, st).s, SumFrom(ShapeOf(s.t), m, s.t.run.counter + 1))
    decreases ShapeOf(s.t), 1, PipelineLeft(s.t), 0
  {
    hide Calls, Bound, ShapeOf, Fail, End, SumFrom, TickPipeline;
    var a := Next(s);
    var e := Complete(s.t.cfg.path, s.t.run.counter, st, a.code);
    PayCall(m, s, e);
    PayFail(m, Call(s, e), a.code);
    CompletedCost(m, s, e, s.t.run.counter);
    PayEnd(m, Completed(s, e, s.t.run.counter), Failure);
    CompletedCost(m, s, e, s.t.run.counter + 1);
    hide Completed;
    if a.code.Ok? && st != Failure { PipelineFrom(m, Completed(s, e, s.t.run.counter + 1)); }
  }

  lemma CompletedCost(m: nat, s: State, e: Event, counter: nat)
    requires Bound(m, s.t) && s.t.cfg.kind == Pipeline && !e.Handler?
    ensures Spent(m, s, Completed(s, e, counter), 0)
  {
    hide Calls, Bound, ShapeOf;
    PayCall(m, s, e);
    PayRun(m, Call(s, e), s.t.run.(cursor := NO_CHILD, prepared := false, counter := counter));
  }

  lemma {:induction false} PipelineCost(m: nat, s: State)
    requires Bound(m, s.t) && s.t.cfg.kind == Pipeline
    ensures Spent(m, s, TickPipeline(m, s).s, SumFrom(ShapeOf(s.t), m, 0))
    decreases ShapeOf(s.t), 1, PipelineLeft(s.t), 3
  {
    hide Calls, Bound, ShapeOf, TickPipeline;
    PipelineFrom(m, s);
    SumShrinks(ShapeOf(s.t), m, s.t.run.counter);
  }

  lemma {:induction false} SumShrinks(sh: Shape, m: nat, n: nat)
    ensures SumFrom(sh, m, n) <= SumFrom(sh, m, 0)
  {
    if n > 0 {
      SumShrinks(sh, m, n - 1);
    }
  }

  // ---- over every run --------------------------------------------------------------------------------

  lemma {:induction false} InvIsBound(m: nat, t: Tree)
    requires Inv(m, t)
    ensures Bound(m, t)
  {
    forall i | 0 <= i < |t.kids| ensures Bound(m, t.kids[i]) { InvIsBound(m, t.kids[i]); }
    hide Idle;
  }

  lemma ResetTreeCost(x: Machine)
    requires x.root.Some? && Bound(x.m, x.root.value)
    ensures Calls(ResetTree(x).trace) <= Calls(x.trace)
  {
    hide Calls, ShapeOf, ResetNode, Bound;
    PayReset(x.m, State(x.script, x.trace, x.root.value), true);
  }

  lemma TickTreeCost(x: Machine)
    requires x.root.Some? && Inv(x.m, x.root.value)
    ensures Calls(TickTree(x).machine.trace) <= Calls(x.trace) + LeafSum(ShapeOf(x.root.value), x.m, 0)
  {
    hide Calls, ShapeOf, ResetTree, TickNode, Bound, Inv, Budget, LeafSum, ValidTree;
    var t := x.root.value;
    var s := State(x.script, x.trace, t);
    InvIsBound(x.m, t);
    ResetTreeCost(x);
    NodeCost(x.m, s);
    ResetTreeCost(Rooted(x, TickNode(x.m, s).s));
    BudgetIsLeafSum(ShapeOf(t), x.m, 0);
  }

  /** In every state that public calls can reach, one tick calls leaf handlers at most as often
      as the sum over the leaves of m to the number of their Retry and Repeat ancestors. */
  lemma TickCallsBounded(m: nat, maxNodes: nat, maxDepth: nat, script: seq<Answer>, ops: seq<Op>)
    ensures var x := Perform(Empty(m, maxNodes, maxDepth, script), ops);
      x.root.Some? ==>
        Calls(TickTree(x).machine.trace) <= Calls(x.trace) + LeafSum(ShapeOf(x.root.value), x.m, 0)
  {
    var x := Perform(Empty(m, maxNodes, maxDepth, script), ops);
    RunHealthy(Empty(m, maxNodes, maxDepth, script), ops);
    if x.root.Some? {
      hide Calls, TickTree, LeafSum, ShapeOf, Perform;
      TickTreeCost(x);
    }
  }
}
