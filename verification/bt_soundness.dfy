/** One tick keeps the invariant and the protocol, kind by kind. S is the set of
    brackets the rest of the tree holds open while this subtree is being ticked. */
module BtSoundness {
  import opened Wrappers
  import opened BtTypes
  import opened BtSemantics
  import opened BtInvariant
  import opened BtProtocol

  /** Holds at every moment of a tick: enough to reset the subtree. */
  ghost predicate Resettable(m: nat, S: set<Key>, s: State) {
    Sane(ShapeOf(s.t)) && Mild(m, s.t) && Tracks(S, s)
  }

  /** Holds inside a control node as long as no error has occurred. */
  ghost predicate Mid(m: nat, S: set<Key>, s: State) {
    Resettable(m, S, s) && KidsInv(m, s.t)
  }

  /** What a finished tick guarantees: after an error the subtree can be reset; otherwise
      it satisfies the invariant, remembers its status, and is idle if the status is terminal. */
  ghost predicate Sound(m: nat, S: set<Key>, o: Out) {
    && Resettable(m, S, o.s)
    && (o.code.Ok? ==>
          && Inv(m, o.s.t)
          && o.s.t.run.last == o.status
          && (o.status != Running ==> Idle(o.s.t)))
  }

  // ---- elementary steps ---------------------------------------------------------

  ghost predicate SameFlags(r: Run, q: Run) {
    r.running == q.running && r.prepared == q.prepared && r.branchPrepared == q.branchPrepared
  }

  ghost predicate SameParams(r: Run, q: Run) {
    r.limit == q.limit && r.duration == q.duration
  }

  lemma SetRunMid(m: nat, S: set<Key>, s: State, run: Run)
    requires Resettable(m, S, s) && SameFlags(run, s.t.run)
    requires SameParams(run, s.t.run) || ParamsOk(m, s.t.cfg, run)
    ensures Resettable(m, S, SetRun(s, run))
    ensures KidsInv(m, s.t) ==> Mid(m, S, SetRun(s, run))
    ensures Idle(SetRun(s, run).t) == Idle(s.t)
  {
    hide Sane, Replay;
    var r := SetRun(s, run);
    assert Open(r.t) == Open(s.t);
  }

  predicate Neutral(e: Event) {
    e.Resolve? || e.Changed? || e.Condition? || e.Select? || e.Clock? || e.Join?
  }

  lemma NeutralCall(m: nat, S: set<Key>, s: State, e: Event)
    requires Resettable(m, S, s) && Neutral(e)
    ensures Resettable(m, S, Call(s, e)) && (KidsInv(m, s.t) ==> Mid(m, S, Call(s, e)))
  {
    hide Sane, Open, Mild, Inv, Replay;
    ReplayStep(s.trace, e);
  }

  lemma EndSound(m: nat, S: set<Key>, s: State, st: Status)
    requires Resettable(m, S, s) && st != Running
    ensures Sound(m, S, End(s, st))
  {
    hide Sane, Open, Replay;
    var r := ResetNode(s, false);
    ResetTracks(m, S, s, false, r);
    SetRunMid(m, S, r, r.t.run.(last := st));
  }

  lemma FailSound(m: nat, S: set<Key>, s: State, code: Code)
    requires Resettable(m, S, s) && !code.Ok?
    ensures Sound(m, S, Fail(s, code))
  {
    hide Sane, Open, Replay;
    ResetTracks(m, S, s, false, ResetNode(s, false));
  }

  lemma ReportSound(m: nat, S: set<Key>, s: State, st: Status)
    requires Mid(m, S, s) && InvNode(m, s.t) && (st != Running ==> Idle(s.t))
    ensures Sound(m, S, Report(s, st))
  {
    hide Sane, Open, Replay, Idle, ShapeOf;
    SetRunMid(m, S, s, s.t.run.(last := st));
  }

  lemma ResetKidMid(m: nat, S: set<Key>, s: State, i: nat, clear: bool)
    requires Mid(m, S, s) && i < |s.t.kids|
    ensures Mid(m, S, ResetKid(s, i, clear))
    ensures var u := ResetKid(s, i, clear).t;
      u == s.t.(kids := s.t.kids[i := u.kids[i]]) && Rested(m, u.kids[i])
  {
    hide Sane, Open, Replay, Mild;
    ToKids(S, s);
    var r := ResetKid(s, i, clear);
    ResetKidTracks(m, S + Own(s.t), s, i, clear, r);
    FromKids(S, r);
  }

  // ---- the induction: a child tick, then each kind -----------------------------------

  lemma {:induction false} TickKidSound(m: nat, S: set<Key>, s: State, i: int)
    requires Mid(m, S, s)
    ensures var o := TickKid(m, s, i);
      && Resettable(m, S, o.s)
      && (o.code.Ok? ==>
            && 0 <= i < |s.t.kids|
            && Mid(m, S, o.s)
            && o.s.t == s.t.(kids := s.t.kids[i := o.s.t.kids[i]])
            && o.s.t.kids[i].run.branchPrepared == s.t.kids[i].run.branchPrepared
            && o.s.t.kids[i].cfg == s.t.kids[i].cfg
            && o.s.t.kids[i].run.evaluated
            && o.s.t.kids[i].run.last == o.status
            && (o.status != Running ==> Idle(o.s.t.kids[i])))
    decreases ShapeOf(s.t), 0, 0
  {
    hide Sane, Open, Replay, Mild;
    if 0 <= i < |s.t.kids| {
      ShapeKid(s.t, i);
      SaneKid(s.t, i);
      ToKids(S, s);
      IntoKid(S + Own(s.t), s, i);
      MildOfKid(m, s.t, i);
      TickNodeSound(m, S + Own(s.t) + Others(s.t, i), Focus(s, i));
      var o := TickNode(m, Focus(s, i));
      OutOfKid(S + Own(s.t), s.t, i, o.s);
      FromKids(S, TickKid(m, s, i).s);
      MildKid(m, s.t, i, o.s.t);
    }
  }

  /** What a child needs to be ticked in its parent's place. */
  lemma KidReady(m: nat, S: set<Key>, s: State, i: nat)
    requires Mid(m, S, s) && i < |s.t.kids|
    ensures Resettable(m, S + Own(s.t) + Others(s.t, i), Focus(s, i)) && Inv(m, s.t.kids[i])
  {
    hide Sane, Open, Replay, Mild;
    SaneKid(s.t, i);
    ToKids(S, s);
    IntoKid(S + Own(s.t), s, i);
    MildOfKid(m, s.t, i);
  }

  lemma MildOfKid(m: nat, t: Tree, i: nat)
    requires Mild(m, t) && i < |t.kids|
    ensures Mild(m, t.kids[i])
    ensures t.kids[i].run.branchPrepared ==> t.cfg.kind == Parallel && t.cfg.hooks
  {
  }

  lemma {:induction false} TickNodeSound(m: nat, S: set<Key>, s: State)
    requires Resettable(m, S, s) && Inv(m, s.t)
    ensures Sound(m, S, TickNode(m, s))
    decreases ShapeOf(s.t), 4, 0
  {
    hide Resettable, InvNode, Inv, TickImpl, ShapeOf, Idle, Mild;
    TickImplSound(m, S, s);
    var o := TickImpl(m, s);
    if o.code.Ok? {
      InvParts(m, S, o.s);
      InvNodeRun(m, o.s.t, o.s.t.run.(evaluated := true));
      SetRunMid(m, S, o.s, o.s.t.run.(evaluated := true));
      InvWhole(m, S, SetRun(o.s, o.s.t.run.(evaluated := true)));
    }
  }

  lemma InvWhole(m: nat, S: set<Key>, s: State)
    requires Mid(m, S, s) && InvNode(m, s.t)
    ensures Inv(m, s.t)
  {
  }

  lemma LimitBound(m: nat, t: Tree)
    requires Mild(m, t)
    ensures IsLoop(t.cfg.kind) ==> t.run.limit <= m
  {
  }

  lemma {:induction false} TickImplSound(m: nat, S: set<Key>, s: State)
    requires Resettable(m, S, s) && Inv(m, s.t)
    ensures Sound(m, S, TickImpl(m, s))
    decreases ShapeOf(s.t), 3, 0
  {
    hide Resettable, Inv, Idle, Dispatch, Resolved, ShapeOf, InvNode, Mid;
    ResolvedSound(m, S, s);
    var r := Resolved(m, s);
    if r.code.Ok? { DispatchSound(m, S, r.s); }
  }

  lemma ResolvedSound(m: nat, S: set<Key>, s: State)
    requires Resettable(m, S, s) && Inv(m, s.t)
    ensures var r := Resolved(m, s);
      if r.code.Ok? then Mid(m, S, r.s) && InvNode(m, r.s.t) else Sound(m, S, r)
  {
    hide Resettable, Inv, Idle, ShapeOf, InvNode, Mid;
    InvParts(m, S, s);
    var run := s.t.run;
    if s.t.cfg.resolver.NoResolver? {
      ParamStep(m, S, s, run.(evaluated := false));
    } else {
      AskParams(m, S, s, Resolve(s.t.cfg.path, Next(s).code));
      AskedSound(m, S, s, Call(s, Resolve(s.t.cfg.path, Next(s).code)));
    }
  }

  /** The answer of a resolver is taken over, or refused without effect. */
  lemma AskedSound(m: nat, S: set<Key>, s: State, asked: State)
    requires !s.t.cfg.resolver.NoResolver? && asked == Call(s, Resolve(s.t.cfg.path, Next(s).code))
    requires Resettable(m, S, asked) && Mid(m, S, asked) && InvNode(m, s.t) && ParamsOk(m, s.t.cfg, s.t.run)
    ensures var r := Resolved(m, s);
      if r.code.Ok? then Mid(m, S, r.s) && InvNode(m, r.s.t) else Sound(m, S, r)
  {
    hide Resettable, Inv, Idle, ShapeOf, InvNode, Mid, Deadline;
    var run, a := s.t.run, Next(s);
    if s.t.cfg.resolver.LimitResolver? {
      if a.limit <= m { ParamStep(m, S, asked, run.(limit := a.limit, evaluated := false)); }
    } else {
      var d := if run.timerStarted then Deadline(run.timerBegan, a.duration) else run.deadline;
      ParamStep(m, S, asked, run.(duration := a.duration, deadline := d, evaluated := false));
    }
  }

  lemma AskParams(m: nat, S: set<Key>, s: State, e: Event)
    requires Mid(m, S, s) && Neutral(e)
    ensures Mid(m, S, Call(s, e)) && Resettable(m, S, Call(s, e))
  {
    hide Resettable, Inv;
    NeutralCall(m, S, s, e);
  }

  lemma ParamStep(m: nat, S: set<Key>, s: State, q: Run)
    requires Mid(m, S, s) && InvNode(m, s.t) && ParamsOk(m, s.t.cfg, q) && SameFlags(q, s.t.run)
    requires q.cursor == s.t.run.cursor && q.counter == s.t.run.counter
    requires q.runOnceComplete == s.t.run.runOnceComplete
    ensures Mid(m, S, SetRun(s, q)) && InvNode(m, SetRun(s, q).t)
  {
    hide Resettable, Inv, Idle, ShapeOf, InvNode;
    SetRunMid(m, S, s, q);
    InvNodeRun(m, s.t, q);
  }

  lemma InvParts(m: nat, S: set<Key>, s: State)
    requires Resettable(m, S, s) && Inv(m, s.t)
    ensures Mid(m, S, s) && InvNode(m, s.t) && ParamsOk(m, s.t.cfg, s.t.run)
  {
  }

  /** Parameters, timers and the evaluated mark play no part in the invariant. */
  lemma InvNodeRun(m: nat, t: Tree, q: Run)
    requires InvNode(m, t)
    requires q.cursor == t.run.cursor && q.counter == t.run.counter && SameFlags(q, t.run)
    requires q.runOnceComplete == t.run.runOnceComplete
    ensures InvNode(m, t.(run := q))
  {
    hide Idle;
  }

  lemma {:induction false} DispatchSound(m: nat, S: set<Key>, s: State)
    requires Mid(m, S, s) && InvNode(m, s.t)
    ensures Sound(m, S, Dispatch(m, s))
    decreases ShapeOf(s.t), 2, 0
  {
    hide Sane, Open, Replay, Mild, Idle, Inv, Tracks;
    assert SaneHere(s.t) by { SaneRoot(s.t); }
    match s.t.cfg.kind
    case Leaf => LeafSound(m, S, s);
    case Pipeline => PipelineSound(m, S, s);
    case EntryUpdated => EntrySound(m, S, s);
    case ConsumeQueue => QueueSound(m, S, s);
    case Precondition => GuardedSound(m, S, s);
    case IfThenElse => GuardedSound(m, S, s);
    case KeepRunning => KeepRunningSound(m, S, s);
    case WhileDo => WhileSound(m, S, s);
    case Switch => SwitchSound(m, S, s);
    case RunOnce => RunOnceSound(m, S, s);
    case Timeout => TimeoutSound(m, S, s);
    case Delay => DelaySound(m, S, s);
    case Repeat =>
      if s.t.run.limit == 0 { EndSound(m, S, s, Success); } else { RepeatSound(m, S, s, ResumeAt(s.t)); }
    case Retry =>
      if s.t.run.counter >= s.t.run.limit { EndSound(m, S, s, Failure); }
      else { RetrySound(m, S, s, ResumeAt(s.t)); }
    case Inverter => DecoratorSound(m, S, s);
    case ForceSuccess => DecoratorSound(m, S, s);
    case ForceFailure => DecoratorSound(m, S, s);
    case Parallel => ParallelSound(m, S, s);
    case ReactiveFallback =>
      if s.t.kids != [] { ReactiveSound(m, S, s, 0, Failure); }
    case ReactiveSequence =>
      if s.t.kids != [] { ReactiveSound(m, S, s, 0, Success); }
    case Sequence => ChildLoopSound(m, S, s, ResumeAt(s.t), Success);
    case Fallback => ChildLoopSound(m, S, s, ResumeAt(s.t), Failure);
  }

  ghost predicate SaneHere(t: Tree) {
    && (t.cfg.kind == Leaf ==> t.kids == [])
    && (IsSingleChild(t.cfg.kind) ==> |t.kids| <= 1)
    && (t.cfg.kind == WhileDo ==> |t.kids| <= if t.cfg.condition then 1 else 2)
    && (t.cfg.hooks ==> t.cfg.kind == Parallel)
  }

  lemma SaneRoot(t: Tree)
    requires Sane(ShapeOf(t))
    ensures SaneHere(t)
  {
  }

  // ---- leaves ------------------------------------------------------------------------

  lemma LeafSound(m: nat, S: set<Key>, s: State)
    requires Mid(m, S, s) && InvNode(m, s.t) && s.t.cfg.kind == Leaf
    ensures Sound(m, S, TickLeaf(s))
  {
    hide Replay;
    SaneRoot(s.t);
    var a := Next(s);
    var e := Handler(s.t.cfg.path, a.status);
    ReplayStep(s.trace, e);
    var k := LeafKey(s.t.cfg.path);
    assert Open(s.t) == Own(s.t);
    if a.status.Some? {
      var r := TickLeaf(s).s;
      assert Open(r.t) == Own(r.t);
      assert S + Own(r.t) == if a.status == Some(Running) then S + Own(s.t) + {k} else S + Own(s.t) - {k};
    }
  }

  // ---- Sequence, Fallback and their reactive forms ----------------------------------

  ghost predicate IdleBut(t: Tree, i: int) {
    forall j :: 0 <= j < |t.kids| && j != i ==> Idle(t.kids[j])
  }

  lemma {:induction false} ChildLoopSound(m: nat, S: set<Key>, s: State, i: int, go: Status)
    requires Mid(m, S, s) && IdleBut(s.t, i) && i < |s.t.kids|
    requires s.t.cfg.kind == Sequence || s.t.cfg.kind == Fallback
    requires go != Running
    ensures Sound(m, S, ChildLoop(m, s, i, go))
    decreases ShapeOf(s.t), 1, if i < |s.t.kids| then |s.t.kids| - i else 0
  {
    hide Resettable, Inv, Idle, TickKid, End, Report, ShapeOf, InvNode;
    if i < 0 {
      EndSound(m, S, s, go);
    } else {
      TickKidSound(m, S, s, i);
      var o := TickKid(m, s, i);
      if o.code.Ok? {
        if o.status == Running {
          SetRunMid(m, S, o.s, o.s.t.run.(cursor := i));
          InvBranch(m, SetCursor(o.s, i).t);
          ReportSound(m, S, SetCursor(o.s, i), Running);
        } else if o.status != go {
          EndSound(m, S, o.s, o.status);
        } else {
          var next := if i + 1 < |s.t.kids| then i + 1 else NO_CHILD;
          SetRunMid(m, S, o.s, o.s.t.run.(cursor := next));
          if next < 0 { EndSound(m, S, SetCursor(o.s, next), go); }
          else { ChildLoopSound(m, S, SetCursor(o.s, next), next, go); }
        }
      }
    }
  }

  lemma {:induction false} ResetLaterMid(m: nat, S: set<Key>, s: State, j: nat)
    requires Mid(m, S, s) && j <= |s.t.kids|
    ensures Mid(m, S, ResetLater(s, j))
    ensures var u := ResetLater(s, j).t;
      && |u.kids| == |s.t.kids| && u.cfg == s.t.cfg && u.run == s.t.run
      && (forall i :: 0 <= i < j ==> u.kids[i] == s.t.kids[i])
      && (forall i :: j <= i < |u.kids| ==> Idle(u.kids[i]))
    decreases |s.t.kids| - j
  {
    hide Resettable, Inv, Idle, ResetKid, ShapeOf;
    if j < |s.t.kids| {
      ResetKidMid(m, S, s, j, false);
      ResetLaterMid(m, S, ResetKid(s, j, false), j + 1);
    }
  }

  /** A running child stops everything to its right. */
  lemma ReactiveBlocks(m: nat, S: set<Key>, s: State, i: nat)
    requires Mid(m, S, s) && i < |s.t.kids|
    requires forall j :: 0 <= j < i ==> Idle(s.t.kids[j])
    requires s.t.cfg.kind == ReactiveSequence || s.t.cfg.kind == ReactiveFallback
    ensures Sound(m, S, Report(SetCursor(ResetLater(s, i + 1), i), Running))
  {
    hide Resettable, Inv, Idle, Report, ShapeOf, ResetLater, InvNode;
    ResetLaterMid(m, S, s, i + 1);
    var r := ResetLater(s, i + 1);
    SetRunMid(m, S, r, r.t.run.(cursor := i));
    assert IdleBut(SetCursor(r, i).t, i) by {
      forall j | 0 <= j < |r.t.kids| && j != i ensures Idle(r.t.kids[j]) {
        if j < i { assert r.t.kids[j] == s.t.kids[j]; }
      }
    }
    InvBranch(m, SetCursor(r, i).t);
    ReportSound(m, S, SetCursor(r, i), Running);
  }

  lemma {:induction false} ReactiveSound(m: nat, S: set<Key>, s: State, i: nat, go: Status)
    requires Mid(m, S, s) && i <= |s.t.kids| && go != Running
    requires forall j :: 0 <= j < i ==> Idle(s.t.kids[j])
    requires s.t.cfg.kind == ReactiveSequence || s.t.cfg.kind == ReactiveFallback
    ensures Sound(m, S, ReactiveLoop(m, s, i, go))
    decreases ShapeOf(s.t), 1, |s.t.kids| - i
  {
    hide Resettable, Inv, Idle, TickKid, End, Report, ShapeOf, ResetLater, InvNode;
    if i == |s.t.kids| {
      EndSound(m, S, s, go);
    } else {
      TickKidSound(m, S, s, i);
      var o := TickKid(m, s, i);
      if o.code.Ok? {
        if o.status == Running {
          ReactiveBlocks(m, S, o.s, i);
        } else if o.status != go {
          EndSound(m, S, o.s, o.status);
        } else {
          ReactiveSound(m, S, o.s, i + 1, go);
        }
      }
    }
  }

  // ---- decorators and loops ----------------------------------------------------------

  lemma SingleIdle(m: nat, S: set<Key>, t: Tree)
    requires Mild(m, t) && SaneHere(t) && IsSingleChild(t.cfg.kind) && !t.run.prepared
    requires |t.kids| > 0 ==> Idle(t.kids[0])
    ensures Idle(t)
  {
    IdleFromKids(m, t);
  }

  lemma {:induction false} DecoratorSound(m: nat, S: set<Key>, s: State)
    requires Mid(m, S, s) && InvNode(m, s.t) && SaneHere(s.t)
    requires s.t.cfg.kind == Inverter || s.t.cfg.kind == ForceSuccess || s.t.cfg.kind == ForceFailure
    ensures Sound(m, S, TickDecorator(m, s))
    decreases ShapeOf(s.t), 1, 0
  {
    hide Inv, Idle, TickKid, Report, ShapeOf, Tracks, Sane;
    TickKidSound(m, S, s, ResumeAt(s.t));
    var o := TickKid(m, s, ResumeAt(s.t));
    if o.code.Ok? {
      if o.status != Running { SingleIdle(m, S, o.s.t); }
      ReportSound(m, S, o.s, Decorate(s.t.cfg.kind, o.status));
    }
  }

  lemma {:induction false} RunOnceSound(m: nat, S: set<Key>, s: State)
    requires Mid(m, S, s) && InvNode(m, s.t) && SaneHere(s.t) && s.t.cfg.kind == RunOnce
    ensures Sound(m, S, TickRunOnce(m, s))
    decreases ShapeOf(s.t), 1, 0
  {
    hide Idle, TickKid, Report, ShapeOf, Tracks, Sane;
    if s.t.run.runOnceComplete {
      SingleIdle(m, S, s.t);
    } else {
      TickKidSound(m, S, s, ResumeAt(s.t));
      var o := TickKid(m, s, ResumeAt(s.t));
      if o.code.Ok? {
        var q := o.s.t.run.(runOnceComplete := o.status != Running);
        SetRunMid(m, S, o.s, q);
        if o.status != Running { SingleIdle(m, S, SetRun(o.s, q).t); }
        ReportSound(m, S, SetRun(o.s, q), o.status);
      }
    }
  }

  lemma StartTimerMid(m: nat, S: set<Key>, s: State)
    requires Mid(m, S, s)
    ensures Mid(m, S, StartTimer(s)) && StartTimer(s).t.kids == s.t.kids
  {
    hide Resettable, Inv;
    var c := Call(s, Clock(s.t.cfg.path, Next(s).now));
    NeutralCall(m, S, s, Clock(s.t.cfg.path, Next(s).now));
    SetRunMid(m, S, c, StartTimer(s).t.run);
  }

  lemma {:induction false} TimeoutSound(m: nat, S: set<Key>, s: State)
    requires Mid(m, S, s) && InvNode(m, s.t) && s.t.cfg.kind == Timeout
    ensures Sound(m, S, TickTimeout(m, s))
    decreases ShapeOf(s.t), 1, 0
  {
    hide Resettable, Inv, Idle, TickKid, Report, End, ShapeOf, StartTimer;
    if ResumeAt(s.t) >= 0 {
      StartTimerMid(m, S, s);
      var armed := StartTimer(s);
      if Next(s).now >= armed.t.run.deadline {
        EndSound(m, S, armed, Failure);
      } else {
        TickKidSound(m, S, armed, ResumeAt(s.t));
        var o := TickKid(m, armed, ResumeAt(s.t));
        if o.code.Ok? {
          var e := Clock(s.t.cfg.path, Next(o.s).now);
          NeutralCall(m, S, o.s, e);
          var c := Call(o.s, e);
          if e.now >= c.t.run.deadline { EndSound(m, S, c, Failure); }
          else if o.status == Running { ReportSound(m, S, c, Running); }
          else { EndSound(m, S, c, o.status); }
        }
      }
    }
  }

  lemma {:induction false} DelaySound(m: nat, S: set<Key>, s: State)
    requires Mid(m, S, s) && InvNode(m, s.t) && s.t.cfg.kind == Delay
    ensures Sound(m, S, TickDelay(m, s))
    decreases ShapeOf(s.t), 1, 1
  {
    hide Resettable, Inv, Idle, Report, End, ShapeOf, StartTimer, DelayChild;
    if ResumeAt(s.t) >= 0 {
      if s.t.run.delayElapsed {
        DelayChildSound(m, S, s, ResumeAt(s.t));
      } else {
        StartTimerMid(m, S, s);
        var armed := StartTimer(s);
        if Next(s).now < armed.t.run.deadline {
          ReportSound(m, S, armed, Running);
        } else {
          var q := armed.t.run.(delayElapsed := true, timerStarted := false, deadline := 0, timerBegan := 0);
          SetRunMid(m, S, armed, q);
          DelayChildSound(m, S, SetRun(armed, q), ResumeAt(s.t));
        }
      }
    }
  }

  lemma {:induction false} DelayChildSound(m: nat, S: set<Key>, s: State, child: int)
    requires Mid(m, S, s) && InvNode(m, s.t) && s.t.cfg.kind == Delay
    ensures Sound(m, S, DelayChild(m, s, child))
    decreases ShapeOf(s.t), 1, 0
  {
    hide Resettable, Inv, Idle, TickKid, Report, End, ShapeOf;
    TickKidSound(m, S, s, child);
    var o := TickKid(m, s, child);
    if o.code.Ok? {
      if o.status == Running { ReportSound(m, S, o.s, Running); }
      else { EndSound(m, S, o.s, o.status); }
    }
  }

  lemma NextCycleMid(m: nat, S: set<Key>, s: State, child: int)
    requires Mid(m, S, s)
    ensures Mid(m, S, NextCycle(s, child)) && NextCycle(s, child).t.cfg == s.t.cfg
    ensures |NextCycle(s, child).t.kids| == |s.t.kids|
    ensures forall i :: 0 <= i < |s.t.kids| && (i == child || Idle(s.t.kids[i])) ==>
                          Idle(NextCycle(s, child).t.kids[i])
  {
    hide Idle, Inv, ResetNode, Tracks, Sane, ShapeOf, Mild;
    var q := s.t.run.(counter := s.t.run.counter + 1);
    SetRunMid(m, S, s, q);
    if 0 <= child < |s.t.kids| {
      ResetKidMid(m, S, SetRun(s, q), child, false);
    }
  }

  lemma {:induction false} RepeatSound(m: nat, S: set<Key>, s: State, child: int)
    requires Mid(m, S, s) && InvNode(m, s.t) && s.t.cfg.kind == Repeat
    ensures Sound(m, S, RepeatLoop(m, s, child))
    decreases ShapeOf(s.t), 1,
      if s.t.run.counter < s.t.run.limit then s.t.run.limit - s.t.run.counter else 0
  {
    hide Inv, Idle, TickKid, Report, End, ShapeOf, NextCycle, Tracks, Sane;
    if s.t.run.counter >= s.t.run.limit {
      EndSound(m, S, s, Success);
    } else {
      TickKidSound(m, S, s, child);
      var o := TickKid(m, s, child);
      if o.code.Ok? {
        if o.status == Running { ReportSound(m, S, o.s, Running); }
        else {
          NextCycleMid(m, S, o.s, child);
          var r := NextCycle(o.s, child);
          RepeatSound(m, S, r, if |r.t.kids| > 0 then 0 else NO_CHILD);
        }
      }
    }
  }

  lemma {:induction false} RetrySound(m: nat, S: set<Key>, s: State, child: int)
    requires Mid(m, S, s) && InvNode(m, s.t) && s.t.cfg.kind == Retry
    requires s.t.run.counter < s.t.run.limit
    ensures Sound(m, S, RetryLoop(m, s, child))
    decreases ShapeOf(s.t), 1, s.t.run.limit - s.t.run.counter
  {
    hide Inv, Idle, TickKid, Report, End, ShapeOf, NextCycle, Tracks, Sane;
    TickKidSound(m, S, s, child);
    var o := TickKid(m, s, child);
    if o.code.Ok? {
      if o.status == Running { ReportSound(m, S, o.s, Running); }
      else if o.status == Success { EndSound(m, S, o.s, Success); }
      else {
        NextCycleMid(m, S, o.s, child);
        var r := NextCycle(o.s, child);
        if r.t.run.counter >= r.t.run.limit { EndSound(m, S, r, Failure); }
        else { RetrySound(m, S, r, if |r.t.kids| > 0 then 0 else NO_CHILD); }
      }
    }
  }

  lemma {:induction false} KeepRunningSound(m: nat, S: set<Key>, s: State)
    requires Mid(m, S, s) && InvNode(m, s.t) && s.t.cfg.kind == KeepRunning
    ensures Sound(m, S, TickKeepRunning(m, s))
    decreases ShapeOf(s.t), 1, 0
  {
    hide Inv, Idle, TickKid, Report, End, ShapeOf, NextCycle, Tracks, Sane;
    var child := ResumeAt(s.t);
    if child >= 0 {
      if s.t.run.counter >= s.t.run.limit {
        EndSound(m, S, s, Failure);
      } else {
        TickKidSound(m, S, s, child);
        var o := TickKid(m, s, child);
        if o.code.Ok? {
          if o.status == Running { ReportSound(m, S, o.s, Running); }
          else if o.status == Failure { EndSound(m, S, o.s, Success); }
          else {
            NextCycleMid(m, S, o.s, child);
            var r := NextCycle(o.s, child);
            if r.t.run.counter >= r.t.run.limit { EndSound(m, S, r, Failure); }
            else { ReportSound(m, S, r, Running); }
          }
        }
      }
    }
  }

  // ---- guarded controls and Switch -----------------------------------------------------

  lemma {:induction false} AskGuardSound(m: nat, S: set<Key>, s: State)
    requires Mid(m, S, s)
    ensures var g := AskGuard(m, s);
      && Resettable(m, S, g.s)
      && (g.code.Ok? ==>
            && Mid(m, S, g.s)
            && (forall i :: 0 <= i < |s.t.kids| && (i > 0 || s.t.cfg.condition) ==> g.s.t.kids[i] == s.t.kids[i])
            && (!s.t.cfg.condition ==> |s.t.kids| >= 2 && (g.status != Running ==> Idle(g.s.t.kids[0]))))
    decreases ShapeOf(s.t), 1, 0
  {
    hide Idle, Inv, TickKid, Tracks, Sane, Mild, ShapeOf;
    if s.t.cfg.condition {
      var a := Next(s);
      NeutralCall(m, S, s, Condition(s.t.cfg.path, a.code, a.status));
    } else if |s.t.kids| >= 2 {
      TickKidSound(m, S, s, 0);
    }
  }

  lemma DropCursorMid(m: nat, S: set<Key>, s: State)
    requires Mid(m, S, s) && s.t.run.cursor < |s.t.kids|
    ensures Mid(m, S, DropCursor(s)) && DropCursor(s).t.run.cursor < 0
    ensures -1 <= s.t.run.cursor ==> DropCursor(s).t.run.cursor == NO_CHILD
    ensures forall i :: 0 <= i < |s.t.kids| && (i == s.t.run.cursor || Idle(s.t.kids[i])) ==>
                          Idle(DropCursor(s).t.kids[i])
  {
    hide Idle, Inv, ResetKid, Tracks, Sane, ShapeOf;
    if s.t.run.cursor >= 0 {
      ResetKidMid(m, S, s, s.t.run.cursor, false);
      var r := ResetKid(s, s.t.run.cursor, false);
      SetRunMid(m, S, r, r.t.run.(cursor := NO_CHILD));
    }
  }

  /** The invariant of a control node that runs the branch under its cursor. */
  lemma InvBranch(m: nat, t: Tree)
    requires UsesCursor(t.cfg.kind) && !IsAdapter(t.cfg.kind)
    requires -1 <= t.run.cursor < |t.kids| && IdleBut(t, t.run.cursor)
    requires IsGuarded(t.cfg.kind) && !t.cfg.condition ==> t.run.cursor != 0
    requires IsLoop(t.cfg.kind) ==> t.run.counter <= m
    ensures InvNode(m, t)
  {
    hide Idle;
  }

  lemma {:induction false} SelectedSound(m: nat, S: set<Key>, s: State, selected: int)
    requires Mid(m, S, s) && OnlyCursor(s.t) && -1 <= s.t.run.cursor < |s.t.kids|
    requires s.t.cfg.kind == Switch || s.t.cfg.kind == IfThenElse || s.t.cfg.kind == Precondition
    requires selected >= 0 && (s.t.cfg.kind != Switch && !s.t.cfg.condition ==> selected >= 1)
    ensures Sound(m, S, TickSelected(m, s, selected))
    decreases ShapeOf(s.t), 1, 1
  {
    hide Resettable, Idle, Inv, ShapeOf, DropCursor, RunSelected, InvNode;
    DropCursorMid(m, S, s);
    RunSelectedSound(m, S, if s.t.run.cursor != selected then DropCursor(s) else s, selected);
  }

  lemma {:induction false} RunSelectedSound(m: nat, S: set<Key>, s: State, selected: int)
    requires Mid(m, S, s) && IdleBut(s.t, selected)
    requires s.t.cfg.kind == Switch || s.t.cfg.kind == IfThenElse || s.t.cfg.kind == Precondition
    requires selected >= 0 && (s.t.cfg.kind != Switch && !s.t.cfg.condition ==> selected >= 1)
    ensures Sound(m, S, RunSelected(m, s, selected))
    decreases ShapeOf(s.t), 1, 0
  {
    hide Resettable, Idle, Inv, TickKid, ShapeOf, End, Report, InvNode;
    TickKidSound(m, S, s, selected);
    var o := TickKid(m, s, selected);
    if o.code.Ok? {
      if o.status == Running {
        SetRunMid(m, S, o.s, o.s.t.run.(cursor := selected));
        InvBranch(m, SetCursor(o.s, selected).t);
        ReportSound(m, S, SetCursor(o.s, selected), Running);
      } else {
        EndSound(m, S, o.s, o.status);
      }
    }
  }

  lemma GuardRunning(m: nat, S: set<Key>, t: Tree, s: State)
    requires Mid(m, S, s) && InvNode(m, t) && IsGuarded(t.cfg.kind)
    requires s.t.cfg == t.cfg && s.t.run == t.run && |s.t.kids| == |t.kids|
    requires forall i :: 0 <= i < |t.kids| && (i > 0 || t.cfg.condition) ==> s.t.kids[i] == t.kids[i]
    ensures Sound(m, S, Report(DropCursor(s), Running))
  {
    hide Resettable, Idle, Inv, ShapeOf, DropCursor, Report;
    DropCursorMid(m, S, s);
    var d := DropCursor(s).t;
    assert forall i :: 0 <= i < |d.kids| && (i > 0 || t.cfg.condition) ==> Idle(d.kids[i]);
    ReportSound(m, S, DropCursor(s), Running);
  }

  lemma {:induction false} GuardedSound(m: nat, S: set<Key>, s: State)
    requires Mid(m, S, s) && InvNode(m, s.t)
    requires s.t.cfg.kind == IfThenElse || s.t.cfg.kind == Precondition
    ensures Sound(m, S, TickGuarded(m, s))
    decreases ShapeOf(s.t), 1, 2
  {
    hide Resettable, Idle, Inv, ShapeOf, AskGuard, TickSelected, End, Report, DropCursor;
    AskGuardSound(m, S, s);
    var g := AskGuard(m, s);
    var first := if s.t.cfg.condition then 0 else 1;
    if g.code.Ok? {
      if g.status == Running {
        GuardRunning(m, S, s.t, g.s);
      } else {
        assert OnlyCursor(g.s.t);
        if s.t.cfg.kind == Precondition {
          if g.status == Failure { EndSound(m, S, g.s, Failure); }
          else { SelectedSound(m, S, g.s, first); }
        } else if first < |s.t.kids| {
          var selected := if g.status == Success then first else first + 1;
          if selected >= |s.t.kids| { EndSound(m, S, g.s, Failure); }
          else { SelectedSound(m, S, g.s, selected); }
        }
      }
    }
  }

  lemma {:induction false} SwitchSound(m: nat, S: set<Key>, s: State)
    requires Mid(m, S, s) && InvNode(m, s.t) && SaneHere(s.t) && s.t.cfg.kind == Switch
    ensures Sound(m, S, TickSwitch(m, s))
    decreases ShapeOf(s.t), 1, 2
  {
    hide Resettable, Idle, Inv, ShapeOf, TickSelected, End;
    var a := Next(s);
    var e := Select(s.t.cfg.path, a.code, a.index);
    NeutralCall(m, S, s, e);
    if a.code.Ok? {
      if a.index >= |s.t.kids| { EndSound(m, S, Call(s, e), Failure); }
      else { SelectedSound(m, S, Call(s, e), a.index); }
    }
  }

  lemma {:induction false} WhileSound(m: nat, S: set<Key>, s: State)
    requires Mid(m, S, s) && InvNode(m, s.t) && SaneHere(s.t) && s.t.cfg.kind == WhileDo
    ensures Sound(m, S, TickWhile(m, s))
    decreases ShapeOf(s.t), 1, 1
  {
    hide Idle, Inv, ShapeOf, AskGuard, WhileBody, End, Report, DropCursor, Tracks, Sane, Mild;
    var body := if s.t.cfg.condition then 0 else 1;
    if body < |s.t.kids| {
      if s.t.run.counter >= s.t.run.limit {
        EndSound(m, S, s, Success);
      } else {
        AskGuardSound(m, S, s);
        var g := AskGuard(m, s);
        if g.code.Ok? {
          if g.status == Running { GuardRunning(m, S, s.t, g.s); }
          else if g.status == Failure { EndSound(m, S, g.s, Success); }
          else { WhileBodySound(m, S, g.s, body); }
        }
      }
    }
  }

  lemma {:induction false} WhileBodySound(m: nat, S: set<Key>, s: State, body: nat)
    requires Mid(m, S, s) && s.t.cfg.kind == WhileDo && IdleBut(s.t, body) && body < |s.t.kids|
    requires s.t.run.counter < s.t.run.limit
    requires body == if s.t.cfg.condition then 0 else 1
    ensures Sound(m, S, WhileBody(m, s, body))
    decreases ShapeOf(s.t), 1, 0
  {
    hide Idle, Inv, ShapeOf, TickKid, End, Report, NextCycle, Tracks, Sane, InvNode, Mild;
    LimitBound(m, s.t);
    TickKidSound(m, S, s, body);
    var o := TickKid(m, s, body);
    if o.code.Ok? {
      if o.status == Running {
        SetRunMid(m, S, o.s, o.s.t.run.(cursor := body));
        InvBranch(m, SetCursor(o.s, body).t);
        ReportSound(m, S, SetCursor(o.s, body), Running);
      } else {
        SetRunMid(m, S, o.s, o.s.t.run.(cursor := NO_CHILD));
        var idle := SetCursor(o.s, NO_CHILD);
        if o.status == Failure { EndSound(m, S, idle, Failure); }
        else {
          NextCycleMid(m, S, idle, body);
          var r := NextCycle(idle, body);
          if r.t.run.counter >= r.t.run.limit { EndSound(m, S, r, Success); }
          else {
            InvBranch(m, r.t);
            ReportSound(m, S, r, Running);
          }
        }
      }
    }
  }

  // ---- host adapters -------------------------------------------------------------------

  /** prepare or begin opens the context of an adapter. */
  lemma AdapterOpens(m: nat, S: set<Key>, s: State, e: Event)
    requires Mid(m, S, s) && IsAdapter(s.t.cfg.kind) && !s.t.run.prepared
    requires e.path == s.t.cfg.path && (e.Prepare? || (e.Begin? && (!e.code.Ok? || e.flag)))
    ensures Mid(m, S, Call(SetRun(s, s.t.run.(prepared := true)), e))
  {
    hide Replay, Idle, Inv, Open;
    var k := AdapterKey(s.t.cfg.path);
    NotBelow(s.t, k);
    ReplayStep(s.trace, e);
    PreparedOpens(S, s, k);
  }

  lemma PreparedOpens(S: set<Key>, s: State, k: Key)
    requires k == AdapterKey(s.t.cfg.path) && IsAdapter(s.t.cfg.kind)
    ensures S + Open(s.t) + {k} == S + Open(SetRun(s, s.t.run.(prepared := true)).t)
  {
    hide ShapeOf;
  }

  lemma NotBelow(t: Tree, k: Key)
    requires Sane(ShapeOf(t)) && k.path == t.cfg.path && k !in Own(t)
    ensures k !in Open(t)
  {
    if k in Open(t) {
      var i :| 0 <= i < |t.kids| && k in Open(t.kids[i]);
      SaneKid(t, i);
      OpenBelow(t.kids[i], k);
      assert false;
    }
  }

  /** A begin that finds no item leaves nothing open. */
  lemma BeginEmpty(m: nat, S: set<Key>, s: State, e: Event)
    requires Mid(m, S, s) && !s.t.run.prepared && e == Begin(s.t.cfg.path, Ok, false)
    ensures Mid(m, S, Call(s, e))
  {
    hide Replay, Idle, Inv;
    NotBelow(s.t, AdapterKey(s.t.cfg.path));
    ReplayStep(s.trace, e);
  }

  /** A successful complete or finish closes the context once the children are idle. */
  lemma AdapterCloses(m: nat, S: set<Key>, s: State, e: Event, run: Run)
    requires Mid(m, S, s) && s.t.run.prepared && IdleBut(s.t, -1)
    requires Closes(e, AdapterKey(s.t.cfg.path))
    requires !run.prepared && run.running == s.t.run.running
    requires run.branchPrepared == s.t.run.branchPrepared && IsAdapter(s.t.cfg.kind)
    requires SameParams(run, s.t.run)
    ensures Mid(m, S, SetRun(Call(s, e), run))
  {
    hide Replay, Inv;
    var k := AdapterKey(s.t.cfg.path);
    KidsIdleClosed(s.t);
    assert Open(s.t) == Own(s.t);
    var r := SetRun(Call(s, e), run);
    assert Open(r.t) == Own(r.t);
    var F := S + Own(r.t);
    assert S + Own(s.t) == F + {k};
    CloseLast(F, k, s.trace, e);
  }

  /** A failed complete or finish leaves the context open for the reset to abort. */
  lemma AdapterKeeps(m: nat, S: set<Key>, s: State, e: Event)
    requires Resettable(m, S, s) && s.t.run.prepared
    requires (e.Complete? || e.Finish?) && e.path == s.t.cfg.path && !e.code.Ok?
    ensures Resettable(m, S, Call(s, e))
  {
    hide Replay, Mild, Sane;
    assert AdapterKey(s.t.cfg.path) in Open(s.t);
    ReplayStep(s.trace, e);
  }

  lemma {:induction false} PipelineSound(m: nat, S: set<Key>, s: State)
    requires Mid(m, S, s) && InvNode(m, s.t) && s.t.cfg.kind == Pipeline
    ensures Sound(m, S, TickPipeline(m, s))
    decreases ShapeOf(s.t), 1, PipelineLeft(s.t)
  {
    hide Resettable, Idle, Inv, ShapeOf, End, Fail, PipelineChild;
    var run := s.t.run;
    if run.cursor < 0 && run.counter >= |s.t.kids| {
      EndSound(m, S, s, Success);
    } else if !run.prepared {
      var a := Next(s);
      var e := Prepare(s.t.cfg.path, run.counter, a.code);
      AdapterOpens(m, S, s, e);
      var p := Call(SetRun(s, run.(prepared := true)), e);
      if a.code.Ok? { PipelineChildSound(m, S, p, run.counter); } else { FailSound(m, S, p, a.code); }
    } else {
      PipelineChildSound(m, S, s, run.counter);
    }
  }

  lemma {:induction false} PipelineChildSound(m: nat, S: set<Key>, s: State, current: nat)
    requires Mid(m, S, s) && s.t.cfg.kind == Pipeline && s.t.run.prepared
    requires current == s.t.run.counter < |s.t.kids| && IdleBut(s.t, current)
    requires s.t.run.cursor == NO_CHILD || s.t.run.cursor == current
    ensures Sound(m, S, PipelineChild(m, s, current))
    decreases ShapeOf(s.t), 1, PipelineLeft(s.t), 1
  {
    hide Resettable, Idle, Inv, ShapeOf, TickKid, Report, Fail, PipelineComplete;
    TickKidSound(m, S, s, current);
    var o := TickKid(m, s, current);
    if !o.code.Ok? {
      FailSound(m, S, o.s, o.code);
    } else if o.status == Running {
      SetRunMid(m, S, o.s, o.s.t.run.(cursor := current));
      ReportSound(m, S, SetCursor(o.s, current), Running);
    } else {
      PipelineCompleteSound(m, S, o.s, o.status);
    }
  }

  lemma {:induction false} PipelineCompleteSound(m: nat, S: set<Key>, s: State, st: Status)
    requires Mid(m, S, s) && s.t.cfg.kind == Pipeline && s.t.run.prepared && st != Running
    requires s.t.run.counter < |s.t.kids| && IdleBut(s.t, -1)
    ensures Sound(m, S, PipelineComplete(m, s, st))
    decreases ShapeOf(s.t), 1, PipelineLeft(s.t), 0
  {
    hide Resettable, Idle, Inv, ShapeOf, End, Fail, TickPipeline, InvNode, Completed, IdleBut;
    var a := Next(s);
    var e := Complete(s.t.cfg.path, s.t.run.counter, st, a.code);
    if !a.code.Ok? {
      AdapterKeeps(m, S, s, e);
      FailSound(m, S, Call(s, e), a.code);
    } else if st == Failure {
      CompletedMid(m, S, s, e, s.t.run.counter);
      EndSound(m, S, Completed(s, e, s.t.run.counter), Failure);
    } else {
      CompletedMid(m, S, s, e, s.t.run.counter + 1);
      PipelineSound(m, S, Completed(s, e, s.t.run.counter + 1));
    }
  }

  lemma CompletedMid(m: nat, S: set<Key>, s: State, e: Event, counter: nat)
    requires Mid(m, S, s) && s.t.cfg.kind == Pipeline && s.t.run.prepared && IdleBut(s.t, -1)
    requires Closes(e, AdapterKey(s.t.cfg.path)) && counter <= |s.t.kids|
    ensures Mid(m, S, Completed(s, e, counter)) && InvNode(m, Completed(s, e, counter).t)
  {
    hide Resettable, Idle, Inv, ShapeOf;
    AdapterCloses(m, S, s, e, Completed(s, e, counter).t.run);
  }

  lemma {:induction false} EntrySound(m: nat, S: set<Key>, s: State)
    requires Mid(m, S, s) && InvNode(m, s.t) && SaneHere(s.t) && s.t.cfg.kind == EntryUpdated
    ensures Sound(m, S, TickEntry(m, s))
    decreases ShapeOf(s.t), 1, 1
  {
    hide Idle, ShapeOf, Fail, EntryChild, ResetKid, Tracks, Sane;
    if s.t.kids != [] {
      var a := Next(s);
      var e := Changed(s.t.cfg.path, a.code, a.flag);
      NeutralCall(m, S, s, e);
      var asked := Call(s, e);
      if !a.code.Ok? {
        FailSound(m, S, asked, a.code);
      } else if a.flag || !s.t.run.observed {
        ResetKidMid(m, S, asked, ResumeAt(s.t), false);
        var stopped := ResetKid(asked, ResumeAt(s.t), false);
        var q := stopped.t.run.(cursor := NO_CHILD, observed := true);
        SetRunMid(m, S, stopped, q);
        EntryChildSound(m, S, SetRun(stopped, q));
      } else if s.t.run.cursor < 0 && s.t.run.last != Running {
        SingleIdle(m, S, s.t);
      } else {
        EntryChildSound(m, S, asked);
      }
    }
  }

  lemma {:induction false} EntryChildSound(m: nat, S: set<Key>, s: State)
    requires Mid(m, S, s) && SaneHere(s.t) && s.t.cfg.kind == EntryUpdated
    ensures Sound(m, S, EntryChild(m, s))
    decreases ShapeOf(s.t), 1, 0
  {
    hide Idle, Inv, ShapeOf, Fail, Report, TickKid, Tracks, Sane, InvNode;
    TickKidSound(m, S, s, 0);
    var o := TickKid(m, s, 0);
    if !o.code.Ok? {
      FailSound(m, S, o.s, o.code);
    } else {
      var c := if o.status == Running then 0 else NO_CHILD;
      var r := SetCursor(o.s, c);
      SetRunMid(m, S, o.s, o.s.t.run.(cursor := c));
      InvBranch(m, r.t);
      if o.status != Running { SingleIdle(m, S, r.t); }
      ReportSound(m, S, r, o.status);
    }
  }

  lemma {:induction false} QueueSound(m: nat, S: set<Key>, s: State)
    requires Mid(m, S, s) && InvNode(m, s.t) && SaneHere(s.t) && s.t.cfg.kind == ConsumeQueue
    ensures Sound(m, S, TickQueue(m, s))
    decreases ShapeOf(s.t), 1, 1
  {
    hide Resettable, Idle, Inv, ShapeOf, End, Fail, QueueItem, InvNode;
    if s.t.kids == [] {
    } else if s.t.run.prepared {
      QueueItemSound(m, S, s);
    } else {
      var a := Next(s);
      var e := Begin(s.t.cfg.path, a.code, a.flag);
      var b := Call(SetRun(s, s.t.run.(prepared := true)), e);
      if a.code.Ok? && !a.flag {
        BeginEmpty(m, S, s, e);
        assert SetRun(b, b.t.run.(prepared := false)) == Call(s, e);
        EndSound(m, S, Call(s, e), Failure);
      } else {
        AdapterOpens(m, S, s, e);
        if a.code.Ok? { QueueItemSound(m, S, b); } else { FailSound(m, S, b, a.code); }
      }
    }
  }

  lemma {:induction false} QueueItemSound(m: nat, S: set<Key>, s: State)
    requires Mid(m, S, s) && SaneHere(s.t) && s.t.cfg.kind == ConsumeQueue
    requires s.t.kids != [] && s.t.run.prepared
    ensures Sound(m, S, QueueItem(m, s))
    decreases ShapeOf(s.t), 1, 0
  {
    hide Resettable, Idle, Inv, ShapeOf, End, Fail, Report, TickKid, ResetKid;
    TickKidSound(m, S, s, 0);
    var o := TickKid(m, s, 0);
    if !o.code.Ok? {
      FailSound(m, S, o.s, o.code);
    } else if o.status == Running {
      SetRunMid(m, S, o.s, o.s.t.run.(cursor := 0));
      ReportSound(m, S, SetCursor(o.s, 0), Running);
    } else if o.status == Failure {
      EndSound(m, S, o.s, Failure);
    } else {
      FinishItemSound(m, S, o.s);
    }
  }

  lemma FinishItemSound(m: nat, S: set<Key>, s: State)
    requires Mid(m, S, s) && SaneHere(s.t) && s.t.cfg.kind == ConsumeQueue
    requires |s.t.kids| == 1 && s.t.run.prepared && Idle(s.t.kids[0])
    ensures Sound(m, S, FinishItem(s))
  {
    hide Resettable, Idle, Inv, ShapeOf, End, Fail, Report, ResetKid;
    var a := Next(s);
    var e := Finish(s.t.cfg.path, a.code, a.flag);
    if !a.code.Ok? {
      AdapterKeeps(m, S, s, e);
      FailSound(m, S, Call(s, e), a.code);
    } else {
      var q := s.t.run.(prepared := false);
      AdapterCloses(m, S, s, e, q);
      var closed := SetRun(Call(s, e), q);
      if a.flag {
        ResetKidMid(m, S, closed, 0, false);
        var r := ResetKid(closed, 0, false);
        SetRunMid(m, S, r, r.t.run.(cursor := NO_CHILD));
        ReportSound(m, S, SetCursor(r, NO_CHILD), Running);
      } else {
        EndSound(m, S, closed, Success);
      }
    }
  }

  // ---- Parallel ----------------------------------------------------------------------

  lemma BranchFlagInv(m: nat, t: Tree, b: bool)
    requires Inv(m, t)
    ensures Inv(m, t.(run := t.run.(branchPrepared := b)))
    ensures Idle(t.(run := t.run.(branchPrepared := b))) == Idle(t)
  {
  }

  lemma SetBranchKids(m: nat, s: State, i: nat, b: bool)
    requires Mild(m, s.t) && KidsInv(m, s.t) && i < |s.t.kids|
    requires b ==> s.t.cfg.kind == Parallel && s.t.cfg.hooks
    ensures Mild(m, SetBranch(s, i, b).t) && KidsInv(m, SetBranch(s, i, b).t)
    ensures Idle(SetBranch(s, i, b).t.kids[i]) == Idle(s.t.kids[i])
  {
    hide Idle, ShapeOf;
    BranchFlagInv(m, s.t.kids[i], b);
    MildKid(m, s.t, i, SetBranch(s, i, b).t.kids[i]);
  }

  /** enter opens the branch on its first activation and finds it open afterwards. */
  lemma BranchEnters(m: nat, S: set<Key>, s: State, i: nat, e: Event)
    requires Mid(m, S, s) && s.t.cfg.kind == Parallel && s.t.cfg.hooks && i < |s.t.kids|
    requires e.Enter? && e.branch == s.t.kids[i].cfg.path && e.first == !s.t.kids[i].run.branchPrepared
    ensures Mid(m, S, Call(SetBranch(s, i, true), e))
  {
    hide Replay, Idle, Inv, Mild, Sane, ShapeOf;
    SetBranchKids(m, s, i, true);
    ToKids(S, s);
    var R := S + Own(s.t);
    IntoKid(R, s, i);
    SaneKid(s.t, i);
    var r := Call(SetBranch(s, i, true), e);
    EnterTracks(R + Others(s.t, i), Focus(s, i), e);
    OutOfKid(R, s.t, i, Focus(r, i));
    assert Unfocus(s.t, i, Focus(r, i)) == r;
    FromKids(S, r);
  }

  lemma EnterTracks(F: set<Key>, s: State, e: Event)
    requires Sane(ShapeOf(s.t)) && Tracks(F, s)
    requires e.Enter? && e.branch == s.t.cfg.path && e.first == !s.t.run.branchPrepared
    ensures Tracks(F, Call(SetRun(s, s.t.run.(branchPrepared := true)), e))
  {
    hide Replay, Sane, ShapeOf;
    var k := BranchKey(s.t.cfg.path);
    if e.first { NotBelow(s.t, k); }
    ReplayStep(s.trace, e);
    assert F + Open(s.t) + {k} == F + Open(s.t.(run := s.t.run.(branchPrepared := true)));
  }

  /** step, or a failed finish, of an open branch. */
  lemma BranchKeeps(m: nat, S: set<Key>, s: State, i: nat, e: Event)
    requires Resettable(m, S, s) && i < |s.t.kids| && s.t.kids[i].run.branchPrepared
    requires (e.Step? || (e.BranchFinish? && !e.code.Ok?)) && e.branch == s.t.kids[i].cfg.path
    ensures Resettable(m, S, Call(s, e)) && (KidsInv(m, s.t) ==> Mid(m, S, Call(s, e)))
  {
    hide Replay, Mild, Sane, Inv;
    assert BranchKey(e.branch) in Open(s.t.kids[i]);
    assert BranchKey(e.branch) in Open(s.t);
    ReplayStep(s.trace, e);
  }

  lemma BranchCloses(m: nat, S: set<Key>, s: State, i: nat, e: Event)
    requires Mid(m, S, s) && i < |s.t.kids| && s.t.kids[i].run.branchPrepared && Idle(s.t.kids[i])
    requires Closes(e, BranchKey(s.t.kids[i].cfg.path))
    ensures Mid(m, S, SetBranch(Call(s, e), i, false))
    ensures Idle(SetBranch(Call(s, e), i, false).t.kids[i])
  {
    hide Replay, Mild, Sane, Inv, Idle, Open, ShapeOf;
    SetBranchKids(m, s, i, false);
    ToKids(S, s);
    CloseBranch(S + Own(s.t), s, i, e);
    var r := SetBranch(Call(s, e), i, false);
    assert TracksKids(S + Own(r.t), r);
    FromKids(S, r);
  }

  lemma {:induction false} TickBranchSound(m: nat, S: set<Key>, s: State, i: nat)
    requires Mid(m, S, s) && s.t.cfg.kind == Parallel && i < |s.t.kids| && !Terminal(s.t.kids[i])
    ensures var o := TickBranch(m, s, i);
      if o.code.Ok? then
        && Mid(m, S, o.s)
        && o.s.t == s.t.(kids := s.t.kids[i := o.s.t.kids[i]])
        && o.s.t.kids[i].run.evaluated && o.s.t.kids[i].run.last == o.status
        && (o.status != Running ==> Idle(o.s.t.kids[i]))
      else Sound(m, S, o)
    decreases ShapeOf(s.t), 1, 0
  {
    hide Resettable, Idle, Inv, ShapeOf, Fail, TickKid;
    if !s.t.cfg.hooks {
      TickKidSound(m, S, s, i);
      var o := TickKid(m, s, i);
      if !o.code.Ok? { FailSound(m, S, o.s, o.code); }
    } else {
      var kid := s.t.kids[i];
      var a := Next(s);
      var e := Enter(s.t.cfg.path, kid.cfg.path, i, !kid.run.branchPrepared, a.code);
      BranchEnters(m, S, s, i, e);
      var entered := Call(SetBranch(s, i, true), e);
      if !a.code.Ok? { FailSound(m, S, entered, a.code); }
      else { BranchChildSound(m, S, entered, i); }
    }
  }

  lemma {:induction false} BranchChildSound(m: nat, S: set<Key>, s: State, i: nat)
    requires Mid(m, S, s) && s.t.cfg.kind == Parallel && i < |s.t.kids| && s.t.kids[i].run.branchPrepared
    ensures var o := TickEntered(m, s, i);
      if o.code.Ok? then
        && Mid(m, S, o.s)
        && o.s.t == s.t.(kids := s.t.kids[i := o.s.t.kids[i]])
        && o.s.t.kids[i].run.evaluated && o.s.t.kids[i].run.last == o.status
        && (o.status != Running ==> Idle(o.s.t.kids[i]))
      else Sound(m, S, o)
    decreases ShapeOf(s.t), 0, 1
  {
    hide Resettable, Idle, Inv, ShapeOf, Fail, TickKid;
    TickKidSound(m, S, s, i);
    var o := TickKid(m, s, i);
    if !o.code.Ok? {
      FailSound(m, S, o.s, o.code);
    } else {
      var b := Next(o.s);
      var e := Step(s.t.cfg.path, o.s.t.kids[i].cfg.path, i, o.status, b.code);
      BranchKeeps(m, S, o.s, i, e);
      if !b.code.Ok? { FailSound(m, S, Call(o.s, e), b.code); }
    }
  }

  ghost predicate TerminalIdle(t: Tree, i: nat) {
    forall j :: i <= j < |t.kids| && Terminal(t.kids[j]) ==> Idle(t.kids[j])
  }

  ghost predicate NoTerminal(t: Tree, i: int, n: int)
    requires 0 <= i && n <= |t.kids|
  {
    forall j :: i <= j < n ==> !Terminal(t.kids[j])
  }

  lemma {:induction false} BranchLoopSound(m: nat, S: set<Key>, s: State, i: nat, sofar: Status)
    requires Mid(m, S, s) && s.t.cfg.kind == Parallel && i <= |s.t.kids|
    requires TerminalIdle(s.t, 0) && NoTerminal(s.t, i, |s.t.kids|)
    ensures var o := BranchLoop(m, s, i, sofar);
      if o.code.Ok? then Mid(m, S, o.s) && TerminalIdle(o.s.t, 0) else Sound(m, S, o)
    decreases ShapeOf(s.t), 1, |s.t.kids| - i + 1
  {
    hide Resettable, Idle, Inv, ShapeOf, TickBranch;
    if i < |s.t.kids| {
      TickBranchSound(m, S, s, i);
      var o := TickBranch(m, s, i);
      if o.code.Ok? {
        BranchLoopSound(m, S, o.s, i + 1, Aggregate(sofar, o.status));
      }
    }
  }

  lemma RearmMid(m: nat, S: set<Key>, s: State, i: nat, agg: Status)
    requires Mid(m, S, s) && i < |s.t.kids| && !s.t.kids[i].run.branchPrepared && Idle(s.t.kids[i])
    ensures Mid(m, S, Rearm(s, i, agg)) && Rearm(s, i, agg).t.cfg == s.t.cfg
    ensures |Rearm(s, i, agg).t.kids| == |s.t.kids|
    ensures forall j :: 0 <= j < |s.t.kids| && j != i ==> Rearm(s, i, agg).t.kids[j] == s.t.kids[j]
    ensures agg == Running ==> !Terminal(Rearm(s, i, agg).t.kids[i])
  {
    hide Resettable, Idle, Inv, ShapeOf, ResetKid;
    if agg == Running {
      assert SetBranch(s, i, false) == s by {
        assert s.t.kids[i := s.t.kids[i]] == s.t.kids;
      }
      ResetKidMid(m, S, s, i, true);
    }
  }

  lemma {:induction false} FinishLoopSound(m: nat, S: set<Key>, s: State, i: nat, agg: Status)
    requires Mid(m, S, s) && s.t.cfg.kind == Parallel && i <= |s.t.kids| && TerminalIdle(s.t, i)
    requires agg == Running ==> NoTerminal(s.t, 0, i)
    ensures var o := FinishLoop(s, i, agg);
      if o.code.Ok? then Mid(m, S, o.s) && (agg == Running ==> NoTerminal(o.s.t, 0, |o.s.t.kids|))
      else Sound(m, S, o)
    decreases |s.t.kids| - i
  {
    hide Resettable, Idle, Inv, ShapeOf, Fail, Rearm, SetBranch;
    if i < |s.t.kids| {
      var kid := s.t.kids[i];
      BranchMarker(m, S, s, i);
      if !Terminal(kid) {
        FinishLoopSound(m, S, s, i + 1, agg);
      } else if s.t.cfg.hooks && kid.run.branchPrepared {
        var a := Next(s);
        var e := BranchFinish(s.t.cfg.path, kid.cfg.path, i, kid.run.last, a.code);
        if !a.code.Ok? {
          BranchKeeps(m, S, s, i, e);
          FailSound(m, S, Call(s, e), a.code);
        } else {
          BranchCloses(m, S, s, i, e);
          var r := SetBranch(Call(s, e), i, false);
          SetBranchOthers(Call(s, e), i);
          RearmMid(m, S, r, i, agg);
          FinishLoopSound(m, S, Rearm(r, i, agg), i + 1, agg);
        }
      } else {
        RearmMid(m, S, s, i, agg);
        FinishLoopSound(m, S, Rearm(s, i, agg), i + 1, agg);
      }
    }
  }

  lemma BranchMarker(m: nat, S: set<Key>, s: State, i: nat)
    requires Mid(m, S, s) && i < |s.t.kids|
    ensures s.t.kids[i].run.branchPrepared ==> s.t.cfg.hooks
  {
  }

  lemma SetBranchOthers(s: State, i: nat)
    requires i < |s.t.kids|
    ensures var u := SetBranch(s, i, false).t;
      && !u.kids[i].run.branchPrepared
      && forall j :: 0 <= j < |s.t.kids| && j != i ==> u.kids[j] == s.t.kids[j]
  {
  }

  lemma {:induction false} ParallelSound(m: nat, S: set<Key>, s: State)
    requires Mid(m, S, s) && InvNode(m, s.t) && s.t.cfg.kind == Parallel
    ensures Sound(m, S, TickParallel(m, s))
    decreases ShapeOf(s.t), 1, |s.t.kids| + 2
  {
    hide Resettable, Idle, Inv, ShapeOf, Fail, BranchLoop, FinishLoop, End, Report;
    if s.t.kids != [] {
      BranchLoopSound(m, S, s, 0, Success);
      var o := BranchLoop(m, s, 0, Success);
      if o.code.Ok? {
        var a := Next(o.s);
        var e := Join(s.t.cfg.path, o.status, a.code);
        NeutralCall(m, S, o.s, e);
        var joined := if s.t.cfg.hooks then Call(o.s, e) else o.s;
        if s.t.cfg.hooks && !a.code.Ok? {
          FailSound(m, S, joined, a.code);
        } else {
          FinishLoopSound(m, S, joined, 0, o.status);
          var f := FinishLoop(joined, 0, o.status);
          if f.code.Ok? {
            if o.status == Running { ReportSound(m, S, f.s, Running); }
            else { EndSound(m, S, f.s, o.status); }
          }
        }
      }
    }
  }
}
