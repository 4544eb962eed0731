/** What each control node does with its children, for any subtrees: which child is ticked when,
    and what the node answers. A tick is described by the ticks of the children, the answers of
    the host and the actions that follow; clean-up is whatever a reset may do. */
module BtKinds {
  import opened Wrappers
  import opened BtTypes
  import opened BtSemantics
  import opened BtInvariant
  import opened BtProtocol
  import opened BtSoundness
  import opened BtRuns
  import opened BtStutter
  import opened BtTheorems

  // ---- how outcomes are described --------------------------------------------------------------------

  predicate CleanUp(e: Event) { e.Halt? || e.PipelineAbort? || e.QueueAbort? || e.BranchAbort? }

  /** From a to b the host is asked nothing, and told at most of clean-up. */
  ghost predicate Settles(a: State, b: State) {
    && b.script == a.script && a.trace <= b.trace
    && forall k :: |a.trace| <= k < |b.trace| ==> CleanUp(b.trace[k])
  }

  /** The tick is over in state q, with this answer. */
  ghost predicate Gives(o: Out, q: State, code: Code, st: Status) {
    o.code == code && (code.Ok? ==> o.status == st) && Settles(q, o.s)
  }

  /** A tick of child i, in place. */
  ghost function Child(m: nat, q: State, i: nat): Out
    requires i < |q.t.kids|
  {
    var k := TickNode(m, State(q.script, q.trace, q.t.kids[i]));
    k.(s := k.s.(t := q.t.(kids := q.t.kids[i := k.s.t])))
  }

  /** Other children may be stopped first; then child i is ticked, and decides. */
  ghost predicate Passes(m: nat, q: State, i: nat, o: Out) {
    i < |q.t.kids| == |o.s.t.kids| &&
    exists r: State :: Settles(q, r) && r.t == q.t.kids[i] &&
      var k := TickNode(m, r);
      Gives(o, k.s, k.code, k.status) && (k.code.Ok? && k.status == Running ==> o.s.t.kids[i] == k.s.t)
  }

  /** The child that is under way, or the first. */
  function Current(t: Tree): nat {
    if t.run.cursor >= 0 then t.run.cursor else 0
  }

  lemma SettlesTrans(a: State, b: State, c: State)
    requires Settles(a, b) && Settles(b, c)
    ensures Settles(a, c)
  {
    forall k | |a.trace| <= k < |c.trace| ensures CleanUp(c.trace[k]) {
      if k < |b.trace| { assert c.trace[k] == b.trace[k]; }
    }
  }

  lemma {:induction false} ResetSettles(s: State, clear: bool)
    ensures Settles(s, ResetNode(s, clear))
    decreases ShapeOf(s.t), 1, 0
  {
    hide ResetKids, Settles;
    var c := Clear(s, clear);
    ClearSettles(s, clear);
    KidsSettle(c, 0, clear);
    SettlesTrans(s, c, ResetKids(c, 0, clear));
    var r := ResetKids(c, 0, clear);
    CloseSettles(s.t, r);
    SettlesTrans(s, r, CloseAdapter(s.t, r));
  }

  lemma ClearSettles(s: State, clear: bool)
    ensures Settles(s, Clear(s, clear))
  {
    hide ShapeOf;
  }

  lemma CloseSettles(was: Tree, s: State)
    ensures Settles(s, CloseAdapter(was, s))
  {
  }

  lemma {:induction false} KidsSettle(s: State, i: nat, clear: bool)
    requires i <= |s.t.kids|
    ensures Settles(s, ResetKids(s, i, clear))
    decreases ShapeOf(s.t), 0, |s.t.kids| - i
  {
    hide ResetNode, Settles;
    if i == |s.t.kids| { assert Settles(s, s) by { Stays(s); } } else {
      var c := ResetChild(s, i, clear);
      ShapeKid(s.t, i);
      ResetSettles(Focus(s, i), clear);
      ChildSettles(s, i, clear);
      KidsSettle(c, i + 1, clear);
      SettlesTrans(s, c, ResetKids(c, i + 1, clear));
    }
  }

  lemma Stays(s: State)
    ensures Settles(s, s)
  {
  }

  lemma ChildSettles(s: State, i: nat, clear: bool)
    requires i < |s.t.kids| && Settles(Focus(s, i), ResetNode(Focus(s, i), clear))
    ensures Settles(s, ResetChild(s, i, clear))
  {
    hide ResetNode, ShapeOf;
  }

  lemma KidSettles(s: State, i: int)
    ensures Settles(s, ResetKid(s, i, false))
    ensures forall j :: 0 <= j < |s.t.kids| && j != i ==> ResetKid(s, i, false).t.kids[j] == s.t.kids[j]
  {
    hide ResetNode, ShapeOf;
    if 0 <= i < |s.t.kids| { ResetSettles(Focus(s, i), false); }
  }

  lemma {:induction false} LaterSettles(s: State, j: nat)
    requires j <= |s.t.kids|
    ensures var r := ResetLater(s, j);
      Settles(s, r) && |r.t.kids| == |s.t.kids| && forall i :: 0 <= i < j ==> r.t.kids[i] == s.t.kids[i]
    decreases |s.t.kids| - j
  {
    hide Settles, ResetKid, ShapeOf;
    if j == |s.t.kids| { Stays(s); } else {
      var c := ResetKid(s, j, false);
      KidSettles(s, j);
      LaterSettles(c, j + 1);
      SettlesTrans(s, c, ResetLater(c, j + 1));
    }
  }

  lemma EndGives(s: State, st: Status)
    ensures Gives(End(s, st), s, Ok, st)
  {
    hide ResetNode, ShapeOf;
    ResetSettles(s, false);
  }

  lemma FailGives(s: State, code: Code)
    ensures Gives(Fail(s, code), s, code, Failure)
  {
    hide ResetNode, ShapeOf;
    ResetSettles(s, false);
  }

  /** A child tick in the semantics is the tick of that child. */
  lemma KidIsChild(m: nat, q: State, i: nat)
    requires i < |q.t.kids|
    ensures TickKid(m, q, i) == Child(m, q, i)
  {
    hide TickNode, ShapeOf;
  }

  // ---- parameters ---------------------------------------------------------------------------------------

  function Capped(x: nat): nat { if x > UINT64_MAX then UINT64_MAX else x }

  /** The node and its host answers after the resolver, if there is one, has been asked. */
  ghost function Asked(m: nat, s: State): State { Resolved(m, s).s }

  /** A resolver is asked once; it can fail or give a limit out of range. Otherwise the node has the
      new limit, or the new duration and, with its timer running, the new deadline. */
  lemma ParametersMean(m: nat, s: State)
    ensures var r, a, q := Resolved(m, s), Next(s), Asked(m, s);
      && q.t.kids == s.t.kids && q.t.cfg == s.t.cfg
      && (s.t.cfg.resolver.NoResolver? ==>
            r.code.Ok? && q.script == s.script && q.trace == s.trace && q.t.run == s.t.run.(evaluated := false))
      && (!s.t.cfg.resolver.NoResolver? ==>
            && q.trace == s.trace + [Resolve(s.t.cfg.path, a.code)]
            && q.script == if s.script == [] then [] else s.script[1..])
      && (s.t.cfg.resolver.LimitResolver? ==>
            && (r.code.Ok? <==> a.code.Ok? && a.limit <= m)
            && (!r.code.Ok? ==> r.code == (if a.code.Ok? then EInval else a.code) && q.t == s.t)
            && (r.code.Ok? ==> q.t.run == s.t.run.(limit := a.limit, evaluated := false)))
      && (s.t.cfg.resolver.DurationResolver? ==>
            && r.code == a.code && (!r.code.Ok? ==> q.t == s.t)
            && (r.code.Ok? ==>
                  var on := s.t.run.timerStarted;
                  q.t.run == s.t.run.(duration := a.duration, evaluated := false,
                    deadline := if on then Capped(s.t.run.timerBegan + a.duration) else s.t.run.deadline)))
  {
    hide ShapeOf;
  }

  /** A node whose resolver fails reports the error and does nothing else. */
  lemma UnresolvedStops(m: nat, s: State)
    requires !Resolved(m, s).code.Ok?
    ensures TickNode(m, s) == Resolved(m, s)
  {
    hide Dispatch, ShapeOf;
  }

  /** A node of a valid tree between ticks. */
  ghost predicate Ready(m: nat, t: Tree) {
    && InvNode(m, t) && CountValid(t.cfg.kind, t.cfg.condition, |t.kids|)
    && (t.cfg.resolver.LimitResolver? ==> IsLoop(t.cfg.kind))
    && (t.cfg.resolver.DurationResolver? ==> IsTimed(t.cfg.kind))
  }

  lemma CursorRange(m: nat, t: Tree)
    requires InvNode(m, t)
    ensures -1 <= t.run.cursor < |t.kids| && (!UsesCursor(t.cfg.kind) ==> t.run.cursor == NO_CHILD)
  {
  }

  // ---- guards: IfThenElse, Precondition, WhileDo -----------------------------------------------------------

  /** The condition: what the predicate callback answers, or else the first child. */
  ghost function Guard(m: nat, q: State): Out
    requires q.t.cfg.condition || q.t.kids != []
  {
    if q.t.cfg.condition then
      var a := Next(q);
      Out(Call(q, Condition(q.t.cfg.path, a.code, a.status)),
          if a.code.Ok? && a.status.None? then EInval else a.code,
          if a.status.Some? then a.status.value else Failure)
    else Child(m, q, 0)
  }

  lemma GuardIs(m: nat, q: State)
    requires q.t.cfg.condition || |q.t.kids| >= 2
    ensures var g, k := AskGuard(m, q), Guard(m, q);
      && g.s == k.s && g.code == k.code && (g.code.Ok? ==> g.status == k.status)
      && |g.s.t.kids| == |q.t.kids| && g.s.t.cfg == q.t.cfg
  {
    hide TickNode, ShapeOf;
    if !q.t.cfg.condition { KidIsChild(m, q, 0); }
  }

  lemma DropSettles(q: State, i: nat)
    requires i < |q.t.kids|
    ensures var r := if q.t.run.cursor != i then DropCursor(q) else q;
      Settles(q, r) && |r.t.kids| == |q.t.kids| && r.t.kids[i] == q.t.kids[i] && r.t.cfg == q.t.cfg
  {
    hide ResetNode, ShapeOf;
    KidSettles(q, q.t.run.cursor);
  }

  lemma SelectedPasses(m: nat, q: State, i: nat)
    requires i < |q.t.kids|
    ensures Passes(m, q, i, TickSelected(m, q, i))
    ensures var o := TickSelected(m, q, i); o.code.Ok? && o.status == Running ==> o.s.t.run.cursor == i
  {
    hide TickNode, ShapeOf, RunSelected, Child, DropCursor, Settles, TickSelected;
    var r := if q.t.run.cursor != i then DropCursor(q) else q;
    DropSettles(q, i);
    SelectedIs(m, q, i);
    RunPasses(m, r, i);
    PassesFrom(m, q, r, i, RunSelected(m, r, i));
  }

  lemma SelectedIs(m: nat, q: State, i: nat)
    ensures TickSelected(m, q, i) == RunSelected(m, if q.t.run.cursor != i then DropCursor(q) else q, i)
  {
    hide RunSelected, ShapeOf, ResetNode;
  }

  lemma RunPasses(m: nat, r: State, i: nat)
    requires i < |r.t.kids|
    ensures var o := RunSelected(m, r, i);
      Passes(m, r, i, o) && (o.code.Ok? && o.status == Running ==> o.s.t.run.cursor == i)
  {
    hide TickNode, End, ShapeOf, TickKid;
    KidIsChild(m, r, i);
    var o := TickKid(m, r, i);
    assert o == Child(m, r, i);
    EndGives(o.s, o.status);
    EndKids(o.s, o.status);
    var f := State(r.script, r.trace, r.t.kids[i]);
    assert Settles(r, f) && f.t == r.t.kids[i];
  }

  lemma EndKids(s: State, st: Status)
    ensures |End(s, st).s.t.kids| == |s.t.kids|
  {
  }

  lemma PassesFrom(m: nat, q: State, r: State, i: nat, o: Out)
    requires Settles(q, r) && Passes(m, r, i, o) && i < |q.t.kids| == |r.t.kids| && q.t.kids[i] == r.t.kids[i]
    ensures Passes(m, q, i, o)
  {
    hide Settles, TickNode;
    var f: State :| Settles(r, f) && f.t == r.t.kids[i] &&
      var k := TickNode(m, f);
      Gives(o, k.s, k.code, k.status) && (k.code.Ok? && k.status == Running ==> o.s.t.kids[i] == k.s.t);
    SettlesTrans(q, r, f);
  }

  /** Precondition ticks its child, and IfThenElse its first branch, exactly when the condition
      holds. When it fails IfThenElse ticks the second branch, if there is one; otherwise the
      node fails. While the condition is undecided the node is, and no branch is ticked. */
  ghost predicate GuardedMeans(m: nat, q: State, o: Out)
    requires Ready(m, q.t) && (q.t.cfg.kind == IfThenElse || q.t.cfg.kind == Precondition)
  {
    var g, first := Guard(m, q), if q.t.cfg.condition then 0 else 1;
    if !g.code.Ok? then Gives(o, g.s, g.code, Failure)
    else
      match g.status
      case Running => Gives(o, g.s, Ok, Running)
      case Success => Passes(m, g.s, first, o)
      case Failure =>
        if q.t.cfg.kind == IfThenElse && first + 1 < |q.t.kids| then Passes(m, g.s, first + 1, o)
        else Gives(o, g.s, Ok, Failure)
  }

  lemma GuardedStep(m: nat, q: State)
    requires Ready(m, q.t) && (q.t.cfg.kind == IfThenElse || q.t.cfg.kind == Precondition)
    ensures GuardedMeans(m, q, TickGuarded(m, q))
  {
    hide TickNode, End, ShapeOf, TickSelected, DropCursor, AskGuard, Guard, InvNode, Gives, Passes, TickGuarded, Report;
    GuardIs(m, q);
    GuardedCases(m, q);
    var g, first := Guard(m, q), if q.t.cfg.condition then 0 else 1;
    EndGives(g.s, Failure);
    DropGives(g.s);
    ErrGives(g.s, g.code);
    if first < |g.s.t.kids| { SelectedPasses(m, g.s, first); }
    if first + 1 < |g.s.t.kids| { SelectedPasses(m, g.s, first + 1); }
  }

  lemma ErrGives(s: State, code: Code)
    ensures !code.Ok? ==> forall st :: Gives(Err(s, code), s, code, st)
  {
  }

  lemma GuardedCases(m: nat, q: State)
    requires Ready(m, q.t) && (q.t.cfg.kind == IfThenElse || q.t.cfg.kind == Precondition)
    ensures var o, g, first := TickGuarded(m, q), Guard(m, q), if q.t.cfg.condition then 0 else 1;
      && (!g.code.Ok? ==> o == Err(g.s, g.code))
      && (g.code.Ok? && g.status == Running ==> o == Report(DropCursor(g.s), Running))
      && (g.code.Ok? && g.status == Success ==> o == TickSelected(m, g.s, first))
      && (g.code.Ok? && g.status == Failure ==>
            o == if q.t.cfg.kind == IfThenElse && first + 1 < |q.t.kids| then TickSelected(m, g.s, first + 1)
                 else End(g.s, Failure))
  {
    hide TickNode, End, ShapeOf, TickSelected, DropCursor, AskGuard, Guard, InvNode, Report;
    GuardIs(m, q);
  }

  lemma DropGives(s: State)
    ensures Gives(Report(DropCursor(s), Running), s, Ok, Running)
  {
    hide ResetNode, ShapeOf, ResetKid;
    KidSettles(s, s.t.run.cursor);
  }

  /** WhileDo: with its rounds used up, or when the condition fails, it succeeds; while the condition
      is undecided it is. Otherwise the body is ticked; its failure is the node's, and a success
      counts a round: the last one succeeds, any other yields. */
  ghost predicate WhileMeans(m: nat, q: State, o: Out)
    requires Ready(m, q.t) && q.t.cfg.kind == WhileDo
  {
    var g, body := Guard(m, q), if q.t.cfg.condition then 0 else 1;
    if q.t.run.counter >= q.t.run.limit then Gives(o, q, Ok, Success)
    else if !g.code.Ok? then Gives(o, g.s, g.code, Failure)
    else
      match g.status
      case Running => Gives(o, g.s, Ok, Running)
      case Failure => Gives(o, g.s, Ok, Success)
      case Success => body < |g.s.t.kids| && RoundMeans(Child(m, g.s, body), q.t.run, o, Failure, Success)
  }

  /** One round of a loop that a failing child ends with `ended`, and the last round with `done`. */
  ghost predicate RoundMeans(k: Out, before: Run, o: Out, ended: Status, done: Status) {
    if !k.code.Ok? || k.status == Running then Gives(o, k.s, k.code, Running)
    else if k.status == Failure then Gives(o, k.s, Ok, ended)
    else if before.counter + 1 >= before.limit then Gives(o, k.s, Ok, done)
    else Gives(o, k.s, Ok, Running) && o.s.t.run.counter == before.counter + 1
  }

  lemma WhileStep(m: nat, q: State)
    requires Ready(m, q.t) && q.t.cfg.kind == WhileDo
    ensures WhileMeans(m, q, TickWhile(m, q))
  {
    hide TickNode, End, ShapeOf, DropCursor, AskGuard, Guard, InvNode, Gives, WhileBody, Child, TickWhile, Report,
      RoundMeans;
    EndGives(q, Success);
    WhileCases(m, q);
    GuardIs(m, q);
    var g, body := Guard(m, q), if q.t.cfg.condition then 0 else 1;
    EndGives(g.s, Success);
    DropGives(g.s);
    ErrGives(g.s, g.code);
    BodyStep(m, g.s, body);
  }

  lemma WhileCases(m: nat, q: State)
    requires Ready(m, q.t) && q.t.cfg.kind == WhileDo
    ensures var o, g, body := TickWhile(m, q), Guard(m, q), if q.t.cfg.condition then 0 else 1;
      && g.s.t.run == q.t.run && body < |g.s.t.kids|
      && (q.t.run.counter >= q.t.run.limit ==> o == End(q, Success))
      && (q.t.run.counter < q.t.run.limit ==>
            && (!g.code.Ok? ==> o == Err(g.s, g.code))
            && (g.code.Ok? && g.status == Running ==> o == Report(DropCursor(g.s), Running))
            && (g.code.Ok? && g.status == Success ==> o == WhileBody(m, g.s, body))
            && (g.code.Ok? && g.status == Failure ==> o == End(g.s, Success)))
  {
    hide TickNode, End, ShapeOf, DropCursor, AskGuard, Guard, InvNode, WhileBody, Report;
    GuardIs(m, q);
    GuardRun(m, q);
  }

  lemma GuardRun(m: nat, q: State)
    ensures AskGuard(m, q).s.t.run == q.t.run
  {
    hide TickKid, ShapeOf;
  }

  lemma BodyStep(m: nat, s: State, body: nat)
    requires body < |s.t.kids|
    ensures RoundMeans(Child(m, s, body), s.t.run, WhileBody(m, s, body), Failure, Success)
  {
    hide Child, WhileBody, Gives, Settles, End, Report, NextCycle, ShapeOf, SetCursor, TickNode;
    BodyCases(m, s, body);
    var k := Child(m, s, body);
    var idle, busy := SetCursor(k.s, NO_CHILD), SetCursor(k.s, body);
    var r := NextCycle(idle, body);
    ErrGives(k.s, k.code);
    CursorSettles(k.s, NO_CHILD);
    CursorSettles(k.s, body);
    CycleGives(idle, body);
    SettlesTrans(k.s, idle, r);
    EndsGive(k.s, idle, Failure);
    EndsGive(k.s, r, Success);
    ReportGives(k.s, busy, Running);
    ReportGives(k.s, r, Running);
  }

  lemma BodyCases(m: nat, s: State, body: nat)
    requires body < |s.t.kids|
    ensures var o, k := WhileBody(m, s, body), Child(m, s, body);
      var idle := SetCursor(k.s, NO_CHILD);
      var r := NextCycle(idle, body);
      && idle.t.run.counter == s.t.run.counter && idle.t.run.limit == s.t.run.limit
      && (!k.code.Ok? ==> o == Err(k.s, k.code))
      && (k.code.Ok? && k.status == Running ==> o == Report(SetCursor(k.s, body), Running))
      && (k.code.Ok? && k.status == Failure ==> o == End(idle, Failure))
      && (k.code.Ok? && k.status == Success ==>
            o == if s.t.run.counter + 1 >= s.t.run.limit then End(r, Success) else Report(r, Running))
  {
    hide Child, End, Report, NextCycle, ShapeOf, TickNode, TickKid;
    KidIsChild(m, s, body);
    assert TickKid(m, s, body).s.t.run == s.t.run;
  }

  lemma CursorSettles(s: State, c: int)
    ensures Settles(s, SetCursor(s, c))
  {
    hide ShapeOf;
  }

  lemma EndsGive(a: State, b: State, st: Status)
    requires Settles(a, b)
    ensures Gives(End(b, st), a, Ok, st)
  {
    hide Settles, End, ShapeOf;
    EndGives(b, st);
    SettlesTrans(a, b, End(b, st).s);
  }

  lemma ReportGives(a: State, b: State, st: Status)
    requires Settles(a, b)
    ensures Gives(Report(b, st), a, Ok, st) && Report(b, st).s.t.run == b.t.run.(last := st)
  {
    hide ShapeOf;
  }

  /** Only answers and actions matter to what settles. */
  lemma Unmoved(a: State)
    ensures forall b: State :: b.script == a.script && b.trace == a.trace ==> Settles(a, b)
    ensures forall b: State, c: State :: b.script == a.script && b.trace == a.trace && Settles(b, c) ==> Settles(a, c)
  {
  }

  /** Counting a round only stops the child. */
  lemma CycleGives(s: State, child: int)
    ensures var r := NextCycle(s, child);
      Settles(s, r) && r.t.run == s.t.run.(counter := s.t.run.counter + 1) && |r.t.kids| == |s.t.kids|
  {
    hide ResetNode, ShapeOf, ResetKid;
    KidSettles(SetRun(s, s.t.run.(counter := s.t.run.counter + 1)), child);
  }

  /** KeepRunning succeeds when its child fails, and fails when its rounds are used up; in
      between it yields. */
  ghost predicate KeepRunningMeans(m: nat, q: State, o: Out)
    requires Ready(m, q.t) && q.t.cfg.kind == KeepRunning
  {
    if q.t.run.counter >= q.t.run.limit then Gives(o, q, Ok, Failure)
    else RoundMeans(Child(m, q, 0), q.t.run, o, Success, Failure)
  }

  lemma KeepRunningStep(m: nat, q: State)
    requires Ready(m, q.t) && q.t.cfg.kind == KeepRunning
    ensures KeepRunningMeans(m, q, TickKeepRunning(m, q))
  {
    hide Child, TickKeepRunning, InvNode, Gives, Settles, End, Report, NextCycle, ShapeOf, TickNode;
    KeepRunningCases(m, q);
    var k := Child(m, q, 0);
    ErrGives(k.s, k.code);
    Stays(q);
    Stays(k.s);
    CycleGives(k.s, 0);
    EndsGive(q, q, Failure);
    EndsGive(k.s, k.s, Success);
    EndsGive(k.s, NextCycle(k.s, 0), Failure);
    ReportGives(k.s, k.s, Running);
    ReportGives(k.s, NextCycle(k.s, 0), Running);
  }

  lemma KeepRunningCases(m: nat, q: State)
    requires Ready(m, q.t) && q.t.cfg.kind == KeepRunning
    ensures var o, k := TickKeepRunning(m, q), Child(m, q, 0);
      var r := NextCycle(k.s, 0);
      && k.s.t.run == q.t.run
      && (q.t.run.counter >= q.t.run.limit ==> o == End(q, Failure))
      && (q.t.run.counter < q.t.run.limit ==>
            && (!k.code.Ok? ==> o == Err(k.s, k.code))
            && (k.code.Ok? && k.status == Running ==> o == Report(k.s, Running))
            && (k.code.Ok? && k.status == Failure ==> o == End(k.s, Success))
            && (k.code.Ok? && k.status == Success ==>
                  o == if q.t.run.counter + 1 >= q.t.run.limit then End(r, Failure) else Report(r, Running)))
  {
    hide Child, End, Report, NextCycle, ShapeOf, TickNode, TickKid;
    KidIsChild(m, q, 0);
    assert TickKid(m, q, 0).s.t.run == q.t.run;
  }

  /** Switch ticks the child it is told; told of none, it fails. */
  ghost predicate SwitchMeans(m: nat, q: State, o: Out) {
    var a := Next(q);
    var c := Call(q, Select(q.t.cfg.path, a.code, a.index));
    if !a.code.Ok? then Gives(o, c, a.code, Failure)
    else if a.index < |q.t.kids| then Passes(m, c, a.index, o)
    else Gives(o, c, Ok, Failure)
  }

  lemma SwitchStep(m: nat, q: State)
    ensures SwitchMeans(m, q, TickSwitch(m, q))
  {
    hide TickNode, End, ShapeOf, TickSelected, Passes, Settles;
    var a := Next(q);
    var c := Call(q, Select(q.t.cfg.path, a.code, a.index));
    Unmoved(c);
    EndGives(c, Failure);
    if a.index < |q.t.kids| { SelectedPasses(m, c, a.index); }
  }

  // ---- caches: RunOnce, EntryUpdated ----------------------------------------------------------------------

  /** RunOnce ticks its child until that ends, and from then on answers the same without it. */
  ghost predicate RunOnceMeans(m: nat, q: State, o: Out)
    requires Ready(m, q.t) && q.t.cfg.kind == RunOnce
  {
    && (if q.t.run.runOnceComplete then
          o.code.Ok? && o.status == q.t.run.last && o.s.script == q.script && o.s.trace == q.trace
        else Passes(m, q, 0, o))
    && (o.code.Ok? ==> o.s.t.run.last == o.status &&
                       (o.s.t.run.runOnceComplete <==> q.t.run.runOnceComplete || o.status != Running))
  }

  lemma RunOnceStep(m: nat, q: State)
    requires Ready(m, q.t) && q.t.cfg.kind == RunOnce
    ensures RunOnceMeans(m, q, TickRunOnce(m, q))
  {
    hide TickNode, ShapeOf, TickKid, Passes;
    KidIsChild(m, q, 0);
    var k, o := Child(m, q, 0), TickRunOnce(m, q);
    if !q.t.run.runOnceComplete { ChildPasses(m, q, 0, o); }
  }

  /** A node that ends just as its child does passes it. */
  lemma ChildPasses(m: nat, q: State, i: nat, o: Out)
    requires i < |q.t.kids|
    requires var k := Child(m, q, i);
      && o.code == k.code && (k.code.Ok? ==> o.status == k.status) && o.s.script == k.s.script
      && o.s.trace == k.s.trace && o.s.t.kids == k.s.t.kids
    ensures Passes(m, q, i, o)
  {
    hide TickNode;
    var f := State(q.script, q.trace, q.t.kids[i]);
    assert Settles(q, f);
  }

  /** The same when it resets itself at the end. */
  lemma EndPasses(m: nat, q: State, i: nat, o: Out)
    requires i < |q.t.kids|
    requires var k := Child(m, q, i); k.code.Ok? && k.status != Running && o == End(k.s, k.status)
    ensures Passes(m, q, i, o)
  {
    hide TickNode, End, ShapeOf;
    var k := Child(m, q, i);
    EndGives(k.s, k.status);
    EndKids(k.s, k.status);
    var f := State(q.script, q.trace, q.t.kids[i]);
    assert Settles(q, f);
  }

  /** EntryUpdated asks whether its entry changed. The first time, and on a change, its child
      starts anew; otherwise a child under way goes on, and an ended one is not ticked again. */
  ghost predicate EntryMeans(m: nat, q: State, o: Out)
    requires Ready(m, q.t) && q.t.cfg.kind == EntryUpdated
  {
    var a := Next(q);
    var c := Call(q, Changed(q.t.cfg.path, a.code, a.flag));
    && (if !a.code.Ok? then Gives(o, c, a.code, Failure)
        else if a.flag || !q.t.run.observed then
          var r := ResetNode(c.(t := c.t.kids[0]), false);
          Passes(m, r.(t := c.t.(kids := [r.t])), 0, o)
        else if q.t.run.cursor < 0 && q.t.run.last != Running then
          o.code.Ok? && o.status == q.t.run.last && o.s.script == c.script && o.s.trace == c.trace
        else Passes(m, c, 0, o))
    && (o.code.Ok? ==> o.s.t.run.observed && o.s.t.run.last == o.status &&
                       (o.s.t.run.cursor == 0 <==> o.status == Running))
  }

  lemma EntryStep(m: nat, q: State)
    requires Ready(m, q.t) && q.t.cfg.kind == EntryUpdated
    ensures EntryMeans(m, q, TickEntry(m, q))
  {
    hide TickNode, ShapeOf, ResetNode, EntryChild, Passes, Fail, Settles, InvNode, Gives, ResetKid;
    CursorRange(m, q.t);
    var a := Next(q);
    var c := Call(q, Changed(q.t.cfg.path, a.code, a.flag));
    FailGives(c, a.code);
    EntryChildStep(m, c);
    EntryResets(c);
    var stopped := ResetKid(c, 0, false);
    var r := ResetNode(c.(t := c.t.kids[0]), false);
    var on := SetRun(stopped, stopped.t.run.(cursor := NO_CHILD, observed := true));
    EntryChildStep(m, on);
    SamePasses(m, on, r.(t := c.t.(kids := [r.t])), 0, EntryChild(m, on));
  }

  lemma EntryResets(c: State)
    requires |c.t.kids| == 1
    ensures var s, r := ResetKid(c, 0, false), ResetNode(c.(t := c.t.kids[0]), false);
      s.t.kids == [r.t] && s.script == r.script && s.trace == r.trace
  {
    hide ResetNode, ShapeOf;
  }

  lemma SamePasses(m: nat, p: State, q: State, i: nat, o: Out)
    requires p.script == q.script && p.trace == q.trace && p.t.kids == q.t.kids
    ensures Passes(m, p, i, o) <==> Passes(m, q, i, o)
  {
    hide TickNode;
  }

  lemma EntryChildStep(m: nat, q: State)
    requires |q.t.kids| == 1
    ensures var o := EntryChild(m, q);
      && Passes(m, q, 0, o)
      && (o.code.Ok? ==> o.s.t.run.observed == q.t.run.observed && o.s.t.run.last == o.status &&
                         (o.s.t.run.cursor == 0 <==> o.status == Running))
  {
    hide TickNode, ShapeOf, Fail, Passes, TickKid;
    KidIsChild(m, q, 0);
    var k := TickKid(m, q, 0);
    if k.code.Ok? { ChildPasses(m, q, 0, EntryChild(m, q)); } else { FailPasses(m, q, 0, EntryChild(m, q)); }
  }

  lemma FailPasses(m: nat, q: State, i: nat, o: Out)
    requires i < |q.t.kids|
    requires var k := Child(m, q, i); !k.code.Ok? && o == Fail(k.s, k.code)
    ensures Passes(m, q, i, o)
  {
    hide TickNode, Fail, ShapeOf;
    var k := Child(m, q, i);
    FailGives(k.s, k.code);
    FailKids(k.s, k.code);
    var f := State(q.script, q.trace, q.t.kids[i]);
    assert Settles(q, f);
  }

  lemma FailKids(s: State, code: Code)
    ensures |Fail(s, code).s.t.kids| == |s.t.kids|
  {
  }

  // ---- clocks: Timeout, Delay ---------------------------------------------------------------------------------

  /** The deadline: as set when the timer started, or set now. */
  function DeadlineAt(run: Run, now: nat): nat {
    if run.timerStarted then run.deadline else Capped(now + run.duration)
  }

  /** Timeout fails exactly when its deadline has come, before its child is ticked or after;
      until then it answers what the child does. */
  ghost predicate TimeoutMeans(m: nat, q: State, o: Out)
    requires Ready(m, q.t) && q.t.cfg.kind == Timeout
  {
    var now := Next(q).now;
    var c := Call(q, Clock(q.t.cfg.path, now));
    var deadline := DeadlineAt(q.t.run, now);
    if now >= deadline then Gives(o, c, Ok, Failure)
    else
      var k := Child(m, c, 0);
      var later := Next(k.s).now;
      if !k.code.Ok? then Gives(o, k.s, k.code, Failure)
      else
        && Gives(o, Call(k.s, Clock(q.t.cfg.path, later)), Ok, if later >= deadline then Failure else k.status)
        && (o.status == Running ==> o.s.t.run.timerStarted && o.s.t.run.deadline == deadline)
  }

  lemma TimeoutStep(m: nat, q: State)
    requires Ready(m, q.t) && q.t.cfg.kind == Timeout
    ensures TimeoutMeans(m, q, TickTimeout(m, q))
  {
    hide Child, TickTimeout, Gives, Settles, End, Report, ShapeOf, TickNode, StartTimer;
    var armed := StartTimer(q);
    var c := Call(q, Clock(q.t.cfg.path, Next(q).now));
    TimerStarts(q);
    TimeoutCases(m, q);
    var k, j := Child(m, armed, 0), Child(m, c, 0);
    SameChild(m, armed, c, 0);
    var d := Call(k.s, Clock(q.t.cfg.path, Next(k.s).now));
    var e := Call(j.s, Clock(q.t.cfg.path, Next(j.s).now));
    Unmoved(c);
    Unmoved(j.s);
    Unmoved(e);
    Stays(k.s);
    ErrGives(k.s, k.code);
    SameGives(j.s, k.s);
    EndsGive(c, armed, Failure);
    EndsGive(e, d, Failure);
    EndsGive(e, d, k.status);
    ReportGives(e, d, Running);
  }

  lemma SameGives(a: State, b: State)
    requires a.script == b.script && a.trace == b.trace
    ensures forall o, code, st :: Gives(o, a, code, st) <==> Gives(o, b, code, st)
  {
  }

  /** What a child does depends on nothing else of its parent. */
  lemma SameChild(m: nat, p: State, q: State, i: nat)
    requires p.script == q.script && p.trace == q.trace && p.t.kids == q.t.kids && i < |q.t.kids|
    ensures var j, k := Child(m, p, i), Child(m, q, i);
      && j.s.script == k.s.script && j.s.trace == k.s.trace && j.code == k.code && j.status == k.status
      && j.s.t.kids == k.s.t.kids && j.s.t.run == p.t.run && j.s.t.cfg == p.t.cfg
  {
    hide TickNode;
  }

  lemma TimerStarts(q: State)
    ensures var armed, now := StartTimer(q), Next(q).now;
      var c := Call(q, Clock(q.t.cfg.path, now));
      && armed.script == c.script && armed.trace == c.trace && armed.t.kids == q.t.kids && armed.t.cfg == q.t.cfg
      && armed.t.run.timerStarted && armed.t.run.delayElapsed == q.t.run.delayElapsed
      && armed.t.run.deadline == DeadlineAt(q.t.run, now)
  {
    hide ShapeOf;
  }

  lemma TimeoutCases(m: nat, q: State)
    requires Ready(m, q.t) && q.t.cfg.kind == Timeout
    ensures var o, armed := TickTimeout(m, q), StartTimer(q);
      && |armed.t.kids| == 1
      && var k := Child(m, armed, 0);
         var now := Next(k.s).now;
         var c := Call(k.s, Clock(q.t.cfg.path, now));
         if Next(q).now >= armed.t.run.deadline then o == End(armed, Failure)
         else if !k.code.Ok? then o == Err(k.s, k.code)
         else if now >= armed.t.run.deadline then o == End(c, Failure)
         else if k.status == Running then o == Report(c, Running)
         else o == End(c, k.status)
  {
    hide Child, End, Report, ShapeOf, TickNode, TickKid;
    KidIsChild(m, StartTimer(q), 0);
    assert TickKid(m, StartTimer(q), 0).s.t.run == StartTimer(q).t.run;
  }

  /** Delay yields without its child until its deadline has come; then it answers what its child does. */
  ghost predicate DelayMeans(m: nat, q: State, o: Out)
    requires Ready(m, q.t) && q.t.cfg.kind == Delay
  {
    var now := Next(q).now;
    var c := Call(q, Clock(q.t.cfg.path, now));
    if q.t.run.delayElapsed then Passes(m, q, 0, o)
    else if now < DeadlineAt(q.t.run, now) then
      Gives(o, c, Ok, Running) && o.s.t.run.timerStarted && o.s.t.run.deadline == DeadlineAt(q.t.run, now)
    else Passes(m, c, 0, o) && (o.code.Ok? && o.status == Running ==> o.s.t.run.delayElapsed)
  }

  lemma DelayStep(m: nat, q: State)
    requires Ready(m, q.t) && q.t.cfg.kind == Delay
    ensures DelayMeans(m, q, TickDelay(m, q))
  {
    hide ShapeOf, DelayChild, Passes, Gives, Settles, StartTimer, Report;
    DelayChildStep(m, q);
    TimerStarts(q);
    var armed, c := StartTimer(q), Call(q, Clock(q.t.cfg.path, Next(q).now));
    Unmoved(c);
    ReportGives(c, armed, Running);
    var r := SetRun(armed, armed.t.run.(delayElapsed := true, timerStarted := false, deadline := 0, timerBegan := 0));
    DelayChildStep(m, r);
    SamePasses(m, r, c, 0, DelayChild(m, r, 0));
  }

  lemma DelayChildStep(m: nat, q: State)
    requires |q.t.kids| > 0
    ensures var o := DelayChild(m, q, 0);
      Passes(m, q, 0, o) && (o.code.Ok? && o.status == Running ==> o.s.t.run.delayElapsed == q.t.run.delayElapsed)
  {
    hide TickNode, End, ShapeOf, TickKid, Passes;
    KidIsChild(m, q, 0);
    var k := TickKid(m, q, 0);
    if k.code.Ok? && k.status != Running { EndPasses(m, q, 0, DelayChild(m, q, 0)); }
    else { ChildPasses(m, q, 0, DelayChild(m, q, 0)); }
  }

  // ---- children in turn: Sequence, Fallback and the reactive pair -------------------------------------------

  function At(s: State, t: Tree): State { s.(t := t) }

  function Tick(m: nat, s: State): Out { TickNode(m, s) }

  function Stopped(s: State): State { ResetNode(s, false) }

  /** The children from `first` on are ticked one after another, each once; ks[j] is what the
      j-th of them answers. */
  ghost predicate InTurn(m: nat, q: State, first: nat, ks: seq<Out>) {
    && ks != [] && first + |ks| <= |q.t.kids|
    && ks[0] == Tick(m, At(q, q.t.kids[first]))
    && forall j :: 0 < j < |ks| ==> ks[j] == Tick(m, At(ks[j - 1].s, q.t.kids[first + j]))
  }

  /** Children are ticked in turn as long as they answer `go`. The first that does not decides;
      if all do, the answer is `go`. A child that yields is remembered. */
  ghost predicate ChildrenMean(m: nat, q: State, first: nat, go: Status, o: Out) {
    if first == |q.t.kids| then Gives(o, q, Ok, go)
    else exists ks :: InTurn(m, q, first, ks) && LastDecides(q, first, go, ks, o)
  }

  ghost predicate LastDecides(q: State, first: nat, go: Status, ks: seq<Out>, o: Out) {
    ks != [] &&
    var last := ks[|ks| - 1];
    && (forall j :: 0 <= j < |ks| - 1 ==> ks[j].code.Ok? && ks[j].status == go)
    && (last.code.Ok? && last.status == go ==> first + |ks| == |q.t.kids|)
    && Gives(o, last.s, last.code, last.status)
    && (last.code.Ok? && last.status == Running ==>
          var i := first + |ks| - 1;
          i < |o.s.t.kids| && o.s.t.run.cursor == i && o.s.t.kids[i] == last.s.t)
  }

  /** The first child decides. */
  lemma OneTurn(m: nat, q: State, i: nat, go: Status, k: Out, o: Out)
    requires i < |q.t.kids| && k == Tick(m, At(q, q.t.kids[i]))
    requires k.code.Ok? && k.status == go ==> i + 1 == |q.t.kids|
    requires Gives(o, k.s, k.code, k.status)
    requires k.code.Ok? && k.status == Running ==>
      i < |o.s.t.kids| && o.s.t.run.cursor == i && o.s.t.kids[i] == k.s.t
    ensures ChildrenMean(m, q, i, go, o)
  {
    hide TickNode, Gives;
    assert InTurn(m, q, i, [k]) && LastDecides(q, i, go, [k], o);
  }

  /** The first child answers `go`, and the rest decides. */
  lemma MoreTurns(m: nat, q: State, i: nat, go: Status, k: Out, c: State, o: Out)
    requires i + 1 < |q.t.kids| == |c.t.kids| && k == Tick(m, At(q, q.t.kids[i]))
    requires k.code.Ok? && k.status == go && go != Running
    requires c.script == k.s.script && c.trace == k.s.trace
    requires forall j :: i < j < |q.t.kids| ==> c.t.kids[j] == q.t.kids[j]
    requires ChildrenMean(m, c, i + 1, go, o)
    ensures ChildrenMean(m, q, i, go, o)
  {
    hide TickNode, Gives, LastDecides;
    var rest :| InTurn(m, c, i + 1, rest) && LastDecides(c, i + 1, go, rest, o);
    var ks := [k] + rest;
    forall j | 0 < j < |ks| ensures ks[j] == Tick(m, At(ks[j - 1].s, q.t.kids[i + j])) {
      var t := q.t.kids[i + j];
      assert ks[j] == rest[j - 1] && c.t.kids[i + 1 + (j - 1)] == t && At(k.s, t) == At(c, t);
      if j > 1 { assert ks[j - 1] == rest[j - 2]; }
    }
    assert InTurn(m, q, i, ks);
    DecidesMore(q, i, go, k, c, rest, o);
  }

  lemma DecidesMore(q: State, i: nat, go: Status, k: Out, c: State, rest: seq<Out>, o: Out)
    requires LastDecides(c, i + 1, go, rest, o) && |c.t.kids| == |q.t.kids|
    requires k.code.Ok? && k.status == go
    ensures LastDecides(q, i, go, [k] + rest, o)
  {
    hide Gives;
    var ks := [k] + rest;
    assert ks[|ks| - 1] == rest[|rest| - 1];
    assert forall j :: 0 < j < |ks| ==> ks[j] == rest[j - 1];
  }

  lemma {:induction false} LoopTurns(m: nat, s: State, i: nat, go: Status)
    requires i < |s.t.kids| && go != Running
    ensures ChildrenMean(m, s, i, go, ChildLoop(m, s, i, go))
    decreases |s.t.kids| - i
  {
    hide TickNode, End, ShapeOf, TickKid, Gives, ChildrenMean, Settles;
    KidIsChild(m, s, i);
    var k, o := Tick(m, At(s, s.t.kids[i])), TickKid(m, s, i);
    assert o == Child(m, s, i);
    var c := SetCursor(o.s, if i + 1 < |s.t.kids| then i + 1 else NO_CHILD);
    if o.code.Ok? && o.status == go && i + 1 < |s.t.kids| {
      LoopTurns(m, c, i + 1, go);
      MoreTurns(m, s, i, go, k, c, ChildLoop(m, s, i, go));
    } else {
      TurnEnds(m, s, i, go, k, o);
      OneTurn(m, s, i, go, k, ChildLoop(m, s, i, go));
    }
  }

  lemma TurnEnds(m: nat, s: State, i: nat, go: Status, k: Out, o: Out)
    requires i < |s.t.kids| && o == TickKid(m, s, i) && o == Child(m, s, i) && k == Tick(m, At(s, s.t.kids[i]))
    requires o.code.Ok? && o.status == go ==> i + 1 == |s.t.kids|
    requires go != Running
    ensures var r := ChildLoop(m, s, i, go);
      && Gives(r, k.s, k.code, k.status)
      && (k.code.Ok? && k.status == Running ==>
            i < |r.s.t.kids| && r.s.t.run.cursor == i && r.s.t.kids[i] == k.s.t)
  {
    hide TickNode, End, ShapeOf, TickKid, Settles;
    assert k.s.script == o.s.script && k.s.trace == o.s.trace && k.code == o.code && k.status == o.status;
    Unmoved(k.s);
    Unmoved(o.s);
    EndsGive(k.s, o.s, o.status);
    EndsGive(k.s, SetCursor(o.s, NO_CHILD), go);
  }

  lemma {:induction false} ReactiveTurns(m: nat, s: State, i: nat, go: Status)
    requires i < |s.t.kids| && go != Running
    ensures ChildrenMean(m, s, i, go, ReactiveLoop(m, s, i, go))
    decreases |s.t.kids| - i
  {
    hide TickNode, End, ShapeOf, TickKid, Gives, ChildrenMean, Settles;
    KidIsChild(m, s, i);
    var k, o := Tick(m, At(s, s.t.kids[i])), TickKid(m, s, i);
    assert o == Child(m, s, i);
    if o.code.Ok? && o.status == go && i + 1 < |s.t.kids| {
      ReactiveTurns(m, o.s, i + 1, go);
      MoreTurns(m, s, i, go, k, o.s, ReactiveLoop(m, s, i, go));
    } else {
      ReactiveEnds(m, s, i, go, k, o);
      OneTurn(m, s, i, go, k, ReactiveLoop(m, s, i, go));
    }
  }

  lemma ReactiveEnds(m: nat, s: State, i: nat, go: Status, k: Out, o: Out)
    requires i < |s.t.kids| && o == TickKid(m, s, i) && o == Child(m, s, i) && k == Tick(m, At(s, s.t.kids[i]))
    requires o.code.Ok? && o.status == go ==> i + 1 == |s.t.kids|
    requires go != Running
    ensures var r := ReactiveLoop(m, s, i, go);
      && Gives(r, k.s, k.code, k.status)
      && (k.code.Ok? && k.status == Running ==>
            i < |r.s.t.kids| && r.s.t.run.cursor == i && r.s.t.kids[i] == k.s.t)
  {
    hide TickNode, End, ShapeOf, TickKid, Settles, ResetLater;
    assert k.s.script == o.s.script && k.s.trace == o.s.trace && k.code == o.code && k.status == o.status;
    Unmoved(k.s);
    Unmoved(o.s);
    EndsGive(k.s, o.s, o.status);
    LaterSettles(o.s, i + 1);
    var r := ResetLater(o.s, i + 1);
    CursorSettles(r, i);
    SettlesTrans(k.s, r, SetCursor(r, i));
    ReportGives(k.s, SetCursor(r, i), Running);
  }

  // ---- one child: decorators, Retry, Repeat --------------------------------------------------------------------

  /** Inverter exchanges success and failure, the other two force one; RUNNING goes through. */
  ghost predicate DecoratorMeans(m: nat, q: State, o: Out)
    requires Ready(m, q.t) && q.t.cfg.kind in {Inverter, ForceSuccess, ForceFailure}
  {
    var k := Child(m, q, 0);
    && o.s.script == k.s.script && o.s.trace == k.s.trace && o.s.t.kids == k.s.t.kids && o.code == k.code
    && (k.code.Ok? && k.status == Running ==> o.status == Running)
    && (k.code.Ok? && k.status != Running ==>
          && (q.t.cfg.kind == ForceSuccess ==> o.status == Success)
          && (q.t.cfg.kind == ForceFailure ==> o.status == Failure)
          && (q.t.cfg.kind == Inverter ==> (o.status == Success <==> k.status == Failure) && o.status != Running))
  }

  lemma DecoratorStep(m: nat, q: State)
    requires Ready(m, q.t) && q.t.cfg.kind in {Inverter, ForceSuccess, ForceFailure}
    ensures DecoratorMeans(m, q, TickDecorator(m, q))
  {
    hide TickNode, ShapeOf, TickKid, InvNode;
    CursorRange(m, q.t);
    KidIsChild(m, q, 0);
    var k := TickKid(m, q, 0);
    assert k == Child(m, q, 0);
    hide Child;
  }

  /** The only child is ticked, and reset and ticked again, |ks| times. */
  ghost predicate Again(m: nat, q: State, ks: seq<Out>) {
    && ks != [] && |q.t.kids| == 1
    && ks[0] == Tick(m, At(q, q.t.kids[0]))
    && forall j :: 0 < j < |ks| ==> ks[j] == Tick(m, Stopped(ks[j - 1].s))
  }

  /** Rounds still to go. */
  function Left(run: Run): nat { if run.counter < run.limit then run.limit - run.counter else 0 }

  /** Retry ticks its child until it succeeds, and fails when all its tries have failed. */
  ghost predicate RetryMeans(m: nat, q: State, o: Out) {
    if Left(q.t.run) == 0 then Gives(o, q, Ok, Failure)
    else exists ks :: Again(m, q, ks) && RetryDecides(q, ks, o)
  }

  ghost predicate RetryDecides(q: State, ks: seq<Out>, o: Out) {
    ks != [] &&
    var last := ks[|ks| - 1];
    && |ks| <= Left(q.t.run)
    && (forall j :: 0 <= j < |ks| - 1 ==> ks[j].code.Ok? && ks[j].status == Failure)
    && (last.code.Ok? && last.status == Failure ==> |ks| == Left(q.t.run))
    && Gives(o, last.s, last.code, last.status)
    && (last.code.Ok? && last.status == Running ==>
          o.s.t.run.counter == q.t.run.counter + |ks| - 1 && o.s.t.kids == [last.s.t])
  }

  /** Repeat ticks its child until it has ended once a round, and then succeeds. */
  ghost predicate RepeatMeans(m: nat, q: State, o: Out) {
    if Left(q.t.run) == 0 then Gives(o, q, Ok, Success)
    else exists ks :: Again(m, q, ks) && RepeatDecides(q, ks, o)
  }

  ghost predicate RepeatDecides(q: State, ks: seq<Out>, o: Out) {
    ks != [] &&
    var last := ks[|ks| - 1];
    && |ks| <= Left(q.t.run)
    && (forall j :: 0 <= j < |ks| - 1 ==> ks[j].code.Ok? && ks[j].status != Running)
    && (last.code.Ok? && last.status != Running ==> |ks| == Left(q.t.run))
    && Gives(o, last.s, last.code, if last.status == Running then Running else Success)
    && (last.code.Ok? && last.status == Running ==>
          o.s.t.run.counter == q.t.run.counter + |ks| - 1 && o.s.t.kids == [last.s.t])
  }

  /** The child a round later. */
  lemma CycleIs(s: State)
    requires |s.t.kids| == 1
    ensures var c := NextCycle(s, 0);
      && |c.t.kids| == 1 && At(c, c.t.kids[0]) == Stopped(At(s, s.t.kids[0])) && c.t.cfg == s.t.cfg
      && c.t.run == s.t.run.(counter := s.t.run.counter + 1)
  {
    hide ResetNode, ShapeOf;
  }

  lemma AgainMore(m: nat, q: State, k: Out, c: State, rest: seq<Out>)
    requires |q.t.kids| == 1 && k == Tick(m, At(q, q.t.kids[0])) && Again(m, c, rest)
    requires At(c, c.t.kids[0]) == Stopped(k.s)
    ensures Again(m, q, [k] + rest)
  {
    hide TickNode, ResetNode;
    var ks := [k] + rest;
    forall j | 0 < j < |ks| ensures ks[j] == Tick(m, Stopped(ks[j - 1].s)) {
      assert ks[j] == rest[j - 1];
      if j > 1 { assert ks[j - 1] == rest[j - 2]; }
    }
  }

  lemma {:induction false} RetryStep(m: nat, s: State)
    requires |s.t.kids| == 1 && s.t.run.counter < s.t.run.limit
    ensures RetryMeans(m, s, RetryLoop(m, s, 0))
    decreases Left(s.t.run)
  {
    hide TickNode, End, ShapeOf, TickKid, Gives, Again, RetryDecides, NextCycle, Settles, ResetNode;
    KidIsChild(m, s, 0);
    var k, o, r := Tick(m, At(s, s.t.kids[0])), TickKid(m, s, 0), RetryLoop(m, s, 0);
    assert o == Child(m, s, 0) && o.s.t.run == s.t.run;
    CycleIs(o.s);
    var c := NextCycle(o.s, 0);
    if o.code.Ok? && o.status == Failure && Left(c.t.run) > 0 {
      RetryStep(m, c);
      var rest :| Again(m, c, rest) && RetryDecides(c, rest, r);
      AgainMore(m, s, k, c, rest);
      RetryMore(s, c, k, rest, r);
      assert RetryDecides(s, [k] + rest, r);
    } else {
      RetryEnds(m, s, k, o);
      AgainOnce(m, s, k);
      assert RetryDecides(s, [k], r);
    }
  }

  lemma AgainOnce(m: nat, q: State, k: Out)
    requires |q.t.kids| == 1 && k == Tick(m, At(q, q.t.kids[0]))
    ensures Again(m, q, [k])
  {
    hide TickNode, ResetNode;
  }

  lemma RetryMore(s: State, c: State, k: Out, rest: seq<Out>, r: Out)
    requires RetryDecides(c, rest, r) && c.t.run == s.t.run.(counter := s.t.run.counter + 1)
    requires k.code.Ok? && k.status == Failure && s.t.run.counter < s.t.run.limit
    ensures RetryDecides(s, [k] + rest, r)
  {
    hide Gives;
    var ks := [k] + rest;
    assert ks[|ks| - 1] == rest[|rest| - 1];
    assert forall j :: 0 < j < |ks| ==> ks[j] == rest[j - 1];
  }

  lemma RetryEnds(m: nat, s: State, k: Out, o: Out)
    requires |s.t.kids| == 1 && s.t.run.counter < s.t.run.limit
    requires o == TickKid(m, s, 0) && o == Child(m, s, 0) && k == Tick(m, At(s, s.t.kids[0]))
    requires o.code.Ok? && o.status == Failure ==> s.t.run.counter + 1 >= s.t.run.limit
    ensures RetryDecides(s, [k], RetryLoop(m, s, 0))
  {
    hide TickNode, End, ShapeOf, TickKid, NextCycle, Settles;
    assert k.s.script == o.s.script && k.s.trace == o.s.trace && k.code == o.code && k.status == o.status;
    assert o.s.t.run == s.t.run;
    Unmoved(k.s);
    Unmoved(o.s);
    EndsGive(k.s, o.s, Success);
    CycleGives(o.s, 0);
    EndsGive(k.s, NextCycle(o.s, 0), Failure);
  }

  lemma {:induction false} RepeatStep(m: nat, s: State)
    requires |s.t.kids| == 1
    ensures RepeatMeans(m, s, RepeatLoop(m, s, 0))
    decreases Left(s.t.run)
  {
    hide TickNode, End, ShapeOf, TickKid, Gives, Again, RepeatDecides, NextCycle, Settles, ResetNode;
    EndGives(s, Success);
    if Left(s.t.run) > 0 {
      KidIsChild(m, s, 0);
      var k, o, r := Tick(m, At(s, s.t.kids[0])), TickKid(m, s, 0), RepeatLoop(m, s, 0);
      assert o == Child(m, s, 0) && o.s.t.run == s.t.run;
      CycleIs(o.s);
      var c := NextCycle(o.s, 0);
      if o.code.Ok? && o.status != Running && Left(c.t.run) > 0 {
        RepeatStep(m, c);
        var rest :| Again(m, c, rest) && RepeatDecides(c, rest, r);
        AgainMore(m, s, k, c, rest);
        RepeatMore(s, c, k, rest, r);
        assert RepeatDecides(s, [k] + rest, r);
      } else {
        RepeatEnds(m, s, k, o);
        AgainOnce(m, s, k);
        assert RepeatDecides(s, [k], r);
      }
    }
  }

  lemma RepeatMore(s: State, c: State, k: Out, rest: seq<Out>, r: Out)
    requires RepeatDecides(c, rest, r) && c.t.run == s.t.run.(counter := s.t.run.counter + 1)
    requires k.code.Ok? && k.status != Running && s.t.run.counter < s.t.run.limit
    ensures RepeatDecides(s, [k] + rest, r)
  {
    hide Gives;
    var ks := [k] + rest;
    assert ks[|ks| - 1] == rest[|rest| - 1];
    assert forall j :: 0 < j < |ks| ==> ks[j] == rest[j - 1];
  }

  lemma RepeatEnds(m: nat, s: State, k: Out, o: Out)
    requires |s.t.kids| == 1 && s.t.run.counter < s.t.run.limit
    requires o == TickKid(m, s, 0) && o == Child(m, s, 0) && k == Tick(m, At(s, s.t.kids[0]))
    requires o.code.Ok? && o.status != Running ==> s.t.run.counter + 1 >= s.t.run.limit
    ensures RepeatDecides(s, [k], RepeatLoop(m, s, 0))
  {
    hide TickNode, End, ShapeOf, TickKid, NextCycle, Settles;
    assert k.s.script == o.s.script && k.s.trace == o.s.trace && k.code == o.code && k.status == o.status;
    assert o.s.t.run == s.t.run;
    Unmoved(k.s);
    Unmoved(o.s);
    CycleGives(o.s, 0);
    EndsGive(k.s, NextCycle(o.s, 0), Success);
  }

  // ---- adapters: Pipeline, ConsumeQueue ------------------------------------------------------------------------

  /** Pipeline: a stage is prepared, its child ticked until it ends, and completed. A failure or
      an error ends the pipeline; after a success it goes on as one tick at the next stage. */
  ghost predicate PipelineMeans(m: nat, q: State, o: Out)
    requires Ready(m, q.t) && q.t.cfg.kind == Pipeline
  {
    var i, a := q.t.run.counter, Next(q);
    var p := if q.t.run.prepared then q else PreparedBy(q, Prepare(q.t.cfg.path, i, a.code));
    if i >= |q.t.kids| then Gives(o, q, Ok, Success)
    else if !q.t.run.prepared && !a.code.Ok? then Gives(o, p, a.code, Failure)
    else
      var k := Child(m, p, i);
      if !k.code.Ok? then Gives(o, k.s, k.code, Failure)
      else if k.status == Running then
        Gives(o, k.s, Ok, Running) && o.s.t.run.cursor == i && o.s.t.run.prepared && o.s.t.run.counter == i
      else StageMeans(m, k, i, o)
  }

  function PreparedBy(q: State, e: Event): State {
    Call(At(q, q.t.(run := q.t.run.(prepared := true))), e)
  }

  /** The end of stage i, which answered k. */
  ghost predicate StageMeans(m: nat, k: Out, i: nat, o: Out) {
    var b := Next(k.s);
    var c := Call(k.s, Complete(k.s.t.cfg.path, i, k.status, b.code));
    if !b.code.Ok? then Gives(o, c, b.code, Failure)
    else if k.status == Failure then Gives(o, c, Ok, Failure)
    else Agrees(o, Tick(m, At(c, c.t.(run := c.t.run.(cursor := NO_CHILD, prepared := false, counter := i + 1)))))
  }

  /** The same outcome, but for the evaluated mark. */
  ghost predicate Agrees(o: Out, d: Out) {
    && o.code == d.code && o.status == d.status && o.s.script == d.s.script && o.s.trace == d.s.trace
    && o.s.t.kids == d.s.t.kids && o.s.t.cfg == d.s.t.cfg
    && o.s.t.run == d.s.t.run.(evaluated := o.s.t.run.evaluated)
  }

  lemma PipelineStep(m: nat, q: State)
    requires Ready(m, q.t) && q.t.cfg.kind == Pipeline && !q.t.run.evaluated
    ensures PipelineMeans(m, q, TickPipeline(m, q))
  {
    hide Child, Gives, Settles, End, Fail, ShapeOf, TickNode, PipelineChild, StageMeans, InvNode, Call;
    EndGives(q, Success);
    PipelineCursor(m, q.t);
    var i, a := q.t.run.counter, Next(q);
    if i < |q.t.kids| {
      var p := if q.t.run.prepared then q else PreparedBy(q, Prepare(q.t.cfg.path, i, a.code));
      PreparedParts(q, Prepare(q.t.cfg.path, i, a.code));
      FailGives(p, a.code);
      PipelineChildStep(m, p, i);
    }
  }

  lemma PreparedParts(q: State, e: Event)
    ensures var p := PreparedBy(q, e);
      p.t.kids == q.t.kids && p.t.cfg == q.t.cfg && p.t.run == q.t.run.(prepared := true)
    ensures PreparedBy(q, e) == Call(SetRun(q, q.t.run.(prepared := true)), e)
  {
    hide ShapeOf;
  }

  lemma PipelineCursor(m: nat, t: Tree)
    requires InvNode(m, t) && t.cfg.kind == Pipeline
    ensures t.run.counter <= |t.kids|
    ensures t.run.cursor >= 0 ==> t.run.cursor == t.run.counter < |t.kids|
    ensures t.run.prepared ==> t.run.cursor >= 0
  {
  }

  lemma PipelineChildStep(m: nat, s: State, i: nat)
    requires i < |s.t.kids| && i == s.t.run.counter && s.t.run.prepared && !s.t.run.evaluated
    requires s.t.cfg.kind == Pipeline && s.t.cfg.resolver.NoResolver?
    ensures var o, k := PipelineChild(m, s, i), Child(m, s, i);
      if !k.code.Ok? then Gives(o, k.s, k.code, Failure)
      else if k.status == Running then
        Gives(o, k.s, Ok, Running) && o.s.t.run.cursor == i && o.s.t.run.prepared && o.s.t.run.counter == i
      else StageMeans(m, k, i, o)
  {
    hide Gives, Settles, Fail, ShapeOf, TickNode, PipelineComplete, StageMeans, TickKid;
    KidIsChild(m, s, i);
    var k := TickKid(m, s, i);
    assert k == Child(m, s, i) && k.s.t.run == s.t.run && k.s.t.cfg == s.t.cfg;
    hide Child;
    FailGives(k.s, k.code);
    CursorSettles(k.s, i);
    ReportGives(k.s, SetCursor(k.s, i), Running);
    if k.code.Ok? && k.status != Running { StageStep(m, k, i); }
  }

  lemma StageStep(m: nat, k: Out, i: nat)
    requires i < |k.s.t.kids| && i == k.s.t.run.counter && !k.s.t.run.evaluated
    requires k.s.t.cfg.kind == Pipeline && k.s.t.cfg.resolver.NoResolver? && k.status != Running
    ensures StageMeans(m, k, i, PipelineComplete(m, k.s, k.status))
  {
    hide Settles, Gives, End, Fail, ShapeOf, TickNode, TickPipeline, Agrees, Tick;
    var b := Next(k.s);
    var e := Complete(k.s.t.cfg.path, i, k.status, b.code);
    var c := Call(k.s, e);
    FailGives(c, b.code);
    Unmoved(c);
    EndsGive(c, Completed(k.s, e, i), Failure);
    var x := Completed(k.s, e, i + 1);
    assert x == At(c, c.t.(run := c.t.run.(cursor := NO_CHILD, prepared := false, counter := i + 1)));
    NextStage(m, x);
  }

  /** Going on at the next stage is a tick there. */
  lemma NextStage(m: nat, x: State)
    requires x.t.cfg.kind == Pipeline && x.t.cfg.resolver.NoResolver? && !x.t.run.evaluated
    ensures Agrees(TickPipeline(m, x), Tick(m, x))
  {
    hide TickPipeline, TickNode, Dispatch, ShapeOf;
    Marked(m, x);
    assert SetRun(x, x.t.run.(evaluated := false)) == x;
    DispatchesPipeline(m, x);
  }

  lemma DispatchesPipeline(m: nat, x: State)
    requires x.t.cfg.kind == Pipeline
    ensures Dispatch(m, x) == TickPipeline(m, x)
  {
    hide TickPipeline, ShapeOf;
  }

  /** ConsumeQueue: an item is begun, the child ticked until it ends, and the item finished; an empty
      queue and a failed item fail. With more items to come the node yields, without an open item. */
  ghost predicate QueueMeans(m: nat, q: State, o: Out)
    requires Ready(m, q.t) && q.t.cfg.kind == ConsumeQueue
  {
    var a := Next(q);
    var p := if q.t.run.prepared then q else PreparedBy(q, Begin(q.t.cfg.path, a.code, a.flag));
    if !q.t.run.prepared && !a.code.Ok? then Gives(o, p, a.code, Failure)
    else if !q.t.run.prepared && !a.flag then Gives(o, p, Ok, Failure)
    else
      var k := Child(m, p, 0);
      if !k.code.Ok? || k.status == Failure then Gives(o, k.s, k.code, Failure)
      else if k.status == Running then Gives(o, k.s, Ok, Running) && o.s.t.run.prepared && o.s.t.run.cursor == 0
      else ItemMeans(k, o)
  }

  ghost predicate ItemMeans(k: Out, o: Out) {
    var b := Next(k.s);
    var c := Call(k.s, Finish(k.s.t.cfg.path, b.code, b.flag));
    if !b.code.Ok? then Gives(o, c, b.code, Failure)
    else Gives(o, c, Ok, if b.flag then Running else Success) && (b.flag ==> !o.s.t.run.prepared)
  }

  lemma QueueStep(m: nat, q: State)
    requires Ready(m, q.t) && q.t.cfg.kind == ConsumeQueue
    ensures QueueMeans(m, q, TickQueue(m, q))
  {
    hide Child, Gives, Settles, End, Fail, ShapeOf, TickNode, QueueItem, InvNode, Call, ItemMeans;
    var a := Next(q);
    var p := if q.t.run.prepared then q else PreparedBy(q, Begin(q.t.cfg.path, a.code, a.flag));
    PreparedParts(q, Begin(q.t.cfg.path, a.code, a.flag));
    FailGives(p, a.code);
    var empty := SetRun(p, p.t.run.(prepared := false));
    Unmoved(p);
    EndsGive(p, empty, Failure);
    ItemStep(m, p);
  }

  lemma ItemStep(m: nat, s: State)
    requires |s.t.kids| == 1 && s.t.run.prepared
    ensures var o, k := QueueItem(m, s), Child(m, s, 0);
      if !k.code.Ok? || k.status == Failure then Gives(o, k.s, k.code, Failure)
      else if k.status == Running then Gives(o, k.s, Ok, Running) && o.s.t.run.prepared && o.s.t.run.cursor == 0
      else ItemMeans(k, o)
  {
    hide Gives, Settles, End, Fail, ShapeOf, TickNode, FinishItem, TickKid, ItemMeans;
    KidIsChild(m, s, 0);
    var k := TickKid(m, s, 0);
    assert k == Child(m, s, 0) && k.s.t.run == s.t.run;
    hide Child;
    FailGives(k.s, k.code);
    EndGives(k.s, Failure);
    CursorSettles(k.s, 0);
    ReportGives(k.s, SetCursor(k.s, 0), Running);
    FinishStep(k);
  }

  lemma FinishStep(k: Out)
    ensures ItemMeans(k, FinishItem(k.s))
  {
    hide Gives, Settles, End, Fail, ShapeOf, ResetKid;
    var b := Next(k.s);
    var c := Call(k.s, Finish(k.s.t.cfg.path, b.code, b.flag));
    FailGives(c, b.code);
    var closed := SetRun(c, k.s.t.run.(prepared := false));
    Unmoved(c);
    EndsGive(c, closed, Success);
    KidSettles(closed, 0);
    var r := ResetKid(closed, 0, false);
    SettlesTrans(c, closed, r);
    CursorSettles(r, NO_CHILD);
    SettlesTrans(c, r, SetCursor(r, NO_CHILD));
    ReportGives(c, SetCursor(r, NO_CHILD), Running);
  }

  // ---- all kinds --------------------------------------------------------------------------------------------------

  /** A leaf is asked once, and an answer that is no status is an error. */
  ghost predicate LeafMeans(q: State, o: Out) {
    var a := Next(q);
    && o.s.script == (if q.script == [] then [] else q.script[1..])
    && o.s.trace == q.trace + [Handler(q.t.cfg.path, a.status)]
    && (match a.status
        case None => o.code == EInval
        case Some(st) => o.code.Ok? && o.status == st && (o.s.t.run.running <==> st == Running))
  }

  /** What node q does in a tick that ends with o. (BtTheorems.ParallelTick speaks of Parallel.) */
  ghost predicate KindMeans(m: nat, q: State, o: Out)
    requires Ready(m, q.t)
  {
    match q.t.cfg.kind
    case Leaf => LeafMeans(q, o)
    case Sequence => ChildrenMean(m, q, Current(q.t), Success, o)
    case Fallback => ChildrenMean(m, q, Current(q.t), Failure, o)
    case ReactiveSequence => ChildrenMean(m, q, 0, Success, o)
    case ReactiveFallback => ChildrenMean(m, q, 0, Failure, o)
    case Inverter => DecoratorMeans(m, q, o)
    case ForceSuccess => DecoratorMeans(m, q, o)
    case ForceFailure => DecoratorMeans(m, q, o)
    case Retry => RetryMeans(m, q, o)
    case Repeat => RepeatMeans(m, q, o)
    case Timeout => TimeoutMeans(m, q, o)
    case Delay => DelayMeans(m, q, o)
    case RunOnce => RunOnceMeans(m, q, o)
    case IfThenElse => GuardedMeans(m, q, o)
    case Precondition => GuardedMeans(m, q, o)
    case WhileDo => WhileMeans(m, q, o)
    case Switch => SwitchMeans(m, q, o)
    case KeepRunning => KeepRunningMeans(m, q, o)
    case Pipeline => PipelineMeans(m, q, o)
    case EntryUpdated => EntryMeans(m, q, o)
    case ConsumeQueue => QueueMeans(m, q, o)
    case Parallel => true
  }

  lemma KindStep(m: nat, q: State)
    requires Ready(m, q.t) && !q.t.run.evaluated
    ensures KindMeans(m, q, Dispatch(m, q))
  {
    hide LeafMeans, ChildrenMean, DecoratorMeans, TimeoutMeans, DelayMeans, RunOnceMeans, GuardedMeans, WhileMeans,
      SwitchMeans, KeepRunningMeans, PipelineMeans, EntryMeans, QueueMeans, RetryMeans, RepeatMeans, Dispatch, Ready;
    if q.t.cfg.kind in {Sequence, Fallback, ReactiveSequence, ReactiveFallback} { TurnsStep(m, q); }
    else if q.t.cfg.kind in {Leaf, Inverter, ForceSuccess, ForceFailure, Retry, Repeat} { SingleStep(m, q); }
    else if q.t.cfg.kind in {Timeout, Delay, RunOnce, EntryUpdated, Pipeline, ConsumeQueue} { CallbackStep(m, q); }
    else { ControlStep(m, q); }
  }

  lemma TurnsStep(m: nat, q: State)
    requires Ready(m, q.t) && q.t.cfg.kind in {Sequence, Fallback, ReactiveSequence, ReactiveFallback}
    ensures var go := if q.t.cfg.kind in {Sequence, ReactiveSequence} then Success else Failure;
      ChildrenMean(m, q, if q.t.cfg.kind in {Sequence, Fallback} then Current(q.t) else 0, go, Dispatch(m, q))
  {
    hide ChildrenMean, ChildLoop, ReactiveLoop, End, InvNode, Dispatch;
    CursorRange(m, q.t);
    DispatchesTurns(m, q);
    var go := if q.t.cfg.kind in {Sequence, ReactiveSequence} then Success else Failure;
    if q.t.kids == [] { NoTurn(m, q, go); }
    else if q.t.cfg.kind in {Sequence, Fallback} { LoopTurns(m, q, Current(q.t), go); }
    else { ReactiveTurns(m, q, 0, go); }
  }

  lemma DispatchesTurns(m: nat, q: State)
    requires q.t.kids != [] || q.t.run.cursor < 0
    ensures var d := Dispatch(m, q);
      match q.t.cfg.kind
      case Sequence => d == if q.t.kids == [] then End(q, Success) else ChildLoop(m, q, Current(q.t), Success)
      case Fallback => d == if q.t.kids == [] then End(q, Failure) else ChildLoop(m, q, Current(q.t), Failure)
      case ReactiveSequence => q.t.kids != [] ==> d == ReactiveLoop(m, q, 0, Success)
      case ReactiveFallback => q.t.kids != [] ==> d == ReactiveLoop(m, q, 0, Failure)
      case _ => true
  {
    hide End, ReactiveLoop, ShapeOf, TickKid;
  }

  lemma SingleStep(m: nat, q: State)
    requires Ready(m, q.t) && q.t.cfg.kind in {Leaf, Inverter, ForceSuccess, ForceFailure, Retry, Repeat}
    ensures KindMeans(m, q, Dispatch(m, q))
  {
    hide LeafMeans, DecoratorMeans, TickLeaf, TickDecorator, RetryLoop, End, Gives, Again, RetryDecides,
      RepeatDecides, InvNode;
    CursorRange(m, q.t);
    match q.t.cfg.kind
    case Leaf => LeafStep(q);
    case Retry => if Left(q.t.run) > 0 { RetryStep(m, q); } else { EndGives(q, Failure); }
    case Repeat => RepeatStep(m, q); EndGives(q, Success);
    case _ => DecoratorStep(m, q);
  }

  lemma CallbackStep(m: nat, q: State)
    requires Ready(m, q.t) && !q.t.run.evaluated
    requires q.t.cfg.kind in {Timeout, Delay, RunOnce, EntryUpdated, Pipeline, ConsumeQueue}
    ensures KindMeans(m, q, Dispatch(m, q))
  {
    hide TickTimeout, TickDelay, TickRunOnce, TickPipeline, TickEntry, TickQueue, TimeoutMeans, DelayMeans,
      RunOnceMeans, PipelineMeans, EntryMeans, QueueMeans, InvNode;
    match q.t.cfg.kind
    case Timeout => TimeoutStep(m, q);
    case Delay => DelayStep(m, q);
    case RunOnce => RunOnceStep(m, q);
    case Pipeline => PipelineStep(m, q);
    case EntryUpdated => EntryStep(m, q);
    case ConsumeQueue => QueueStep(m, q);
  }

  lemma ControlStep(m: nat, q: State)
    requires Ready(m, q.t)
    requires !(q.t.cfg.kind in {Sequence, Fallback, ReactiveSequence, ReactiveFallback})
    requires !(q.t.cfg.kind in {Leaf, Inverter, ForceSuccess, ForceFailure, Retry, Repeat})
    requires !(q.t.cfg.kind in {Timeout, Delay, RunOnce, EntryUpdated, Pipeline, ConsumeQueue})
    ensures KindMeans(m, q, Dispatch(m, q))
  {
    hide TickGuarded, TickWhile, TickSwitch, TickKeepRunning, TickParallel, GuardedMeans, WhileMeans, SwitchMeans,
      KeepRunningMeans, InvNode;
    match q.t.cfg.kind
    case IfThenElse => GuardedStep(m, q);
    case Precondition => GuardedStep(m, q);
    case WhileDo => WhileStep(m, q);
    case Switch => SwitchStep(m, q);
    case KeepRunning => KeepRunningStep(m, q);
    case Parallel =>
  }

  lemma LeafStep(q: State)
    ensures LeafMeans(q, TickLeaf(q))
  {
    hide ShapeOf;
  }

  lemma NoTurn(m: nat, q: State, go: Status)
    requires q.t.kids == []
    ensures ChildrenMean(m, q, 0, go, End(q, go))
  {
    hide End;
    EndGives(q, go);
  }

  /** Outcomes that agree are described in the same way. */
  lemma GivesAgree(o: Out, d: Out)
    requires Agrees(o, d)
    ensures forall q, code, st :: Gives(d, q, code, st) ==> Gives(o, q, code, st)
  {
  }

  lemma PassesAgree(m: nat, o: Out, d: Out)
    requires Agrees(o, d)
    ensures forall q, i: nat :: Passes(m, q, i, d) ==> Passes(m, q, i, o)
  {
    hide TickNode, Settles;
    forall q, i: nat | Passes(m, q, i, d) ensures Passes(m, q, i, o) {
      var r: State :| Settles(q, r) && r.t == q.t.kids[i] &&
        var k := TickNode(m, r);
        Gives(d, k.s, k.code, k.status) && (k.code.Ok? && k.status == Running ==> d.s.t.kids[i] == k.s.t);
      GivesAgree(o, d);
    }
  }

  lemma LoopsAgree(m: nat, q: State, o: Out, d: Out)
    requires Agrees(o, d)
    ensures forall i, go :: ChildrenMean(m, q, i, go, d) ==> ChildrenMean(m, q, i, go, o)
    ensures RetryMeans(m, q, d) ==> RetryMeans(m, q, o)
    ensures RepeatMeans(m, q, d) ==> RepeatMeans(m, q, o)
  {
    hide Gives, InTurn, Again;
    GivesAgree(o, d);
    forall i, go | ChildrenMean(m, q, i, go, d) ensures ChildrenMean(m, q, i, go, o) {
      if i != |q.t.kids| {
        var ks :| InTurn(m, q, i, ks) && LastDecides(q, i, go, ks, d);
        assert LastDecides(q, i, go, ks, o);
      }
    }
    if RetryMeans(m, q, d) && Left(q.t.run) > 0 {
      var ks :| Again(m, q, ks) && RetryDecides(q, ks, d);
      assert RetryDecides(q, ks, o);
    }
    if RepeatMeans(m, q, d) && Left(q.t.run) > 0 {
      var ks :| Again(m, q, ks) && RepeatDecides(q, ks, d);
      assert RepeatDecides(q, ks, o);
    }
  }

  lemma KindsAgree(m: nat, q: State, o: Out, d: Out)
    requires Ready(m, q.t) && Agrees(o, d) && KindMeans(m, q, d)
    ensures KindMeans(m, q, o)
  {
    hide InvNode, Gives, Passes, ChildrenMean, RetryMeans, RepeatMeans, Child, Guard, Call, Next, Settles,
      TimeoutMeans, DelayMeans, RunOnceMeans, EntryMeans, PipelineMeans, QueueMeans, GuardedMeans, WhileMeans,
      KeepRunningMeans, SwitchMeans, DecoratorMeans, Agrees, Ready, LeafMeans;
    GivesAgree(o, d);
    PassesAgree(m, o, d);
    LoopsAgree(m, q, o, d);
    if q.t.cfg.kind in {Timeout, Delay, RunOnce, EntryUpdated} { CallbacksAgree(m, q, o, d); }
    else if q.t.cfg.kind in {Pipeline, ConsumeQueue} { AdaptersAgree(m, q, o, d); }
    else if q.t.cfg.kind in {WhileDo, KeepRunning, IfThenElse, Precondition, Switch} { ControlsAgree(m, q, o, d); }
    else if q.t.cfg.kind in {Leaf, Inverter, ForceSuccess, ForceFailure} { SinglesAgree(m, q, o, d); }
  }

  lemma SinglesAgree(m: nat, q: State, o: Out, d: Out)
    requires Ready(m, q.t) && Agrees(o, d) && KindMeans(m, q, d)
    requires q.t.cfg.kind in {Leaf, Inverter, ForceSuccess, ForceFailure}
    ensures KindMeans(m, q, o)
  {
    hide InvNode, Child, Next, Ready;
  }

  lemma CallbacksAgree(m: nat, q: State, o: Out, d: Out)
    requires Ready(m, q.t) && Agrees(o, d) && KindMeans(m, q, d)
    requires q.t.cfg.kind in {Timeout, Delay, RunOnce, EntryUpdated}
    ensures KindMeans(m, q, o)
  {
    hide InvNode, Gives, Passes, Child, Call, Next, ResetNode;
    GivesAgree(o, d);
    PassesAgree(m, o, d);
  }

  lemma AdaptersAgree(m: nat, q: State, o: Out, d: Out)
    requires Ready(m, q.t) && Agrees(o, d) && KindMeans(m, q, d)
    requires q.t.cfg.kind in {Pipeline, ConsumeQueue}
    ensures KindMeans(m, q, o)
  {
    hide InvNode, Gives, Child, Call, Next, Tick, PreparedBy, At;
    GivesAgree(o, d);
  }

  lemma ControlsAgree(m: nat, q: State, o: Out, d: Out)
    requires Ready(m, q.t) && Agrees(o, d) && KindMeans(m, q, d)
    requires q.t.cfg.kind in {WhileDo, KeepRunning, IfThenElse, Precondition, Switch}
    ensures KindMeans(m, q, o)
  {
    hide InvNode, Gives, Passes, Child, Guard, Call, Next;
    GivesAgree(o, d);
    PassesAgree(m, o, d);
  }

  /** What one tick of any node means, in terms of the ticks of its children: for every kind, any
      subtrees, any answers and any state of a valid tree between ticks. */
  lemma NodeMeans(m: nat, s: State)
    requires Ready(m, s.t) && Resolved(m, s).code.Ok?
    ensures Ready(m, Asked(m, s).t) && KindMeans(m, Asked(m, s), TickNode(m, s))
  {
    hide KindMeans, Dispatch, ShapeOf, TickNode, Agrees;
    ParametersReady(m, s);
    KindStep(m, Asked(m, s));
    TickAgrees(m, s);
    KindsAgree(m, Asked(m, s), TickNode(m, s), Dispatch(m, Asked(m, s)));
  }

  lemma TickAgrees(m: nat, s: State)
    requires Resolved(m, s).code.Ok?
    ensures Agrees(TickNode(m, s), Dispatch(m, Asked(m, s)))
  {
    hide Dispatch, ShapeOf;
  }

  lemma ParametersReady(m: nat, s: State)
    requires Ready(m, s.t) && Resolved(m, s).code.Ok?
    ensures Ready(m, Asked(m, s).t) && !Asked(m, s).t.run.evaluated
  {
    hide Resolved, Idle, ShapeOf;
    ParametersMean(m, s);
    ParametersRun(m, s);
  }

  /** Asking for parameters changes parameters only. */
  lemma ParametersRun(m: nat, s: State)
    requires Resolved(m, s).code.Ok?
    ensures var q := Asked(m, s).t;
      q.kids == s.t.kids && q.cfg == s.t.cfg &&
      q.run == s.t.run.(limit := q.run.limit, duration := q.run.duration, deadline := q.run.deadline,
                        evaluated := false)
  {
    hide ShapeOf;
    ParametersMean(m, s);
  }

  /** A RunOnce whose child has ended gives the same status from then on and asks nobody. */
  lemma RunOnceCached(m: nat, s: State, answers: seq<Answer>)
    requires s.t.cfg.kind == RunOnce && s.t.cfg.resolver.NoResolver? && Ready(m, s.t)
    requires var o := TickNode(m, s); o.code.Ok? && o.status != Running
    ensures var o := TickNode(m, s);
      TickNode(m, o.s.(script := answers)) == Out(o.s.(script := answers), Ok, o.status)
  {
    hide TickNode, Dispatch, Ready, ShapeOf;
    ParametersMean(m, s);
    NodeMeans(m, s);
    OnceAfter(m, s);
    var q := TickNode(m, s).s.(script := answers);
    Marked(m, s);
    Marked(m, q);
    DispatchesCached(m, SetRun(q, q.t.run.(evaluated := false)));
  }

  lemma OnceAfter(m: nat, s: State)
    requires s.t.cfg.kind == RunOnce && Ready(m, s.t) && Resolved(m, s).code.Ok?
    ensures var o := TickNode(m, s);
      o.code.Ok? ==>
        && o.s.t.run.evaluated && o.s.t.run.last == o.status
        && (o.s.t.run.runOnceComplete <==> s.t.run.runOnceComplete || o.status != Running)
  {
    hide Dispatch, InvNode, ShapeOf, Passes, Resolved, TickImpl;
    NodeMeans(m, s);
    ParametersRun(m, s);
  }

  lemma DispatchesCached(m: nat, q: State)
    requires q.t.cfg.kind == RunOnce && q.t.run.runOnceComplete
    ensures Dispatch(m, q) == Out(q, Ok, q.t.run.last)
  {
    hide TickKid, ShapeOf;
  }

  // ---- reachable trees --------------------------------------------------------------------------------------------

  lemma {:induction false} ReadyBelow(m: nat, maxDepth: nat, t: Tree, p: Path)
    requires Inv(m, t) && Sane(ShapeOf(t)) && ValidTree(m, maxDepth, t) && Lookup(t, p).Some?
    ensures Ready(m, Lookup(t, p).value)
  {
    hide InvNode;
    if t.cfg.path == p { SaneRoot(t); } else {
      var i := KidToward(t.kids, p);
      SaneKid(t, i);
      ReadyBelow(m, maxDepth, t.kids[i], p);
    }
  }

  lemma SaneRoot(t: Tree)
    requires Sane(ShapeOf(t))
    ensures t.cfg.resolver.LimitResolver? ==> IsLoop(t.cfg.kind)
    ensures t.cfg.resolver.DurationResolver? ==> IsTimed(t.cfg.kind)
  {
  }

  /** In every reachable state of a valid tree, every node means what its kind says when it is
      ticked next, whatever its host then answers. */
  lemma ReachableKinds(m: nat, maxNodes: nat, maxDepth: nat, script: seq<Answer>, ops: seq<Op>,
                       p: Path, later: seq<Answer>)
    ensures var x := Perform(Empty(m, maxNodes, maxDepth, script), ops);
      x.root.Some? && ValidTree(x.m, x.maxDepth, x.root.value) && Lookup(x.root.value, p).Some? ==>
        var s := State(later, x.trace, Lookup(x.root.value, p).value);
        if Resolved(x.m, s).code.Ok? then
          Ready(x.m, Asked(x.m, s).t) && KindMeans(x.m, Asked(x.m, s), TickNode(x.m, s))
        else TickNode(x.m, s) == Resolved(x.m, s)
  {
    var x := Perform(Empty(m, maxNodes, maxDepth, script), ops);
    RunHealthy(Empty(m, maxNodes, maxDepth, script), ops);
    hide Perform, Inv, Sane, Replay, Open, Mild, ValidTree, Lookup, Ready, KindMeans, TickNode, Resolved, Asked,
      IdsUpTo;
    if x.root.Some? && ValidTree(x.m, x.maxDepth, x.root.value) && Lookup(x.root.value, p).Some? {
      var s := State(later, x.trace, Lookup(x.root.value, p).value);
      ReadyBelow(x.m, x.maxDepth, x.root.value, p);
      if Resolved(x.m, s).code.Ok? { NodeMeans(x.m, s); } else { UnresolvedStops(x.m, s); }
    }
  }
}
