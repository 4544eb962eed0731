/** What one reset and one tick of a node do, as functions on tree values. */
module BtSemantics {
  import opened BtTypes

  /** Host answers still to come (padded by DEFAULT_ANSWER), actions so far, and a tree. */
  datatype State = State(script: seq<Answer>, trace: seq<Event>, t: Tree)

  /** Outcome of a tick; `status` means something only when the code is Ok. */
  datatype Out = Out(s: State, code: Code, status: Status)

  // ---- elementary steps -------------------------------------------------------

  function Next(s: State): Answer {
    if s.script == [] then DEFAULT_ANSWER else s.script[0]
  }

  /** A callback that returns something: consumes one answer. */
  function Call(s: State, e: Event): State {
    State(if s.script == [] then [] else s.script[1..], s.trace + [e], s.t)
  }

  /** A void callback, or a silent lifecycle action. */
  function Note(s: State, e: Event): State {
    s.(trace := s.trace + [e])
  }

  function SetRun(s: State, run: Run): (r: State)
    ensures Alike(r.t, s.t)
  {
    SameShape(s.t.(run := run), s.t);
    s.(t := s.t.(run := run))
  }

  function SetLast(s: State, st: Status): (r: State)
    ensures Alike(r.t, s.t)
  {
    SetRun(s, s.t.run.(last := st))
  }

  function SetCursor(s: State, c: int): (r: State)
    ensures Alike(r.t, s.t)
  {
    SetRun(s, s.t.run.(cursor := c))
  }

  function Focus(s: State, i: nat): State
    requires i < |s.t.kids|
  {
    s.(t := s.t.kids[i])
  }

  function Unfocus(parent: Tree, i: nat, s: State): State
    requires i < |parent.kids|
  {
    s.(t := parent.(kids := parent.kids[i := s.t]))
  }

  function SetBranch(s: State, i: nat, b: bool): (r: State)
    requires i < |s.t.kids|
    ensures Alike(r.t, s.t) && r.script == s.script && r.t.run == s.t.run
  {
    var kid := s.t.kids[i];
    var r := Unfocus(s.t, i, s.(t := kid.(run := kid.run.(branchPrepared := b))));
    SameShapeKid(s.t, i, r.t.kids[i]);
    r
  }

  lemma SameShape(t: Tree, u: Tree)
    requires t.cfg == u.cfg && |t.kids| == |u.kids|
    requires forall i :: 0 <= i < |t.kids| ==> ShapeOf(t.kids[i]) == ShapeOf(u.kids[i])
    ensures ShapeOf(t) == ShapeOf(u)
  {
    assert ShapeOf(t).kids == ShapeOf(u).kids;
  }

  lemma SameShapeKid(t: Tree, i: nat, c: Tree)
    requires i < |t.kids|
    requires ShapeOf(c) == ShapeOf(t.kids[i])
    ensures ShapeOf(t.(kids := t.kids[i := c])) == ShapeOf(t)
  {
    SameShape(t.(kids := t.kids[i := c]), t);
  }

  // ---- reset ------------------------------------------------------------------

  /** The run state a reset leaves behind. `clear` also drops the RunOnce and
      EntryUpdated caches; limit, duration and the branch marker survive. */
  function ClearedRun(t: Tree, clear: bool): Run {
    var keepOnce := !clear && t.cfg.kind == RunOnce && t.run.runOnceComplete;
    var keepEntry := !clear && t.cfg.kind == EntryUpdated && t.run.observed;
    Run(if keepOnce || keepEntry then t.run.last else Failure,
        NO_CHILD, 0, t.run.limit, t.run.duration, 0, 0, false, false, false,
        keepOnce, keepEntry, false, t.run.branchPrepared,
        t.cfg.kind != Leaf && t.run.running)
  }

  /** Halts a running leaf and clears the node's own run state. */
  function Clear(s: State, clear: bool): (r: State)
    ensures Alike(r.t, s.t) && r.script == s.script && r.t.run == ClearedRun(s.t, clear)
  {
    var halted := if s.t.cfg.kind == Leaf && s.t.run.running
                  then Note(s, Halt(s.t.cfg.path, s.t.cfg.halt)) else s;
    SetRun(halted, ClearedRun(s.t, clear))
  }

  /** Host context of an adapter is cleaned only after its children have been reset. */
  function ResetNode(s: State, clear: bool): (r: State)
    ensures Alike(r.t, s.t) && r.script == s.script
    ensures r.t.run == ClearedRun(s.t, clear)
    decreases ShapeOf(s.t), 1, 0
  {
    CloseAdapter(s.t, ResetKids(Clear(s, clear), 0, clear))
  }

  /** Aborts the context that the node held open in its former state `was`. */
  function CloseAdapter(was: Tree, s: State): State {
    if was.cfg.kind == Pipeline && was.run.prepared then
      Note(s, PipelineAbort(was.cfg.path, was.run.counter, was.cfg.abort))
    else if was.cfg.kind == ConsumeQueue && was.run.prepared then
      Note(s, QueueAbort(was.cfg.path, was.cfg.abort))
    else s
  }

  /** Resets the children from index i on. */
  function ResetKids(s: State, i: nat, clear: bool): (r: State)
    requires i <= |s.t.kids|
    ensures Alike(r.t, s.t) && r.script == s.script && r.t.run == s.t.run
    decreases ShapeOf(s.t), 0, |s.t.kids| - i
  {
    if i == |s.t.kids| then s else ResetKids(ResetChild(s, i, clear), i + 1, clear)
  }

  /** Resets child i for its parent's reset, closing the branch a Parallel had open. */
  function ResetChild(s: State, i: nat, clear: bool): (r: State)
    requires i < |s.t.kids|
    ensures Alike(r.t, s.t) && r.script == s.script && r.t.run == s.t.run
    decreases ShapeOf(s.t), 0, 0
  {
    var kid := s.t.kids[i];
    ShapeKid(s.t, i);
    var r := Unfocus(s.t, i, ResetNode(Focus(s, i), clear));
    SameShapeKid(s.t, i, r.t.kids[i]);
    if s.t.cfg.kind == Parallel && kid.run.branchPrepared then
      Note(SetBranch(r, i, false), BranchAbort(s.t.cfg.path, kid.cfg.path, i, s.t.cfg.abort))
    else r
  }

  /** A reset neither reads nor writes the node's own branch marker. */
  lemma MarkerCommutes(s: State, clear: bool, b: bool)
    ensures var bare := SetRun(s, s.t.run.(branchPrepared := b));
      var r := ResetNode(s, clear);
      ResetNode(bare, clear) == SetRun(r, r.t.run.(branchPrepared := b))
  {
    hide ResetKids, ShapeOf;
    var bare := SetRun(s, s.t.run.(branchPrepared := b));
    MarkerClear(s, bare, clear, b);
    hide Clear;
    MarkerKids(Clear(s, clear), Clear(bare, clear), 0, clear);
  }

  lemma MarkerClear(s: State, q: State, clear: bool, b: bool)
    requires q == s.(t := s.t.(run := s.t.run.(branchPrepared := b)))
    ensures var c, d := Clear(s, clear), Clear(q, clear);
      d == c.(t := c.t.(run := c.t.run.(branchPrepared := b)))
  {
    hide ShapeOf;
  }

  lemma {:induction false} MarkerKids(s: State, q: State, i: nat, clear: bool)
    requires q.script == s.script && q.trace == s.trace && q.t.cfg == s.t.cfg && q.t.kids == s.t.kids
    requires i <= |s.t.kids|
    ensures var r, z := ResetKids(s, i, clear), ResetKids(q, i, clear);
      r.script == z.script && r.trace == z.trace && r.t.kids == z.t.kids && r.t.cfg == z.t.cfg
    decreases |s.t.kids| - i
  {
    hide ResetNode, ShapeOf;
    if i < |s.t.kids| {
      MarkerKids(ResetChild(s, i, clear), ResetChild(q, i, clear), i + 1, clear);
    }
  }

  /** Resets child i; an index that names no child is ignored. */
  function ResetKid(s: State, i: int, clear: bool): (r: State)
    ensures Alike(r.t, s.t) && r.script == s.script && r.t.run == s.t.run
  {
    if 0 <= i < |s.t.kids| then
      var r := Unfocus(s.t, i, ResetNode(Focus(s, i), clear));
      SameShapeKid(s.t, i, r.t.kids[i]);
      r
    else s
  }

  /** Resets the children from j on one by one, as the reactive controls do. */
  function ResetLater(s: State, j: nat): (r: State)
    requires j <= |s.t.kids|
    ensures Alike(r.t, s.t) && r.script == s.script && r.t.run == s.t.run
    decreases |s.t.kids| - j
  {
    if j == |s.t.kids| then s else ResetLater(ResetKid(s, j, false), j + 1)
  }

  /** A tick changes neither the skeleton nor the branch marker, which is the parent's. */
  ghost predicate Keeps(s: State, o: Out) {
    Alike(o.s.t, s.t) && o.s.t.run.branchPrepared == s.t.run.branchPrepared
  }

  // ---- ways a control node returns ------------------------------------------------

  /** Terminal: reset the subtree, then report. */
  function End(s: State, st: Status): (o: Out)
    ensures o.code.Ok? && o.status == st
    ensures Keeps(s, o)
  {
    var r := SetLast(ResetNode(s, false), st);
    Out(r, Ok, st)
  }

  /** Report without resetting. */
  function Report(s: State, st: Status): (o: Out)
    ensures o.code.Ok? && o.status == st
    ensures Keeps(s, o)
  {
    Out(SetLast(s, st), Ok, st)
  }

  /** API error after resetting this subtree. */
  function Fail(s: State, code: Code): (o: Out)
    ensures o.code == code && o.status == Failure
    ensures Keeps(s, o)
  {
    Out(ResetNode(s, false), code, Failure)
  }

  /** API error that leaves cleaning up to the caller. */
  function Err(s: State, code: Code): Out {
    Out(s, code, Failure)
  }

  /** The child a resuming control continues with. */
  function ResumeAt(t: Tree): int {
    if t.run.cursor >= 0 then t.run.cursor else if |t.kids| > 0 then 0 else NO_CHILD
  }

  // ---- tick -----------------------------------------------------------------------

  function TickNode(m: nat, s: State): (o: Out)
    ensures Keeps(s, o)
    ensures o.code.Ok? ==> o.s.t.run.evaluated
    decreases ShapeOf(s.t), 4, 0
  {
    var o := TickImpl(m, s);
    if o.code.Ok? then
      var r := SetRun(o.s, o.s.t.run.(evaluated := true));
      o.(s := r)
    else o
  }

  /** Resolves dynamic parameters, then runs the node. */
  function TickImpl(m: nat, s: State): (o: Out)
    ensures Keeps(s, o)
    decreases ShapeOf(s.t), 3, 0
  {
    var r := Resolved(m, s);
    if !r.code.Ok? then r else Dispatch(m, r.s)
  }

  /** Asks the resolver, if there is one, and clears the evaluated mark. */
  function Resolved(m: nat, s: State): (o: Out)
    ensures Keeps(s, o)
  {
    var run := s.t.run;
    if s.t.cfg.resolver.NoResolver? then Out(SetRun(s, run.(evaluated := false)), Ok, Failure)
    else
      var a := Next(s);
      var asked := Call(s, Resolve(s.t.cfg.path, a.code));
      if !a.code.Ok? then Err(asked, a.code)
      else if s.t.cfg.resolver.LimitResolver? then
        if a.limit > m then Err(asked, EInval)
        else Out(SetRun(asked, run.(limit := a.limit, evaluated := false)), Ok, Failure)
      else
        var d := if run.timerStarted then Deadline(run.timerBegan, a.duration) else run.deadline;
        Out(SetRun(asked, run.(duration := a.duration, deadline := d, evaluated := false)), Ok, Failure)
  }

  /** A tick without a resolver is the dispatch with the evaluated mark cleared. */
  lemma TickUnresolved(m: nat, s: State)
    requires s.t.cfg.resolver.NoResolver?
    ensures var o, d := TickNode(m, s), Dispatch(m, SetRun(s, s.t.run.(evaluated := false)));
      o.code == d.code && o.status == d.status
  {
    hide Dispatch, ShapeOf;
  }

  function Dispatch(m: nat, s: State): (o: Out)
    ensures Keeps(s, o)
    decreases ShapeOf(s.t), 2, 0
  {
    match s.t.cfg.kind
    case Leaf => TickLeaf(s)
    case Pipeline => TickPipeline(m, s)
    case EntryUpdated => TickEntry(m, s)
    case ConsumeQueue => TickQueue(m, s)
    case Precondition => TickGuarded(m, s)
    case IfThenElse => TickGuarded(m, s)
    case KeepRunning => TickKeepRunning(m, s)
    case WhileDo => TickWhile(m, s)
    case Switch => TickSwitch(m, s)
    case RunOnce => TickRunOnce(m, s)
    case Timeout => TickTimeout(m, s)
    case Delay => TickDelay(m, s)
    case Repeat =>
      if s.t.run.limit == 0 then End(s, Success) else RepeatLoop(m, s, ResumeAt(s.t))
    case Retry =>
      if s.t.run.counter >= s.t.run.limit then End(s, Failure)
      else RetryLoop(m, s, ResumeAt(s.t))
    case Inverter => TickDecorator(m, s)
    case ForceSuccess => TickDecorator(m, s)
    case ForceFailure => TickDecorator(m, s)
    case Parallel => TickParallel(m, s)
    case ReactiveFallback =>
      if s.t.kids == [] then Err(s, EInval) else ReactiveLoop(m, s, 0, Failure)
    case ReactiveSequence =>
      if s.t.kids == [] then Err(s, EInval) else ReactiveLoop(m, s, 0, Success)
    case Sequence => ChildLoop(m, s, ResumeAt(s.t), Success)
    case Fallback => ChildLoop(m, s, ResumeAt(s.t), Failure)
  }

  /** Ticks child i in place; an index that names no child is an API error. */
  function TickKid(m: nat, s: State, i: int): (o: Out)
    ensures Keeps(s, o) && o.s.t.run == s.t.run
    decreases ShapeOf(s.t), 0, 0
  {
    if 0 <= i < |s.t.kids| then
      ShapeKid(s.t, i);
      var o := TickNode(m, Focus(s, i));
      SameShapeKid(s.t, i, o.s.t);
      o.(s := Unfocus(s.t, i, o.s))
    else Err(s, EInval)
  }

  function TickLeaf(s: State): (o: Out)
    ensures Keeps(s, o)
  {
    var a := Next(s);
    var r := Call(s, Handler(s.t.cfg.path, a.status));
    if a.status.None? then Err(r, EInval)
    else
      var st := a.status.value;
      var done := SetRun(r, r.t.run.(running := st == Running, last := st));
      Out(done, Ok, st)
  }

  /** Children a pipeline can still visit in this tick. */
  function PipelineLeft(t: Tree): nat {
    (if t.run.cursor >= 0 then 1 else 0) +
    (if t.run.counter < |t.kids| then |t.kids| - t.run.counter else 0)
  }

  /** Prepares and ticks the current child of a pipeline, then completes it and moves on. */
  function TickPipeline(m: nat, s: State): (o: Out)
    ensures Keeps(s, o)
    decreases ShapeOf(s.t), 1, PipelineLeft(s.t)
  {
    var run := s.t.run;
    var current := if run.cursor >= 0 then run.cursor
                   else if run.counter < |s.t.kids| then run.counter else NO_CHILD;
    if current < 0 then End(s, Success)
    else if !run.prepared then
      var a := Next(s);
      var p := Call(SetRun(s, run.(prepared := true)), Prepare(s.t.cfg.path, run.counter, a.code));
      if !a.code.Ok? then Fail(p, a.code) else PipelineChild(m, p, current)
    else PipelineChild(m, s, current)
  }

  function PipelineChild(m: nat, s: State, current: nat): (o: Out)
    requires s.t.run.cursor >= 0 || s.t.run.counter < |s.t.kids|
    ensures Keeps(s, o)
    decreases ShapeOf(s.t), 1, PipelineLeft(s.t), 1
  {
    var o := TickKid(m, s, current);
    if !o.code.Ok? then Fail(o.s, o.code)
    else if o.status == Running then Report(SetCursor(o.s, current), Running)
    else PipelineComplete(m, o.s, o.status)
  }

  function PipelineComplete(m: nat, s: State, st: Status): (o: Out)
    requires s.t.run.cursor >= 0 || s.t.run.counter < |s.t.kids|
    ensures Keeps(s, o)
    decreases ShapeOf(s.t), 1, PipelineLeft(s.t), 0
  {
    var a := Next(s);
    var e := Complete(s.t.cfg.path, s.t.run.counter, st, a.code);
    if !a.code.Ok? then Fail(Call(s, e), a.code)
    else if st == Failure then End(Completed(s, e, s.t.run.counter), Failure)
    else TickPipeline(m, Completed(s, e, s.t.run.counter + 1))
  }

  /** The pipeline after a successful complete. */
  function Completed(s: State, e: Event, counter: nat): (r: State)
    ensures Alike(r.t, s.t) && r.t.run.branchPrepared == s.t.run.branchPrepared
    ensures r.t.run.counter == counter && r.t.run.cursor < 0
  {
    SetRun(Call(s, e), s.t.run.(cursor := NO_CHILD, prepared := false, counter := counter))
  }

  function TickEntry(m: nat, s: State): (o: Out)
    ensures Keeps(s, o)
    decreases ShapeOf(s.t), 1, 1
  {
    if s.t.kids == [] then Err(s, EInval)
    else
      var a := Next(s);
      var asked := Call(s, Changed(s.t.cfg.path, a.code, a.flag));
      var changed := a.flag || !s.t.run.observed;
      if !a.code.Ok? then Fail(asked, a.code)
      else if changed then  // observed becomes (or already is) true on both ways to the child
        var stopped := ResetKid(asked, ResumeAt(s.t), false);
        EntryChild(m, SetRun(stopped, stopped.t.run.(cursor := NO_CHILD, observed := true)))
      else if s.t.run.cursor < 0 && s.t.run.last != Running then Out(asked, Ok, s.t.run.last)
      else EntryChild(m, asked)
  }

  function EntryChild(m: nat, s: State): (o: Out)
    ensures Keeps(s, o)
    decreases ShapeOf(s.t), 1, 0
  {
    var o := TickKid(m, s, 0);
    if !o.code.Ok? then Fail(o.s, o.code)
    else if o.status == Running then Report(SetCursor(o.s, 0), Running)
    else Report(SetCursor(o.s, NO_CHILD), o.status)
  }

  function TickQueue(m: nat, s: State): (o: Out)
    ensures Keeps(s, o)
    decreases ShapeOf(s.t), 1, 1
  {
    if s.t.kids == [] then Err(s, EInval)
    else if !s.t.run.prepared then
      var a := Next(s);
      var b := Call(SetRun(s, s.t.run.(prepared := true)), Begin(s.t.cfg.path, a.code, a.flag));
      if !a.code.Ok? then Fail(b, a.code)
      else if !a.flag then
        var empty := SetRun(b, b.t.run.(prepared := false));
        End(empty, Failure)
      else QueueItem(m, b)
    else QueueItem(m, s)
  }

  function QueueItem(m: nat, s: State): (o: Out)
    requires s.t.kids != []
    ensures Keeps(s, o)
    decreases ShapeOf(s.t), 1, 0
  {
    var o := TickKid(m, s, 0);
    if !o.code.Ok? then Fail(o.s, o.code)
    else if o.status == Running then
      Report(SetCursor(o.s, 0), Running)
    else if o.status == Failure then End(o.s, Failure)
    else FinishItem(o.s)
  }

  /** Commits the current item of a queue; with more to come the node yields. */
  function FinishItem(s: State): (o: Out)
    ensures Keeps(s, o)
  {
    var a := Next(s);
    var e := Finish(s.t.cfg.path, a.code, a.flag);
    if !a.code.Ok? then Fail(Call(s, e), a.code)
    else
      var closed := SetRun(Call(s, e), s.t.run.(prepared := false));
      if a.flag then Report(SetCursor(ResetKid(closed, 0, false), NO_CHILD), Running)
      else End(closed, Success)
  }

  /** The status of the guard: the predicate callback, or the first child. */
  function AskGuard(m: nat, s: State): (o: Out)
    ensures Keeps(s, o) && o.s.t.run == s.t.run
    decreases ShapeOf(s.t), 1, 0
  {
    if s.t.cfg.condition then
      var a := Next(s);
      var c := Call(s, Condition(s.t.cfg.path, a.code, a.status));
      if !a.code.Ok? then Err(c, a.code)
      else if a.status.None? then Err(c, EInval)
      else Out(c, Ok, a.status.value)
    else if |s.t.kids| < 2 then Err(s, EInval)
    else TickKid(m, s, 0)
  }

  /** Stops the branch under the cursor, if any. */
  function DropCursor(s: State): (r: State)
    ensures Alike(r.t, s.t) && r.script == s.script
    ensures r.t.run == s.t.run.(cursor := r.t.run.cursor)
  {
    if s.t.run.cursor >= 0 then SetCursor(ResetKid(s, s.t.run.cursor, false), NO_CHILD) else s
  }

  /** Ticks one selected branch, stopping another one first. */
  function TickSelected(m: nat, s: State, selected: int): (o: Out)
    ensures Keeps(s, o)
    decreases ShapeOf(s.t), 1, 1
  {
    RunSelected(m, if s.t.run.cursor != selected then DropCursor(s) else s, selected)
  }

  function RunSelected(m: nat, s: State, selected: int): (o: Out)
    ensures Keeps(s, o)
    decreases ShapeOf(s.t), 1, 0
  {
    var o := TickKid(m, s, selected);
    if !o.code.Ok? then Err(o.s, o.code)
    else if o.status == Running then Report(SetCursor(o.s, selected), Running)
    else End(o.s, o.status)
  }

  /** IfThenElse and Precondition. */
  function TickGuarded(m: nat, s: State): (o: Out)
    ensures Keeps(s, o)
    decreases ShapeOf(s.t), 1, 2
  {
    var g := AskGuard(m, s);
    var first := if s.t.cfg.condition then 0 else 1;
    if !g.code.Ok? then Err(g.s, g.code)
    else if g.status == Running then Report(DropCursor(g.s), Running)
    else if s.t.cfg.kind == Precondition then
      if g.status == Failure then End(g.s, Failure) else TickSelected(m, g.s, first)
    else if first >= |s.t.kids| then Err(g.s, EInval)
    else
      var selected := if g.status == Success then first else first + 1;
      if selected >= |s.t.kids| then End(g.s, Failure) else TickSelected(m, g.s, selected)
  }

  function TickKeepRunning(m: nat, s: State): (o: Out)
    ensures Keeps(s, o)
    decreases ShapeOf(s.t), 1, 0
  {
    var child := ResumeAt(s.t);
    if child < 0 then Err(s, EInval)
    else if s.t.run.counter >= s.t.run.limit then End(s, Failure)
    else
      var o := TickKid(m, s, child);
      if !o.code.Ok? then Err(o.s, o.code)
      else if o.status == Running then Report(o.s, Running)
      else if o.status == Failure then End(o.s, Success)
      else
        var r := NextCycle(o.s, child);
        if r.t.run.counter >= r.t.run.limit then End(r, Failure) else Report(r, Running)
  }

  /** Counts a finished cycle of a loop and re-arms its child. */
  function NextCycle(s: State, child: int): (r: State)
    ensures Alike(r.t, s.t) && r.script == s.script
    ensures r.t.run == s.t.run.(counter := s.t.run.counter + 1)
  {
    var r := SetRun(s, s.t.run.(counter := s.t.run.counter + 1));
    ResetKid(r, child, false)
  }

  function TickWhile(m: nat, s: State): (o: Out)
    ensures Keeps(s, o)
    decreases ShapeOf(s.t), 1, 1
  {
    var body := if s.t.cfg.condition then 0 else 1;
    if body >= |s.t.kids| then Err(s, EInval)
    else if s.t.run.counter >= s.t.run.limit then End(s, Success)
    else
      var g := AskGuard(m, s);
      if !g.code.Ok? then Err(g.s, g.code)
      else if g.status == Running then Report(DropCursor(g.s), Running)
      else if g.status == Failure then End(g.s, Success)
      else WhileBody(m, g.s, body)
  }

  function WhileBody(m: nat, s: State, body: nat): (o: Out)
    ensures Keeps(s, o)
    decreases ShapeOf(s.t), 1, 0
  {
    var o := TickKid(m, s, body);
    if !o.code.Ok? then Err(o.s, o.code)
    else if o.status == Running then Report(SetCursor(o.s, body), Running)
    else
      var idle := SetCursor(o.s, NO_CHILD);
      if o.status == Failure then End(idle, Failure)
      else
        var r := NextCycle(idle, body);
        if r.t.run.counter >= r.t.run.limit then End(r, Success) else Report(r, Running)
  }

  function TickSwitch(m: nat, s: State): (o: Out)
    ensures Keeps(s, o)
    decreases ShapeOf(s.t), 1, 2
  {
    var a := Next(s);
    var c := Call(s, Select(s.t.cfg.path, a.code, a.index));
    if !a.code.Ok? then Err(c, a.code)
    else if a.index >= |s.t.kids| then End(c, Failure)
    else TickSelected(m, c, a.index)
  }

  function TickRunOnce(m: nat, s: State): (o: Out)
    ensures Keeps(s, o)
    decreases ShapeOf(s.t), 1, 0
  {
    if s.t.run.runOnceComplete then Out(s, Ok, s.t.run.last)
    else
      var o := TickKid(m, s, ResumeAt(s.t));
      if !o.code.Ok? then Err(o.s, o.code)
      else
        var r := SetRun(o.s, o.s.t.run.(runOnceComplete := o.status != Running));
        Report(r, o.status)
  }

  /** Reads the clock and starts the node's timer if it is not running. */
  function StartTimer(s: State): (r: State)
    ensures Alike(r.t, s.t)
    ensures r.t.run == s.t.run.(timerStarted := true, timerBegan := r.t.run.timerBegan,
                                deadline := r.t.run.deadline)
  {
    var now := Next(s).now;
    var c := Call(s, Clock(s.t.cfg.path, now));
    if s.t.run.timerStarted then c
    else
      var r := SetRun(c, s.t.run.(timerStarted := true, timerBegan := now,
                                  deadline := Deadline(now, s.t.run.duration)));
      r
  }

  function TickTimeout(m: nat, s: State): (o: Out)
    ensures Keeps(s, o)
    decreases ShapeOf(s.t), 1, 0
  {
    var child := ResumeAt(s.t);
    if child < 0 then Err(s, EInval)
    else
      var armed := StartTimer(s);
      if Next(s).now >= armed.t.run.deadline then End(armed, Failure)
      else
        var o := TickKid(m, armed, child);
        if !o.code.Ok? then Err(o.s, o.code)
        else
          var now := Next(o.s).now;
          var c := Call(o.s, Clock(s.t.cfg.path, now));
          if now >= c.t.run.deadline then End(c, Failure)
          else if o.status == Running then Report(c, Running)
          else End(c, o.status)
  }

  function TickDelay(m: nat, s: State): (o: Out)
    ensures Keeps(s, o)
    decreases ShapeOf(s.t), 1, 1
  {
    var child := ResumeAt(s.t);
    if child < 0 then Err(s, EInval)
    else if s.t.run.delayElapsed then DelayChild(m, s, child)
    else
      var armed := StartTimer(s);
      if Next(s).now < armed.t.run.deadline then Report(armed, Running)
      else
        var r := SetRun(armed, armed.t.run.(delayElapsed := true, timerStarted := false,
                                            deadline := 0, timerBegan := 0));
        DelayChild(m, r, child)
  }

  function DelayChild(m: nat, s: State, child: int): (o: Out)
    ensures Keeps(s, o)
    decreases ShapeOf(s.t), 1, 0
  {
    var o := TickKid(m, s, child);
    if !o.code.Ok? then Err(o.s, o.code)
    else if o.status == Running then Report(o.s, Running)
    else End(o.s, o.status)
  }

  function RepeatLoop(m: nat, s: State, child: int): (o: Out)
    ensures Keeps(s, o)
    decreases ShapeOf(s.t), 1,
      if s.t.run.counter < s.t.run.limit then s.t.run.limit - s.t.run.counter else 0
  {
    if s.t.run.counter >= s.t.run.limit then End(s, Success)
    else
      var o := TickKid(m, s, child);
      if !o.code.Ok? then Err(o.s, o.code)
      else if o.status == Running then Report(o.s, Running)
      else
        var r := NextCycle(o.s, child);
        RepeatLoop(m, r, if |r.t.kids| > 0 then 0 else NO_CHILD)
  }

  function RetryLoop(m: nat, s: State, child: int): (o: Out)
    requires s.t.run.counter < s.t.run.limit
    ensures Keeps(s, o)
    decreases ShapeOf(s.t), 1, s.t.run.limit - s.t.run.counter
  {
    var o := TickKid(m, s, child);
    if !o.code.Ok? then Err(o.s, o.code)
    else if o.status == Running then Report(o.s, Running)
    else if o.status == Success then End(o.s, Success)
    else
      var r := NextCycle(o.s, child);
      if r.t.run.counter >= r.t.run.limit then End(r, Failure)
      else RetryLoop(m, r, if |r.t.kids| > 0 then 0 else NO_CHILD)
  }

  function Decorate(k: Kind, st: Status): Status {
    if st == Running then Running
    else match k
         case Inverter => if st == Success then Failure else Success
         case ForceSuccess => Success
         case ForceFailure => Failure
         case _ => st
  }

  function TickDecorator(m: nat, s: State): (o: Out)
    ensures Keeps(s, o)
    decreases ShapeOf(s.t), 1, 0
  {
    var o := TickKid(m, s, ResumeAt(s.t));
    if !o.code.Ok? then Err(o.s, o.code) else Report(o.s, Decorate(s.t.cfg.kind, o.status))
  }

  /** Sequence (go == Success) and Fallback (go == Failure) from child i on. */
  function ChildLoop(m: nat, s: State, i: int, go: Status): (o: Out)
    ensures Keeps(s, o)
    decreases ShapeOf(s.t), 1, if i < |s.t.kids| then |s.t.kids| - i else 0
  {
    if i < 0 then End(s, go)
    else
      var o := TickKid(m, s, i);
      if !o.code.Ok? then Err(o.s, o.code)
      else if o.status == Running then
        Report(SetCursor(o.s, i), Running)
      else if o.status != go then End(o.s, o.status)
      else
        var next := if i + 1 < |s.t.kids| then i + 1 else NO_CHILD;
        if next < 0 then End(SetCursor(o.s, next), go)
        else ChildLoop(m, SetCursor(o.s, next), next, go)
  }

  /** ReactiveSequence (go == Success) and ReactiveFallback (go == Failure). */
  function ReactiveLoop(m: nat, s: State, i: nat, go: Status): (o: Out)
    requires i <= |s.t.kids|
    ensures Keeps(s, o)
    decreases ShapeOf(s.t), 1, |s.t.kids| - i
  {
    if i == |s.t.kids| then End(s, go)
    else
      var o := TickKid(m, s, i);
      if !o.code.Ok? then Err(o.s, o.code)
      else if o.status == Running then
        var r := SetCursor(ResetLater(o.s, i + 1), i);
        Report(r, Running)
      else if o.status != go then End(o.s, o.status)
      else ReactiveLoop(m, o.s, i + 1, go)
  }

  /** Ticks branch i of a Parallel, bracketed by the enter and step hooks. */
  function TickBranch(m: nat, s: State, i: nat): (o: Out)
    requires i < |s.t.kids|
    ensures Keeps(s, o) && (o.code.Ok? ==> o.s.t.run == s.t.run)
    decreases ShapeOf(s.t), 1, 0
  {
    var kid := s.t.kids[i];
    if kid.run.evaluated && kid.run.last != Running then Out(s, Ok, kid.run.last)
    else if !s.t.cfg.hooks then
      var o := TickKid(m, s, i);
      if !o.code.Ok? then Fail(o.s, o.code) else o
    else
      var a := Next(s);
      var entered := Call(SetBranch(s, i, true),
        Enter(s.t.cfg.path, kid.cfg.path, i, !kid.run.branchPrepared, a.code));
      if !a.code.Ok? then Fail(entered, a.code)
      else TickEntered(m, entered, i)
  }

  /** The branch tick itself, then the step hook. */
  function TickEntered(m: nat, s: State, i: nat): (o: Out)
    requires i < |s.t.kids|
    ensures Keeps(s, o) && (o.code.Ok? ==> o.s.t.run == s.t.run)
    decreases ShapeOf(s.t), 0, 1
  {
    var o := TickKid(m, s, i);
    if !o.code.Ok? then Fail(o.s, o.code)
    else
      var b := Next(o.s);
      var stepped := Call(o.s, Step(s.t.cfg.path, s.t.kids[i].cfg.path, i, o.status, b.code));
      if !b.code.Ok? then Fail(stepped, b.code) else Out(stepped, Ok, o.status)
  }

  /** RUNNING wins over FAILURE, FAILURE over SUCCESS. */
  function Aggregate(a: Status, b: Status): Status {
    if a == Running || b == Running then Running
    else if a == Failure || b == Failure then Failure else Success
  }

  /** Ticks the branches from i on; the status is their aggregate with `sofar`. */
  function BranchLoop(m: nat, s: State, i: nat, sofar: Status): (o: Out)
    requires i <= |s.t.kids|
    ensures Keeps(s, o) && (o.code.Ok? ==> o.s.t.run == s.t.run)
    decreases ShapeOf(s.t), 1, |s.t.kids| - i + 1
  {
    if i == |s.t.kids| then Out(s, Ok, sofar)
    else
      var o := TickBranch(m, s, i);
      if !o.code.Ok? then o else BranchLoop(m, o.s, i + 1, Aggregate(sofar, o.status))
  }

  predicate Terminal(t: Tree) {
    t.run.evaluated && t.run.last != Running
  }

  /** Finishes terminal branches after a successful join; re-arms them when the
      Parallel as a whole keeps running. */
  function FinishLoop(s: State, i: nat, agg: Status): (o: Out)
    requires i <= |s.t.kids|
    ensures Keeps(s, o) && (o.code.Ok? ==> o.s.t.run == s.t.run)
    ensures o.status == if o.code.Ok? then agg else Failure
    decreases |s.t.kids| - i
  {
    if i == |s.t.kids| then Out(s, Ok, agg)
    else
      var kid := s.t.kids[i];
      if !Terminal(kid) then FinishLoop(s, i + 1, agg)
      else if s.t.cfg.hooks && kid.run.branchPrepared then
        var a := Next(s);
        var f := Call(s, BranchFinish(s.t.cfg.path, kid.cfg.path, i, kid.run.last, a.code));
        if !a.code.Ok? then Fail(f, a.code)
        else FinishLoop(Rearm(SetBranch(f, i, false), i, agg), i + 1, agg)
      else FinishLoop(Rearm(s, i, agg), i + 1, agg)
  }

  function Rearm(s: State, i: nat, agg: Status): (r: State)
    requires i < |s.t.kids|
    ensures Alike(r.t, s.t) && r.script == s.script && r.t.run == s.t.run
  {
    if agg == Running then ResetKid(SetBranch(s, i, false), i, true) else s
  }

  function TickParallel(m: nat, s: State): (o: Out)
    ensures Keeps(s, o)
    decreases ShapeOf(s.t), 1, |s.t.kids| + 2
  {
    if s.t.kids == [] then Err(s, EInval)
    else
      var o := BranchLoop(m, s, 0, Success);
      if !o.code.Ok? then o
      else
        var agg := o.status;
        var a := Next(o.s);
        var joined := if s.t.cfg.hooks then Call(o.s, Join(s.t.cfg.path, agg, a.code)) else o.s;
        if s.t.cfg.hooks && !a.code.Ok? then Fail(joined, a.code)
        else
          var f := FinishLoop(joined, 0, agg);
          if !f.code.Ok? then f
          else if agg == Running then Report(f.s, Running)
          else End(f.s, agg)
  }
}
