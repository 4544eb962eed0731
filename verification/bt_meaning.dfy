/** What a plain tree means. Its value is that of an expression over the answers of its leaves:
    conjunction and disjunction with short circuit, negation, constants, n tries, n rounds. */
module BtMeaning {
  import opened Wrappers
  import opened BtTypes
  import opened BtSemantics
  import opened BtInvariant
  import opened BtProtocol
  import opened BtSoundness
  import opened BtRuns
  import opened BtStutter
  import opened BtTheorems
  import opened BtResume

  // ---- the value of an expression ----------------------------------------------------------------

  /** Whether it holds, which leaves were asked, and the answers left over. It is not `ok` when
      a leaf gave no legal answer; then nothing more is asked. */
  datatype Value = Value(ok: bool, holds: bool, calls: seq<Event>, rest: seq<Answer>)

  function AsStatus(holds: bool): Status { if holds then Success else Failure }

  function Ask(path: Path, script: seq<Answer>): Value {
    var status := if script == [] then Some(Success) else script[0].status;
    Value(status.Some?, status == Some(Success), [Handler(path, status)], if script == [] then [] else script[1..])
  }

  /** v, then w if v says so. */
  function Then(v: Value, w: Value): Value {
    w.(calls := v.calls + w.calls)
  }

  /** A tree whose decorators and loops have their one child. */
  ghost predicate Formed(sh: Shape) {
    && PlainKind(sh.cfg.kind) && sh.cfg.resolver.NoResolver?
    && (IsSingleChild(sh.cfg.kind) ==> |sh.kids| == 1)
    && forall i :: 0 <= i < |sh.kids| ==> Formed(sh.kids[i])
  }

  ghost function Eval(sh: Shape, script: seq<Answer>): Value
    requires Formed(sh)
    decreases sh, 1, 0
  {
    match sh.cfg.kind
    case Leaf => Ask(sh.cfg.path, script)
    case Sequence => AllFrom(sh, 0, script)
    case Fallback => AnyFrom(sh, 0, script)
    case Inverter => var v := Eval(sh.kids[0], script); v.(holds := !v.holds)
    case ForceSuccess => Eval(sh.kids[0], script).(holds := true)
    case ForceFailure => Eval(sh.kids[0], script).(holds := false)
    case Retry => Tries(sh, sh.cfg.limit, script)
    case Repeat => Rounds(sh, sh.cfg.limit, script)
    case _ => Value(true, true, [], script)
  }

  /** All children from i on hold; the first that does not decides. */
  ghost function AllFrom(sh: Shape, i: nat, script: seq<Answer>): Value
    requires Formed(sh) && i <= |sh.kids|
    decreases sh, 0, |sh.kids| - i
  {
    if i == |sh.kids| then Value(true, true, [], script)
    else
      var v := Eval(sh.kids[i], script);
      if v.ok && v.holds then Then(v, AllFrom(sh, i + 1, v.rest)) else v
  }

  /** Some child from i on holds; the first that does decides. */
  ghost function AnyFrom(sh: Shape, i: nat, script: seq<Answer>): Value
    requires Formed(sh) && i <= |sh.kids|
    decreases sh, 0, |sh.kids| - i
  {
    if i == |sh.kids| then Value(true, false, [], script)
    else
      var v := Eval(sh.kids[i], script);
      if v.ok && !v.holds then Then(v, AnyFrom(sh, i + 1, v.rest)) else v
  }

  /** The only child holds in one of n tries. */
  ghost function Tries(sh: Shape, n: nat, script: seq<Answer>): Value
    requires Formed(sh) && |sh.kids| == 1
    decreases sh, 0, n
  {
    if n == 0 then Value(true, false, [], script)
    else
      var v := Eval(sh.kids[0], script);
      if v.ok && !v.holds then Then(v, Tries(sh, n - 1, v.rest)) else v
  }

  /** The only child is evaluated n times, whatever it answers. */
  ghost function Rounds(sh: Shape, n: nat, script: seq<Answer>): Value
    requires Formed(sh) && |sh.kids| == 1
    decreases sh, 0, n
  {
    if n == 0 then Value(true, true, [], script)
    else
      var v := Eval(sh.kids[0], script);
      if v.ok then Then(v, Rounds(sh, n - 1, v.rest)) else v
  }

  // ---- where an activation starts ------------------------------------------------------------------

  /** No child is under way and no round has been counted. */
  ghost predicate AtStart(t: Tree) {
    && t.run.cursor < 0 && t.run.counter == 0 && t.run.limit == t.cfg.limit && !t.run.running
    && forall i :: 0 <= i < |t.kids| ==> AtStart(t.kids[i])
  }

  ghost predicate KidsAtStart(t: Tree) {
    !t.run.running && t.run.limit == t.cfg.limit && forall i :: 0 <= i < |t.kids| ==> AtStart(t.kids[i])
  }

  /** A reset ends every activation, and does nothing else to a tree that is in none. */
  lemma {:induction false} ResetStarts(s: State, clear: bool)
    requires Formed(ShapeOf(s.t)) && KidsAtStart(s.t)
    ensures var r := ResetNode(s, clear); AtStart(r.t) && r.trace == s.trace
    decreases ShapeOf(s.t), 1, 0
  {
    hide ResetKids, ShapeOf;
    FormedRoot(s.t);
    var c := Clear(s, clear);
    KidsStart(c, 0, clear);
  }

  lemma FormedRoot(t: Tree)
    requires Formed(ShapeOf(t))
    ensures PlainKind(t.cfg.kind) && t.cfg.resolver.NoResolver?
    ensures IsSingleChild(t.cfg.kind) ==> |t.kids| == 1
  {
  }

  lemma FormedKid(t: Tree, i: nat)
    requires Formed(ShapeOf(t)) && i < |t.kids|
    ensures i < |ShapeOf(t).kids| && ShapeOf(t).kids[i] == ShapeOf(t.kids[i]) && Formed(ShapeOf(t.kids[i]))
  {
    ShapeKid(t, i);
  }

  lemma {:induction false} KidsStart(s: State, i: nat, clear: bool)
    requires i <= |s.t.kids| && Formed(ShapeOf(s.t)) && KidsAtStart(s.t)
    ensures var r := ResetKids(s, i, clear); KidsAtStart(r.t) && r.trace == s.trace
    decreases ShapeOf(s.t), 0, |s.t.kids| - i
  {
    hide ResetNode, ShapeOf, Formed;
    if i < |s.t.kids| {
      FormedRoot(s.t);
      FormedKid(s.t, i);
      ShapeKid(s.t, i);
      ResetStarts(Focus(s, i), clear);
      KidsStart(ResetChild(s, i, clear), i + 1, clear);
    }
  }

  // ---- one tick without RUNNING answers ---------------------------------------------------------------

  ghost predicate Decisive(script: seq<Answer>) {
    forall i :: 0 <= i < |script| ==> script[i].status != Some(Running)
  }

  /** The outcome is the value: its status, its leaf calls and nothing else, its answers. */
  ghost predicate Yielded(v: Value, s: State, o: Out) {
    && o.s.script == v.rest && Decisive(v.rest) && o.s.trace == s.trace + v.calls
    && (v.ok ==> o.code.Ok? && o.status == AsStatus(v.holds))
    && (!v.ok ==> o.code == EInval)
  }

  ghost predicate Means(v: Value, s: State, o: Out) {
    Yielded(v, s, o) && (v.ok ==> AtStart(o.s.t))
  }

  /** The same for a control in the middle of its children. */
  ghost predicate KidsMean(v: Value, s: State, o: Out) {
    Yielded(v, s, o) && (v.ok ==> KidsAtStart(o.s.t))
  }

  ghost predicate Underway(s: State) {
    Decisive(s.script) && Formed(ShapeOf(s.t)) && KidsAtStart(s.t)
  }

  /** A tick without RUNNING answers gives the value of the tree over the answers, calls the
      leaves that value needs, and leaves the tree at a start. */
  lemma {:induction false} TickMeans(m: nat, s: State)
    requires Decisive(s.script) && Formed(ShapeOf(s.t)) && AtStart(s.t)
    ensures Means(Eval(ShapeOf(s.t), s.script), s, TickNode(m, s))
    decreases ShapeOf(s.t), 4
  {
    hide Eval, ShapeOf, Formed, Dispatch, TickNode;
    FormedRoot(s.t);
    Marked(m, s);
    var q := SetRun(s, s.t.run.(evaluated := false));
    DispatchMeans(m, q);
    MarkStarts(Dispatch(m, q));
  }

  lemma MarkStarts(o: Out)
    ensures Mark(o).s.script == o.s.script && Mark(o).s.trace == o.s.trace
    ensures Mark(o).code == o.code && Mark(o).status == o.status
    ensures AtStart(o.s.t) ==> AtStart(Mark(o).s.t)
  {
  }

  lemma {:induction false} DispatchMeans(m: nat, s: State)
    requires Decisive(s.script) && Formed(ShapeOf(s.t)) && AtStart(s.t)
    ensures Means(Eval(ShapeOf(s.t), s.script), s, Dispatch(m, s))
    decreases ShapeOf(s.t), 3
  {
    hide ShapeOf, Formed, End, TickKid, NextCycle, TickDecorator, TickLeaf;
    FormedRoot(s.t);
    RootOf(s.t);
    match s.t.cfg.kind
    case Leaf => LeafMeans(s);
    case Sequence => if s.t.kids != [] { AllMeans(m, s, 0); } else { EndMeans(s, Success); }
    case Fallback => if s.t.kids != [] { AnyMeans(m, s, 0); } else { EndMeans(s, Failure); }
    case Retry => if s.t.run.limit > 0 { TriesMean(m, s); } else { EndMeans(s, Failure); }
    case Repeat => RoundsMean(m, s);
    case Inverter => DecoratorMeans(m, s);
    case ForceSuccess => DecoratorMeans(m, s);
    case ForceFailure => DecoratorMeans(m, s);
  }

  lemma RootOf(t: Tree)
    ensures ShapeOf(t).cfg == t.cfg && |ShapeOf(t).kids| == |t.kids|
  {
  }

  lemma LeafMeans(s: State)
    requires Decisive(s.script) && Formed(ShapeOf(s.t)) && AtStart(s.t)
    ensures Means(Ask(s.t.cfg.path, s.script), s, TickLeaf(s))
  {
    hide ShapeOf, Formed;
  }

  lemma {:induction false} KidMeans(m: nat, s: State, i: nat)
    requires Underway(s) && i < |s.t.kids|
    ensures i < |ShapeOf(s.t).kids| && Formed(ShapeOf(s.t).kids[i])
    ensures KidsMean(Eval(ShapeOf(s.t).kids[i], s.script), s, TickKid(m, s, i))
    decreases ShapeOf(s.t), 0
  {
    hide ShapeOf, Formed, Eval, TickNode;
    FormedKid(s.t, i);
    TickMeans(m, Focus(s, i));
    SameRoot(s.t, TickKid(m, s, i).s.t);
  }

  lemma SameRoot(t: Tree, u: Tree)
    requires ShapeOf(t) == ShapeOf(u)
    ensures t.cfg == u.cfg && |t.kids| == |u.kids|
  {
    RootOf(t);
    RootOf(u);
  }

  /** Ending a control leaves it at a start without a callback. */
  lemma EndMeans(s: State, st: Status)
    requires Underway(s) && st != Running
    ensures var o := End(s, st);
      o.code.Ok? && o.status == st && o.s.script == s.script && o.s.trace == s.trace && AtStart(o.s.t)
  {
    hide ShapeOf, Formed, ResetNode;
    ResetStarts(s, false);
  }

  lemma {:induction false} AllMeans(m: nat, s: State, i: nat)
    requires Underway(s) && i < |s.t.kids| == |ShapeOf(s.t).kids|
    ensures Means(AllFrom(ShapeOf(s.t), i, s.script), s, ChildLoop(m, s, i, Success))
    decreases ShapeOf(s.t), 1, |s.t.kids| - i
  {
    hide ShapeOf, Formed, Eval, TickKid, End;
    KidMeans(m, s, i);
    var o := TickKid(m, s, i);
    SameRoot(s.t, o.s.t);
    if o.code.Ok? {
      EndMeans(o.s, o.status);
      var c := SetCursor(o.s, if i + 1 < |s.t.kids| then i + 1 else NO_CHILD);
      EndMeans(c, Success);
      if o.status == Success && i + 1 < |s.t.kids| { AllMeans(m, c, i + 1); }
    }
  }

  lemma {:induction false} AnyMeans(m: nat, s: State, i: nat)
    requires Underway(s) && i < |s.t.kids| == |ShapeOf(s.t).kids|
    ensures Means(AnyFrom(ShapeOf(s.t), i, s.script), s, ChildLoop(m, s, i, Failure))
    decreases ShapeOf(s.t), 1, |s.t.kids| - i
  {
    hide ShapeOf, Formed, Eval, TickKid, End;
    KidMeans(m, s, i);
    var o := TickKid(m, s, i);
    SameRoot(s.t, o.s.t);
    if o.code.Ok? {
      EndMeans(o.s, o.status);
      var c := SetCursor(o.s, if i + 1 < |s.t.kids| then i + 1 else NO_CHILD);
      EndMeans(c, Failure);
      if o.status == Failure && i + 1 < |s.t.kids| { AnyMeans(m, c, i + 1); }
    }
  }

  /** Re-arming the child for another round makes no callback. */
  lemma CycleMeans(s: State)
    requires Underway(s) && |s.t.kids| == 1
    ensures var c := NextCycle(s, 0);
      Underway(c) && c.trace == s.trace && c.script == s.script && c.t.cfg == s.t.cfg && |c.t.kids| == 1
  {
    hide ShapeOf, Formed, ResetNode;
    var r := SetRun(s, s.t.run.(counter := s.t.run.counter + 1));
    FormedKid(r.t, 0);
    ResetStarts(Focus(r, 0), false);
    SameRoot(r.t, NextCycle(s, 0).t);
  }

  lemma {:induction false} TriesMean(m: nat, s: State)
    requires Underway(s) && |s.t.kids| == 1 == |ShapeOf(s.t).kids| && s.t.run.counter < s.t.run.limit
    ensures Means(Tries(ShapeOf(s.t), s.t.run.limit - s.t.run.counter, s.script), s, RetryLoop(m, s, 0))
    decreases ShapeOf(s.t), 1, s.t.run.limit - s.t.run.counter
  {
    hide ShapeOf, Formed, Eval, TickKid, End, NextCycle;
    KidMeans(m, s, 0);
    var o := TickKid(m, s, 0);
    SameRoot(s.t, o.s.t);
    if o.code.Ok? {
      EndMeans(o.s, o.status);
      if o.status == Failure {
        CycleMeans(o.s);
        var c := NextCycle(o.s, 0);
        if c.t.run.counter < c.t.run.limit { TriesMean(m, c); } else { EndMeans(c, Failure); }
      }
    }
  }

  lemma {:induction false} RoundsMean(m: nat, s: State)
    requires Underway(s) && |s.t.kids| == 1 == |ShapeOf(s.t).kids| && s.t.run.counter <= s.t.run.limit
    ensures Means(Rounds(ShapeOf(s.t), s.t.run.limit - s.t.run.counter, s.script), s, RepeatLoop(m, s, 0))
    decreases ShapeOf(s.t), 1, s.t.run.limit - s.t.run.counter
  {
    hide ShapeOf, Formed, Eval, TickKid, End, NextCycle;
    if s.t.run.counter == s.t.run.limit { EndMeans(s, Success); } else {
      KidMeans(m, s, 0);
      var o := TickKid(m, s, 0);
      SameRoot(s.t, o.s.t);
      if o.code.Ok? {
        CycleMeans(o.s);
        RoundsMean(m, NextCycle(o.s, 0));
      }
    }
  }

  lemma {:induction false} DecoratorMeans(m: nat, s: State)
    requires Decisive(s.script) && Formed(ShapeOf(s.t)) && AtStart(s.t)
    requires s.t.cfg.kind == Inverter || s.t.cfg.kind == ForceSuccess || s.t.cfg.kind == ForceFailure
    ensures Means(Eval(ShapeOf(s.t), s.script), s, TickDecorator(m, s))
    decreases ShapeOf(s.t), 1
  {
    hide ShapeOf, Formed, TickKid;
    FormedRoot(s.t);
    RootOf(s.t);
    KidMeans(m, s, 0);
  }

  // ---- whole activations, however many ticks they take -----------------------------------------------------

  /** Only leaves are asked, and with their answer. */
  ghost predicate LeavesOnly(calls: seq<Event>) {
    forall i :: 0 <= i < |calls| ==> calls[i].Handler? && !Stutters(calls[i])
  }

  lemma {:induction false} ValueCalls(sh: Shape, script: seq<Answer>)
    requires Formed(sh) && Decisive(script)
    ensures var v := Eval(sh, script); LeavesOnly(v.calls) && Decisive(v.rest)
    decreases sh, 1, 0
  {
    match sh.cfg.kind
    case Leaf =>
    case Sequence => ListCalls(sh, 0, script);
    case Fallback => ListCalls(sh, 0, script);
    case Retry => LoopCalls(sh, sh.cfg.limit, script);
    case Repeat => LoopCalls(sh, sh.cfg.limit, script);
    case _ => ValueCalls(sh.kids[0], script);
  }

  lemma {:induction false} ListCalls(sh: Shape, i: nat, script: seq<Answer>)
    requires Formed(sh) && i <= |sh.kids| && Decisive(script)
    ensures var v := AllFrom(sh, i, script); LeavesOnly(v.calls) && Decisive(v.rest)
    ensures var v := AnyFrom(sh, i, script); LeavesOnly(v.calls) && Decisive(v.rest)
    decreases sh, 0, |sh.kids| - i
  {
    hide Eval;
    if i < |sh.kids| {
      ValueCalls(sh.kids[i], script);
      ListCalls(sh, i + 1, Eval(sh.kids[i], script).rest);
    }
  }

  lemma {:induction false} LoopCalls(sh: Shape, n: nat, script: seq<Answer>)
    requires Formed(sh) && |sh.kids| == 1 && Decisive(script)
    ensures var v := Tries(sh, n, script); LeavesOnly(v.calls) && Decisive(v.rest)
    ensures var v := Rounds(sh, n, script); LeavesOnly(v.calls) && Decisive(v.rest)
    decreases sh, 0, n
  {
    hide Eval;
    if n > 0 {
      ValueCalls(sh.kids[0], script);
      LoopCalls(sh, n - 1, Eval(sh.kids[0], script).rest);
    }
  }

  lemma {:induction false} CallsAdded(trace: seq<Event>, calls: seq<Event>)
    requires LeavesOnly(calls)
    ensures LeafCalls(trace + calls) == LeafCalls(trace) + calls
    decreases |calls|
  {
    if calls == [] { assert trace + calls == trace; } else {
      var n := |calls| - 1;
      CallsAdded(trace, calls[..n]);
      LeafCallsStep(trace + calls[..n], calls[n]);
      assert trace + calls == trace + calls[..n] + [calls[n]];
    }
  }

  lemma {:induction false} TerminalsDecide(script: seq<Answer>)
    ensures Decisive(Terminals(script))
  {
    if script != [] { TerminalsDecide(script[1..]); }
  }

  lemma {:induction false} ValidFormed(m: nat, maxDepth: nat, t: Tree)
    requires Plain(ShapeOf(t)) && ValidTree(m, maxDepth, t)
    ensures Formed(ShapeOf(t))
  {
    forall i | 0 <= i < |t.kids| ensures Formed(ShapeOf(t).kids[i]) {
      ShapeKid(t, i);
      ValidFormed(m, maxDepth, t.kids[i]);
    }
  }

  lemma {:induction false} FreshAtStart(sh: Shape)
    ensures AtStart(FreshOf(sh))
  {
    forall i | 0 <= i < |sh.kids| ensures AtStart(FreshOf(sh).kids[i]) { FreshAtStart(sh.kids[i]); }
  }

  lemma {:induction false} PlainUnresolved(sh: Shape)
    requires Plain(sh)
    ensures NoResolvers(sh)
  {
    forall i | 0 <= i < |sh.kids| ensures NoResolvers(sh.kids[i]) { PlainUnresolved(sh.kids[i]); }
  }

  /** A reset takes a plain tree to a start, wherever it was. */
  lemma ResetAtStart(m: nat, s: State)
    requires Mild(m, s.t) && Plain(ShapeOf(s.t)) && !s.t.run.branchPrepared
    ensures AtStart(ResetNode(s, true).t)
  {
    hide Mild, Plain, ResetNode, NoResolvers, Renewed, ShapeOf, FreshOf, AtStart;
    ResetRenews(m, s);
    PlainUnresolved(ShapeOf(s.t));
    RenewedIsFresh(m, s.t);
    FreshAtStart(ShapeOf(s.t));
  }

  /** The public reply to an activation is the value of the tree over the answers that are not
      RUNNING: the same status, the same leaves asked with the same answers, the same answers
      left; and the tree is at a start again. */
  ghost predicate Answers(x: Machine, r: Reply)
    requires x.root.Some? && Formed(ShapeOf(x.root.value))
  {
    var v := Eval(ShapeOf(x.root.value), Terminals(x.script));
    && (v.ok ==> r.code.Ok? && r.status == AsStatus(v.holds))
    && (!v.ok ==> r.code == EInval)
    && LeafCalls(r.machine.trace) == LeafCalls(x.trace) + v.calls
    && Terminals(r.machine.script) == v.rest
    && r.machine.root.Some? && AtStart(r.machine.root.value)
  }

  lemma {:induction false} DriveKeeps(m: nat, S: set<Key>, s: State, n: nat)
    requires Resettable(m, S, s) && Inv(m, s.t)
    ensures var o := Drive(m, s, n); Mild(m, o.s.t) && Keeps(s, o)
    decreases n
  {
    hide Inv, TickNode, ShapeOf, Mild, Sane, Tracks;
    TickNodeSound(m, S, s);
    var o := TickNode(m, s);
    if n > 0 && Yields(o) { DriveKeeps(m, S, o.s, n - 1); }
  }

  lemma DriveMeans(x: Machine, n: nat)
    requires Healthy(x) && x.root.Some? && Plain(ShapeOf(x.root.value)) && AtStart(x.root.value)
    requires Formed(ShapeOf(x.root.value)) && ValidTree(x.m, x.maxDepth, x.root.value)
    requires !TreeYields(DriveTree(x, n))
    ensures Answers(x, DriveTree(x, n))
  {
    hide Inv, Plain, Formed, TickNode, ShapeOf, Sane, Replay, Open, Mild, ValidTree, IdsUpTo, LeafCalls, Quiet,
      Terminals, ResetNode, Drive, AtStart, Eval;
    var s := State(x.script, x.trace, x.root.value);
    var d, v := Drive(x.m, s, n), Eval(ShapeOf(s.t), Terminals(s.script));
    DriveTreeIs(x, n);
    AnsweredYields(x, d);
    InvIsMild(x.m, s.t);
    RootTracks(x);
    StutterInvariance(x.m, {}, s, n);
    TerminalsDecide(s.script);
    TickMeans(x.m, Strip(s));
    ValueCalls(ShapeOf(s.t), Terminals(s.script));
    CallsAdded(Quiet(s.trace), v.calls);
    QuietKeepsCalls(s.trace);
    QuietKeepsCalls(d.s.trace);
    if !d.code.Ok? {
      ResetCallsNoLeaf(d.s, true);
      DriveKeeps(x.m, {}, s, n);
      ResetAtStart(x.m, d.s);
    }
  }

  /** A plain tree at a start, whatever its answers and however many public ticks it takes until
      it no longer yields: the reply is the value of the tree. An ill-formed tree is refused. */
  lemma ActivationMeans(x: Machine, n: nat)
    requires Healthy(x) && x.root.Some? && Plain(ShapeOf(x.root.value)) && AtStart(x.root.value)
    requires !TreeYields(DriveTree(x, n))
    ensures ValidTree(x.m, x.maxDepth, x.root.value) ==>
      Formed(ShapeOf(x.root.value)) && Answers(x, DriveTree(x, n))
    ensures !ValidTree(x.m, x.maxDepth, x.root.value) ==> DriveTree(x, n) == Reply(ResetTree(x), EInval, Failure)
  {
    hide Healthy, Plain, AtStart, ShapeOf, Answers, Formed, ResetTree, ValidTree;
    if ValidTree(x.m, x.maxDepth, x.root.value) {
      ValidFormed(x.m, x.maxDepth, x.root.value);
      DriveMeans(x, n);
    }
  }

  /** A plain tree that public calls have brought into any state is at a start after a reset, and
      from each start on its activations answer its value and end at a start. */
  lemma ReachableMeaning(m: nat, maxNodes: nat, maxDepth: nat, script: seq<Answer>, ops: seq<Op>, n: nat)
    ensures var x := Perform(Empty(m, maxNodes, maxDepth, script), ops);
      x.root.Some? && Plain(ShapeOf(x.root.value)) ==>
        && ResetTree(x).root.Some? && AtStart(ResetTree(x).root.value)
        && (AtStart(x.root.value) && !TreeYields(DriveTree(x, n)) &&
            ValidTree(x.m, x.maxDepth, x.root.value) ==>
              Formed(ShapeOf(x.root.value)) && Answers(x, DriveTree(x, n)))
  {
    var x := Perform(Empty(m, maxNodes, maxDepth, script), ops);
    RunHealthy(Empty(m, maxNodes, maxDepth, script), ops);
    hide Perform, Plain, AtStart, ShapeOf, DriveTree, Answers, Formed, ValidTree, Inv, Sane, Replay, Open, IdsUpTo;
    if x.root.Some? && Plain(ShapeOf(x.root.value)) {
      var t := x.root.value;
      InvIsMild(x.m, t);
      ResetAtStart(x.m, State(x.script, x.trace, t));
      if AtStart(t) && !TreeYields(DriveTree(x, n)) { ActivationMeans(x, n); }
    }
  }

  // ---- what the value says of flat trees --------------------------------------------------------------------

  /** The status leaf k of a flat control would be answered when each leaf takes one answer. */
  function StatusAt(script: seq<Answer>, k: nat): Option<Status> {
    if k < |script| then script[k].status else Some(Success)
  }

  ghost predicate Flat(sh: Shape) {
    Formed(sh) && forall i :: 0 <= i < |sh.kids| ==> sh.kids[i].cfg.kind == Leaf
  }

  /** The leaves first, first + 1, .. have been asked with their answers. */
  ghost predicate AskedInTurn(sh: Shape, first: nat, script: seq<Answer>, calls: seq<Event>) {
    first + |calls| <= |sh.kids| &&
    forall k :: 0 <= k < |calls| ==> calls[k] == Handler(sh.kids[first + k].cfg.path, StatusAt(script, k))
  }

  /** It holds exactly when the next `left` answers are SUCCESS; the leaves are asked in order,
      up to and including the first that answers otherwise. */
  ghost predicate FirstDecides(left: nat, script: seq<Answer>, v: Value) {
    && |v.calls| <= left
    && (v.ok && v.holds <==> forall k :: 0 <= k < left ==> StatusAt(script, k) == Some(Success))
    && (v.ok && v.holds ==> |v.calls| == left)
    && (!(v.ok && v.holds) ==>
          && |v.calls| > 0 && StatusAt(script, |v.calls| - 1) != Some(Success)
          && (v.ok <==> StatusAt(script, |v.calls| - 1).Some?)
          && forall k :: 0 <= k < |v.calls| - 1 ==> StatusAt(script, k) == Some(Success))
  }

  lemma {:induction false} FlatSequence(sh: Shape, i: nat, script: seq<Answer>)
    requires Flat(sh) && i <= |sh.kids|
    ensures var v := AllFrom(sh, i, script);
      AskedInTurn(sh, i, script, v.calls) && FirstDecides(|sh.kids| - i, script, v)
    decreases |sh.kids| - i
  {
    hide Formed, Eval, AskedInTurn, FirstDecides;
    if i < |sh.kids| {
      LeafValue(sh, i, script);
      FlatSequence(sh, i + 1, Later(script));
      OneAsked(sh, i, script, AllFrom(sh, i + 1, Later(script)));
    } else {
      NoneAsked(sh, script);
    }
  }

  lemma NoneAsked(sh: Shape, script: seq<Answer>)
    ensures var v := Value(true, true, [], script);
      AskedInTurn(sh, |sh.kids|, script, v.calls) && FirstDecides(0, script, v)
  {
  }

  function Later(script: seq<Answer>): seq<Answer> {
    if script == [] then [] else script[1..]
  }

  lemma Shift(script: seq<Answer>, k: nat)
    requires k > 0
    ensures StatusAt(script, k) == StatusAt(Later(script), k - 1)
  {
  }

  lemma AllShift(script: seq<Answer>, n: nat)
    ensures (forall k :: 0 <= k < n + 1 ==> StatusAt(script, k) == Some(Success)) <==>
      (StatusAt(script, 0) == Some(Success) &&
       forall k :: 0 <= k < n ==> StatusAt(Later(script), k) == Some(Success))
  {
    forall k | 0 < k < n + 1 ensures StatusAt(script, k) == StatusAt(Later(script), k - 1) { Shift(script, k); }
    hide StatusAt;
    if forall k :: 0 <= k < n + 1 ==> StatusAt(script, k) == Some(Success) {
      forall k | 0 <= k < n ensures StatusAt(Later(script), k) == Some(Success) {
        assert StatusAt(script, k + 1) == Some(Success);
      }
    }
  }

  lemma OneAsked(sh: Shape, i: nat, script: seq<Answer>, w: Value)
    requires i < |sh.kids|
    requires AskedInTurn(sh, i + 1, Later(script), w.calls) && FirstDecides(|sh.kids| - i - 1, Later(script), w)
    ensures var v := Ask(sh.kids[i].cfg.path, script);
      var u := if v.ok && v.holds then Then(v, w) else v;
      AskedInTurn(sh, i, script, u.calls) && FirstDecides(|sh.kids| - i, script, u)
  {
    var v := Ask(sh.kids[i].cfg.path, script);
    assert v.calls == [Handler(sh.kids[i].cfg.path, StatusAt(script, 0))];
    assert (v.ok <==> StatusAt(script, 0).Some?) && (v.holds <==> StatusAt(script, 0) == Some(Success));
    hide StatusAt, Later, Ask;
    if v.ok && v.holds {
      MoreAsked(sh, i, script, v, w);
      DecidesLater(|sh.kids| - i - 1, script, v, w);
    }
  }

  lemma MoreAsked(sh: Shape, i: nat, script: seq<Answer>, v: Value, w: Value)
    requires i < |sh.kids| && v.calls == [Handler(sh.kids[i].cfg.path, StatusAt(script, 0))]
    requires AskedInTurn(sh, i + 1, Later(script), w.calls)
    ensures AskedInTurn(sh, i, script, Then(v, w).calls)
  {
    hide StatusAt, Later;
    var calls := Then(v, w).calls;
    forall k | 0 < k < |calls| ensures calls[k] == Handler(sh.kids[i + k].cfg.path, StatusAt(script, k)) {
      Shift(script, k);
      assert calls[k] == w.calls[k - 1];
    }
  }

  lemma DecidesLater(left: nat, script: seq<Answer>, v: Value, w: Value)
    requires |v.calls| == 1 && StatusAt(script, 0) == Some(Success) && FirstDecides(left, Later(script), w)
    ensures FirstDecides(left + 1, script, Then(v, w))
  {
    hide StatusAt, Later;
    AllShift(script, left);
    if !(w.ok && w.holds) {
      AllShift(script, |w.calls| - 1);
      Shift(script, |w.calls|);
    }
  }

  lemma LeafValue(sh: Shape, i: nat, script: seq<Answer>)
    requires Formed(sh) && i < |sh.kids| && sh.kids[i].cfg.kind == Leaf
    ensures Formed(sh.kids[i]) && Eval(sh.kids[i], script) == Ask(sh.kids[i].cfg.path, script)
  {
  }
}
