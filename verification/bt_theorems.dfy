/** Consequences of the invariant and the protocol that a user of the library can rely on. */
module BtTheorems {
  import opened Wrappers
  import opened BtTypes
  import opened BtSemantics
  import opened BtInvariant
  import opened BtProtocol
  import opened BtSoundness
  import opened BtRuns

  // ---- single active path ---------------------------------------------------------------

  /** Below every control node that is not a Parallel at most one child is active; for the
      cursor-driven kinds without an in-tree condition it is the child under the cursor. */
  ghost predicate SinglePath(t: Tree) {
    && (t.cfg.kind != Parallel ==>
          forall i, j :: 0 <= i < j < |t.kids| ==> Idle(t.kids[i]) || Idle(t.kids[j]))
    && (UsesCursor(t.cfg.kind) && (t.cfg.condition || !IsGuarded(t.cfg.kind)) ==>
          forall i :: 0 <= i < |t.kids| && !Idle(t.kids[i]) ==> i == t.run.cursor)
    && forall i :: 0 <= i < |t.kids| ==> SinglePath(t.kids[i])
  }

  lemma {:induction false} InvSinglePath(m: nat, t: Tree)
    requires Inv(m, t) && Sane(ShapeOf(t))
    ensures SinglePath(t)
  {
    hide Idle;
    forall i | 0 <= i < |t.kids| ensures SinglePath(t.kids[i]) {
      SaneKid(t, i);
      InvSinglePath(m, t.kids[i]);
    }
    assert t.cfg.kind == Leaf || IsSingleChild(t.cfg.kind) ==> |t.kids| <= 1 by { SaneRoot(t); }
    assert UsesCursor(t.cfg.kind) || IsSingleChild(t.cfg.kind) || t.cfg.kind == Leaf || t.cfg.kind == Parallel;
  }

  /** In every state that public calls can reach there is a single active path. */
  lemma ReachableSinglePath(m: nat, maxNodes: nat, maxDepth: nat, script: seq<Answer>, ops: seq<Op>)
    ensures var x := Perform(Empty(m, maxNodes, maxDepth, script), ops);
      x.root.Some? ==> SinglePath(x.root.value)
  {
    var x := Perform(Empty(m, maxNodes, maxDepth, script), ops);
    RunHealthy(Empty(m, maxNodes, maxDepth, script), ops);
    if x.root.Some? { InvSinglePath(x.m, x.root.value); }
  }

  // ---- what a replayable history means ----------------------------------------------------

  /** The action starts an activation of k. */
  predicate Opens(e: Event, k: Key) {
    match e
    case Handler(p, a) => k == LeafKey(p) && a == Some(Running)
    case Prepare(p, _, _) => k == AdapterKey(p)
    case Begin(p, code, item) => k == AdapterKey(p) && (!code.Ok? || item)
    case Enter(_, b, _, first, _) => k == BranchKey(b) && first
    case _ => false
  }

  /** The action ends an activation of k: a closing action, or a terminal leaf answer. */
  predicate Ends(e: Event, k: Key) {
    Closes(e, k) || (e.Handler? && k == LeafKey(e.path) && e.answer.Some? && e.answer.value != Running)
  }

  ghost function OpenAfter(trace: seq<Event>, n: nat): Option<set<Key>>
    requires n <= |trace|
  {
    Replay(trace[..n])
  }

  lemma {:induction false} PrefixReplays(trace: seq<Event>, n: nat)
    requires Replay(trace).Some? && n <= |trace|
    ensures OpenAfter(trace, n).Some?
    decreases |trace| - n
  {
    if n == |trace| {
      assert trace[..n] == trace;
    } else {
      PrefixReplays(trace, n + 1);
      assert trace[..n + 1] == trace[..n] + [trace[n]];
      ReplayStep(trace[..n], trace[n]);
    }
  }

  lemma StepAt(trace: seq<Event>, n: nat)
    requires Replay(trace).Some? && n < |trace|
    ensures OpenAfter(trace, n).Some? && OpenAfter(trace, n + 1).Some?
    ensures OpenAfter(trace, n + 1) == Advance(OpenAfter(trace, n).value, trace[n])
  {
    PrefixReplays(trace, n);
    PrefixReplays(trace, n + 1);
    assert trace[..n + 1] == trace[..n] + [trace[n]];
    ReplayStep(trace[..n], trace[n]);
  }

  /** A bracket that is closed after i and open before j was opened in between. */
  lemma {:induction false} OpenedBetween(trace: seq<Event>, i: nat, j: nat, k: Key) returns (l: nat)
    requires Replay(trace).Some? && i <= j <= |trace|
    requires OpenAfter(trace, i).Some? && k !in OpenAfter(trace, i).value
    requires OpenAfter(trace, j).Some? && k in OpenAfter(trace, j).value
    ensures i <= l < j && Opens(trace[l], k)
    decreases j - i
  {
    StepAt(trace, i);
    if Opens(trace[i], k) {
      l := i;
    } else {
      l := OpenedBetween(trace, i + 1, j, k);
    }
  }

  /** A bracket that is open after i and closed before j was ended in between. */
  lemma {:induction false} EndedBetween(trace: seq<Event>, i: nat, j: nat, k: Key) returns (l: nat)
    requires Replay(trace).Some? && i <= j <= |trace|
    requires OpenAfter(trace, i).Some? && k in OpenAfter(trace, i).value
    requires OpenAfter(trace, j).Some? && k !in OpenAfter(trace, j).value
    ensures i <= l < j && Ends(trace[l], k)
    decreases j - i
  {
    StepAt(trace, i);
    if Ends(trace[i], k) {
      l := i;
    } else {
      l := EndedBetween(trace, i + 1, j, k);
    }
  }

  /** Never closed twice: between two closing actions on a bracket it was opened again. */
  lemma ClosedOnce(trace: seq<Event>, i: nat, j: nat, k: Key)
    requires Replay(trace).Some? && i < j < |trace|
    requires Closes(trace[i], k) && Closes(trace[j], k)
    ensures exists l :: i < l < j && Opens(trace[l], k)
  {
    StepAt(trace, i);
    StepAt(trace, j);
    var l := OpenedBetween(trace, i + 1, j, k);
  }

  /** Never closed while something inside it is open. */
  lemma ClosedInsideOut(trace: seq<Event>, j: nat, k: Key, x: Key)
    requires Replay(trace).Some? && j < |trace| && Closes(trace[j], k) && Inside(x, k)
    ensures OpenAfter(trace, j).Some? && x !in OpenAfter(trace, j).value
  {
    StepAt(trace, j);
  }

  /** In a history that ends with nothing open every activation was ended. */
  lemma EveryActivationEnds(trace: seq<Event>, i: nat, k: Key)
    requires Replay(trace) == Some({}) && i < |trace| && Opens(trace[i], k)
    ensures exists j :: i < j < |trace| && Ends(trace[j], k)
  {
    StepAt(trace, i);
    assert trace[..|trace|] == trace;
    var j := EndedBetween(trace, i + 1, |trace|, k);
  }

  /** One activation of k, from its start at i to its end at j: the bracket is closed before i,
      open throughout, and closed after j, and at a closing action all inside it is closed. */
  ghost predicate Activation(trace: seq<Event>, i: nat, j: nat, k: Key)
    requires Replay(trace).Some?
  {
    && i < j < |trace| && Opens(trace[i], k) && Ends(trace[j], k)
    && !IsOpen(trace, i, k) && !IsOpen(trace, j + 1, k)
    && (forall l :: i < l <= j ==> IsOpen(trace, l, k))
    && (Closes(trace[j], k) ==> forall x :: Inside(x, k) ==> !IsOpen(trace, j, x))
  }

  /** The bracket is open after the first n actions. */
  ghost predicate IsOpen(trace: seq<Event>, n: nat, k: Key) {
    n <= |trace| && OpenAfter(trace, n).Some? && k in OpenAfter(trace, n).value
  }

  /** One action: it opens, ends or leaves a bracket. */
  lemma OneAction(trace: seq<Event>, n: nat, k: Key)
    requires Replay(trace).Some? && n < |trace|
    ensures !IsOpen(trace, n, k) && IsOpen(trace, n + 1, k) ==> Opens(trace[n], k)
    ensures IsOpen(trace, n, k) && !IsOpen(trace, n + 1, k) ==> Ends(trace[n], k)
    ensures Opens(trace[n], k) ==> IsOpen(trace, n + 1, k)
    ensures Closes(trace[n], k) ==> IsOpen(trace, n, k) && !IsOpen(trace, n + 1, k)
    ensures Closes(trace[n], k) ==> forall x :: Inside(x, k) ==> !IsOpen(trace, n, x)
  {
    StepAt(trace, n);
    AdvanceEffect(OpenAfter(trace, n).value, trace[n], k);
    hide OpenAfter, Replay, Opens, Ends, Closes, Inside, BtProtocol.Advance;
  }

  lemma AdvanceEffect(open: set<Key>, e: Event, k: Key)
    requires BtProtocol.Advance(open, e).Some?
    ensures var after := BtProtocol.Advance(open, e).value;
      && (k !in open && k in after ==> Opens(e, k))
      && (k in open && k !in after ==> Ends(e, k))
      && (Opens(e, k) ==> k in after)
      && (Closes(e, k) ==> k in open && k !in after && forall x :: Inside(x, k) ==> x !in open)
  {
  }

  /** From a moment at which k is open to its end. */
  lemma {:induction false} NextEnd(trace: seq<Event>, i: nat, k: Key) returns (j: nat)
    requires Replay(trace) == Some({}) && i <= |trace| && IsOpen(trace, i, k)
    ensures i <= j < |trace| && Ends(trace[j], k) && !IsOpen(trace, j + 1, k)
    ensures forall l :: i <= l <= j ==> IsOpen(trace, l, k)
    decreases |trace| - i
  {
    assert i < |trace| by { assert trace[..|trace|] == trace; }
    OneAction(trace, i, k);
    hide IsOpen, Replay;
    if IsOpen(trace, i + 1, k) { j := NextEnd(trace, i + 1, k); } else { j := i; }
  }

  /** From a moment at which k is open back to its start. */
  lemma {:induction false} LastStart(trace: seq<Event>, j: nat, k: Key) returns (i: nat)
    requires Replay(trace).Some? && j <= |trace| && IsOpen(trace, j, k)
    ensures i < j && Opens(trace[i], k) && !IsOpen(trace, i, k)
    ensures forall l :: i < l <= j ==> IsOpen(trace, l, k)
    decreases j
  {
    assert j > 0;
    OneAction(trace, j - 1, k);
    hide IsOpen, Replay;
    if IsOpen(trace, j - 1, k) { i := LastStart(trace, j - 1, k); } else { i := j - 1; }
  }

  /** In a history that ends closed every start of an activation has its one end, and every
      closing action is the end of one activation. */
  ghost predicate Bracketed(trace: seq<Event>)
    requires Replay(trace).Some?
  {
    && (forall i: nat, k :: i < |trace| && Opens(trace[i], k) && !IsOpen(trace, i, k) ==>
          exists j :: Activation(trace, i, j, k))
    && (forall j: nat, k :: j < |trace| && Closes(trace[j], k) ==> exists i :: Activation(trace, i, j, k))
  }

  lemma ClosedIsBracketed(trace: seq<Event>)
    requires Replay(trace) == Some({})
    ensures Bracketed(trace)
  {
    hide IsOpen, Replay, Opens, Ends, Closes, Inside;
    forall i: nat, k | i < |trace| && Opens(trace[i], k) && !IsOpen(trace, i, k)
      ensures exists j :: Activation(trace, i, j, k)
    {
      OneAction(trace, i, k);
      var j := NextEnd(trace, i + 1, k);
      OneAction(trace, j, k);
      assert Activation(trace, i, j, k);
    }
    forall j: nat, k | j < |trace| && Closes(trace[j], k) ensures exists i :: Activation(trace, i, j, k) {
      OneAction(trace, j, k);
      ClosingEnds(trace[j], k);
      var i := LastStart(trace, j, k);
      assert Activation(trace, i, j, k);
    }
  }

  lemma ClosingEnds(e: Event, k: Key)
    requires Closes(e, k)
    ensures Ends(e, k)
  {
  }

  /** An activation has one end and one start. */
  lemma ActivationUnique(trace: seq<Event>, i: nat, j: nat, i': nat, j': nat, k: Key)
    requires Replay(trace).Some? && Activation(trace, i, j, k) && Activation(trace, i', j', k)
    ensures i == i' <==> j == j'
    ensures i < i' ==> j < i'
  {
    hide IsOpen, Replay, Opens, Ends, Closes, Inside;
  }

  /** After any run of public calls that finishes with a reset, a cancel, or a tick of a tree
      that does not answer OK with RUNNING, all activations in the history are complete. */
  lemma RunBracketed(m: nat, maxNodes: nat, maxDepth: nat, script: seq<Answer>, ops: seq<Op>, last: Op)
    ensures var x := Perform(Empty(m, maxNodes, maxDepth, script), ops);
      var r := Do(x, last);
      last.Reset? || last.Cancel? || (last.Tick? && x.root.Some? && !(r.code.Ok? && r.status == Running)) ==>
        Replay(r.machine.trace) == Some({}) && Bracketed(r.machine.trace)
  {
    var x := Perform(Empty(m, maxNodes, maxDepth, script), ops);
    RunHealthy(Empty(m, maxNodes, maxDepth, script), ops);
    DoHealthy(x, last);
    hide Perform, Do, Healthy, Replay, Bracketed;
    var z := Do(x, last).machine.trace;
    if Replay(z) == Some({}) { ClosedIsBracketed(z); }
  }

  // ---- Parallel ------------------------------------------------------------------------------

  /** Reference form of the branch loop: every branch is ticked, none is skipped. */
  function EveryBranch(m: nat, s: State, i: nat, sofar: Status): (o: Out)
    requires i <= |s.t.kids|
    decreases |s.t.kids| - i
  {
    if i == |s.t.kids| then Out(s, Ok, sofar)
    else
      var o := TickBranchAnyway(m, s, i);
      if !o.code.Ok? then o
      else EveryBranch(m, o.s, i + 1, Aggregate(sofar, o.status))
  }

  function TickBranchAnyway(m: nat, s: State, i: nat): (o: Out)
    requires i < |s.t.kids|
    ensures Keeps(s, o)
  {
    if !s.t.cfg.hooks then
      var o := TickKid(m, s, i);
      if !o.code.Ok? then Fail(o.s, o.code) else o
    else
      var a := Next(s);
      var entered := Call(SetBranch(s, i, true),
        Enter(s.t.cfg.path, s.t.kids[i].cfg.path, i, !s.t.kids[i].run.branchPrepared, a.code));
      if !a.code.Ok? then Fail(entered, a.code) else TickEntered(m, entered, i)
  }

  ghost predicate SomeKid(t: Tree, n: nat, st: Status)
    requires n <= |t.kids|
  {
    exists j :: 0 <= j < n && t.kids[j].run.last == st
  }

  /** What the statuses of the first n branches add up to. */
  ghost predicate Adds(t: Tree, n: nat, st: Status)
    requires n <= |t.kids|
  {
    st == if SomeKid(t, n, Running) then Running else if SomeKid(t, n, Failure) then Failure else Success
  }

  /** The branch loop skips no branch that has not been ticked in this activation. */
  lemma {:induction false} BranchesTickedOnce(m: nat, S: set<Key>, s: State, i: nat, sofar: Status)
    requires Mid(m, S, s) && s.t.cfg.kind == Parallel && i <= |s.t.kids|
    requires TerminalIdle(s.t, 0) && NoTerminal(s.t, i, |s.t.kids|) && Adds(s.t, i, sofar)
    ensures BranchLoop(m, s, i, sofar) == EveryBranch(m, s, i, sofar)
    ensures var o := BranchLoop(m, s, i, sofar); o.code.Ok? ==> Adds(o.s.t, |o.s.t.kids|, o.status)
    decreases |s.t.kids| - i
  {
    hide Resettable, Idle, KidsInv, ShapeOf, TickKid, TickEntered, Fail, SetBranch;
    if i < |s.t.kids| {
      TickBranchSound(m, S, s, i);
      var o := TickBranch(m, s, i);
      assert o == TickBranchAnyway(m, s, i);
      if o.code.Ok? {
        assert forall j :: 0 <= j < |s.t.kids| && j != i ==> o.s.t.kids[j] == s.t.kids[j];
        assert Adds(o.s.t, i + 1, Aggregate(sofar, o.status)) by {
          assert SomeKid(o.s.t, i + 1, Running) <==> SomeKid(s.t, i, Running) || o.status == Running;
          assert SomeKid(o.s.t, i + 1, Failure) <==> SomeKid(s.t, i, Failure) || o.status == Failure;
        }
        BranchesTickedOnce(m, S, o.s, i + 1, Aggregate(sofar, o.status));
      }
    }
  }

  /** A successful tick of a Parallel: each branch is ticked exactly once, in child order, and
      the status is RUNNING if some branch runs, else FAILURE if some branch failed, else SUCCESS. */
  ghost predicate TicksAllBranches(m: nat, s: State) {
    var o, b := TickNode(m, s), EveryBranch(m, SetRun(s, s.t.run.(evaluated := false)), 0, Success);
    o.code.Ok? ==> b.code.Ok? && o.status == b.status && Adds(b.s.t, |b.s.t.kids|, b.status)
  }

  /** The tick of any Parallel in a state of the invariant. */
  lemma ParallelTick(m: nat, S: set<Key>, s: State)
    requires Resettable(m, S, s) && Inv(m, s.t) && s.t.cfg.kind == Parallel
    ensures TicksAllBranches(m, s)
  {
    var armed := SetRun(s, s.t.run.(evaluated := false));
    NoParallelResolver(s.t);
    if s.t.kids != [] {
      InvParts(m, S, s);
      ParamStep(m, S, s, s.t.run.(evaluated := false));
      ParallelLoop(m, S, armed);
    }
    ParallelStatus(m, s, armed);
    hide BranchLoop, EveryBranch, InvNode, Mid, ShapeOf, Resettable, TickNode;
  }

  lemma ParallelLoop(m: nat, S: set<Key>, s: State)
    requires Mid(m, S, s) && InvNode(m, s.t) && s.t.cfg.kind == Parallel
    ensures var b := BranchLoop(m, s, 0, Success);
      b == EveryBranch(m, s, 0, Success) && (b.code.Ok? ==> Adds(b.s.t, |b.s.t.kids|, b.status))
  {
    hide Idle, Resettable, KidsInv, BranchLoop, EveryBranch;
    BranchesTickedOnce(m, S, s, 0, Success);
  }

  lemma NoParallelResolver(t: Tree)
    requires Sane(ShapeOf(t)) && t.cfg.kind == Parallel
    ensures t.cfg.resolver.NoResolver?
  {
  }

  lemma ParallelStatus(m: nat, s: State, armed: State)
    requires s.t.cfg.kind == Parallel && s.t.cfg.resolver.NoResolver?
    requires armed == SetRun(s, s.t.run.(evaluated := false))
    ensures var o, b := TickNode(m, s), BranchLoop(m, armed, 0, Success);
      o.code.Ok? ==> s.t.kids != [] && b.code.Ok? && o.status == b.status
  {
    TickUnresolved(m, s);
    hide TickNode, BranchLoop, FinishLoop, ShapeOf, Fail, End, Report;
    assert Dispatch(m, armed) == TickParallel(m, armed);
  }

  /** What a node of a tree in a state of the invariant needs to be ticked on its own. */
  lemma {:induction false} NodeReady(m: nat, S: set<Key>, s: State, p: Path) returns (R: set<Key>)
    requires Resettable(m, S, s) && Inv(m, s.t) && Lookup(s.t, p).Some?
    ensures Resettable(m, R, s.(t := Lookup(s.t, p).value)) && Inv(m, Lookup(s.t, p).value)
    decreases s.t
  {
    hide Resettable, Inv, Mid;
    if s.t.cfg.path == p {
      R := S;
    } else {
      var i := KidToward(s.t.kids, p);
      InvParts(m, S, s);
      KidReady(m, S, s, i);
      R := NodeReady(m, S + Own(s.t) + Others(s.t, i), Focus(s, i), p);
    }
  }

  /** In every reachable state, every Parallel of the tree ticks all its branches when it is
      ticked next, whatever its host then answers. */
  lemma ReachableParallel(m: nat, maxNodes: nat, maxDepth: nat, script: seq<Answer>, ops: seq<Op>,
                          p: Path, later: seq<Answer>)
    ensures var x := Perform(Empty(m, maxNodes, maxDepth, script), ops);
      x.root.Some? && Lookup(x.root.value, p).Some? && Lookup(x.root.value, p).value.cfg.kind == Parallel ==>
        TicksAllBranches(x.m, State(later, x.trace, Lookup(x.root.value, p).value))
  {
    var x := Perform(Empty(m, maxNodes, maxDepth, script), ops);
    RunHealthy(Empty(m, maxNodes, maxDepth, script), ops);
    hide Perform, Inv, Sane, Replay, Open, Mild, TicksAllBranches;
    if x.root.Some? && Lookup(x.root.value, p).Some? && Lookup(x.root.value, p).value.cfg.kind == Parallel {
      var s := State(later, x.trace, x.root.value);
      InvIsMild(x.m, s.t);
      RootTracks(x.(script := later));
      var R := NodeReady(x.m, {}, s, p);
      ParallelTick(x.m, R, s.(t := Lookup(s.t, p).value));
    }
  }

  // ---- reset equals fresh ---------------------------------------------------------------------

  /** The tree in its just-constructed state, except that parameters a resolver has set stay. */
  function Renewed(t: Tree): Tree {
    Node(t.cfg, FreshRun(t.cfg).(limit := t.run.limit, duration := t.run.duration),
         seq(|t.kids|, i requires 0 <= i < |t.kids| => Renewed(t.kids[i])))
  }

  /** The tree that construction alone would give. */
  function FreshOf(sh: Shape): Tree {
    Node(sh.cfg, FreshRun(sh.cfg), seq(|sh.kids|, i requires 0 <= i < |sh.kids| => FreshOf(sh.kids[i])))
  }

  ghost predicate NoResolvers(sh: Shape) {
    sh.cfg.resolver.NoResolver? && forall i :: 0 <= i < |sh.kids| ==> NoResolvers(sh.kids[i])
  }

  lemma {:induction false} ResetRenews(m: nat, s: State)
    requires Mild(m, s.t) && !s.t.run.branchPrepared
    ensures ResetNode(s, true).t == Renewed(s.t)
    decreases ShapeOf(s.t), 1, 0
  {
    var c := Clear(s, true);
    ResetKidsRenew(m, c, 0);
    var r := ResetKids(c, 0, true).t;
    assert r.kids == Renewed(s.t).kids;
    assert ResetNode(s, true).t == r;
  }

  lemma {:induction false} ResetKidsRenew(m: nat, s: State, i: nat)
    requires Mild(m, s.t) && i <= |s.t.kids|
    ensures var r := ResetKids(s, i, true).t;
      && r.run == s.t.run && r.cfg == s.t.cfg && |r.kids| == |s.t.kids|
      && (forall j :: 0 <= j < i ==> r.kids[j] == s.t.kids[j])
      && (forall j :: i <= j < |r.kids| ==> r.kids[j] == Renewed(s.t.kids[j]))
    decreases ShapeOf(s.t), 0, |s.t.kids| - i
  {
    hide Renewed, ResetChild, Mild;
    if i < |s.t.kids| {
      var c := ResetChild(s, i, true);
      ChildRenews(m, s, i);
      MildKid(m, s.t, i, c.t.kids[i]);
      ResetKidsRenew(m, c, i + 1);
    }
  }

  lemma {:induction false} ChildRenews(m: nat, s: State, i: nat)
    requires Mild(m, s.t) && i < |s.t.kids|
    ensures var c := ResetChild(s, i, true).t;
      && c == s.t.(kids := s.t.kids[i := Renewed(s.t.kids[i])])
      && Mild(m, c.kids[i]) && !c.kids[i].run.branchPrepared
    decreases ShapeOf(s.t), 0, 0
  {
    var kid := s.t.kids[i];
    ShapeKid(s.t, i);
    var bare := kid.(run := kid.run.(branchPrepared := false));
    assert Mild(m, bare);
    SameShape(bare, kid);
    ResetRenews(m, Focus(s, i).(t := bare));
    MarkerCommutes(Focus(s, i), true, false);
    RenewedMild(m, bare);
    assert Renewed(bare) == Renewed(kid);
  }

  lemma {:induction false} RenewedMild(m: nat, t: Tree)
    requires Mild(m, t)
    ensures Mild(m, Renewed(t)) && !Renewed(t).run.branchPrepared
  {
    forall i | 0 <= i < |t.kids| ensures Mild(m, Renewed(t).kids[i]) && !Renewed(t).kids[i].run.branchPrepared {
      RenewedMild(m, t.kids[i]);
    }
  }

  lemma {:induction false} RenewedIsFresh(m: nat, t: Tree)
    requires Mild(m, t) && NoResolvers(ShapeOf(t))
    ensures Renewed(t) == FreshOf(ShapeOf(t))
  {
    forall i | 0 <= i < |t.kids| ensures Renewed(t).kids[i] == FreshOf(ShapeOf(t)).kids[i] {
      ShapeKid(t, i);
      RenewedIsFresh(m, t.kids[i]);
    }
    assert Renewed(t).kids == FreshOf(ShapeOf(t)).kids;
  }

  /** Resetting an idle subtree calls nobody. */
  lemma {:induction false} IdleResetSilent(s: State, clear: bool)
    requires Idle(s.t)
    ensures ResetNode(s, clear).trace == s.trace
    decreases ShapeOf(s.t), 1, 0
  {
    IdleKidsSilent(Clear(s, clear), 0, clear);
  }

  lemma {:induction false} IdleKidsSilent(s: State, i: nat, clear: bool)
    requires i <= |s.t.kids|
    requires forall j :: i <= j < |s.t.kids| ==> Idle(s.t.kids[j]) && !s.t.kids[j].run.branchPrepared
    ensures ResetKids(s, i, clear).trace == s.trace
    decreases ShapeOf(s.t), 0, |s.t.kids| - i
  {
    hide Idle;
    if i < |s.t.kids| {
      ShapeKid(s.t, i);
      IdleResetSilent(Focus(s, i), clear);
      var c := ResetChild(s, i, clear);
      IdleKidsSilent(c, i + 1, clear);
    }
  }

  /** After any run, a reset takes the tree back to the state that construction alone
      would have left (parameters a resolver has set excepted), and a second reset makes
      no callback. Without resolvers the tree is exactly a newly built one. */
  lemma ResetEqualsFresh(m: nat, maxNodes: nat, maxDepth: nat, script: seq<Answer>, ops: seq<Op>)
    ensures var x := Perform(Empty(m, maxNodes, maxDepth, script), ops);
      x.root.Some? ==>
        var r := ResetTree(x);
        && r.root == Some(Renewed(x.root.value))
        && ResetTree(r) == r
        && (NoResolvers(ShapeOf(x.root.value)) ==> r.root == Some(FreshOf(ShapeOf(x.root.value))))
  {
    var x := Perform(Empty(m, maxNodes, maxDepth, script), ops);
    RunHealthy(Empty(m, maxNodes, maxDepth, script), ops);
    if x.root.Some? {
      var t := x.root.value;
      var r := ResetTree(x);
      InvIsMild(x.m, t);
      ResetRenews(x.m, State(x.script, x.trace, t));
      HealthyResets(x);
      var s := State(r.script, r.trace, r.root.value);
      IdleResetSilent(s, true);
      RenewedMild(x.m, t);
      ResetRenews(x.m, s);
      RenewTwice(t);
      if NoResolvers(ShapeOf(t)) { RenewedIsFresh(x.m, t); }
    }
  }

  lemma {:induction false} RenewTwice(t: Tree)
    ensures Renewed(Renewed(t)) == Renewed(t)
  {
    forall i | 0 <= i < |t.kids| ensures Renewed(Renewed(t)).kids[i] == Renewed(t).kids[i] {
      RenewTwice(t.kids[i]);
    }
    assert Renewed(Renewed(t)).kids == Renewed(t).kids;
  }

  // ---- counters --------------------------------------------------------------------------------

  /** Loop counters and limits stay within m, a pipeline counter within the child count. */
  ghost predicate CountersBounded(m: nat, t: Tree) {
    && (IsLoop(t.cfg.kind) ==> t.run.counter <= m && t.run.limit <= m)
    && (t.cfg.kind == Pipeline ==> t.run.counter <= |t.kids|)
    && forall i :: 0 <= i < |t.kids| ==> CountersBounded(m, t.kids[i])
  }

  lemma {:induction false} InvBoundsCounters(m: nat, t: Tree)
    requires Inv(m, t)
    ensures CountersBounded(m, t)
  {
    hide Idle;
    forall i | 0 <= i < |t.kids| ensures CountersBounded(m, t.kids[i]) { InvBoundsCounters(m, t.kids[i]); }
  }

  /** In every reachable state, whatever limits the resolvers have supplied. */
  lemma ReachableCounters(m: nat, maxNodes: nat, maxDepth: nat, script: seq<Answer>, ops: seq<Op>)
    ensures var x := Perform(Empty(m, maxNodes, maxDepth, script), ops);
      x.root.Some? ==> CountersBounded(x.m, x.root.value)
  {
    var x := Perform(Empty(m, maxNodes, maxDepth, script), ops);
    RunHealthy(Empty(m, maxNodes, maxDepth, script), ops);
    hide Idle, Perform;
    if x.root.Some? { InvBoundsCounters(x.m, x.root.value); }
  }
}
