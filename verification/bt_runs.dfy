/** Whole runs: any sequence of public calls on one tree, with any host. */
module BtRuns {
  import opened Wrappers
  import opened BtTypes
  import opened BtSemantics
  import opened BtInvariant
  import opened BtProtocol
  import opened BtSoundness

  /** A tree handle: its limits, the nodes added so far, the host and the tree itself. */
  datatype Machine = Machine(
    m: nat, maxNodes: nat, maxDepth: nat, count: nat,
    script: seq<Answer>, trace: seq<Event>, root: Option<Tree>)

  /** What a constructor call asks for. */
  datatype NodeSpec = NodeSpec(
    kind: Kind, halt: bool, condition: bool, hooks: bool, abort: bool, limit: nat, duration: nat)

  /** Public calls; nodes are named by their path. */
  datatype Op =
    | Tick | Reset | Cancel
    | Add(parent: Option<Path>, spec: NodeSpec)
    | SetResolver(path: Path, resolver: Resolver)

  datatype Reply = Reply(machine: Machine, code: Code, status: Status)

  // ---- construction -----------------------------------------------------------------

  /** Index of the child on the way to path p, or NO_CHILD. */
  function KidToward(kids: seq<Tree>, p: Path): (i: int)
    ensures -1 <= i < |kids| && (i >= 0 ==> kids[i].cfg.path <= p)
  {
    if kids == [] then NO_CHILD
    else if kids[|kids| - 1].cfg.path <= p then |kids| - 1
    else KidToward(kids[..|kids| - 1], p)
  }

  function Lookup(t: Tree, p: Path): Option<Tree> {
    if t.cfg.path == p then Some(t)
    else
      var i := KidToward(t.kids, p);
      if i < 0 then None else Lookup(t.kids[i], p)
  }

  function AddAt(t: Tree, p: Path, n: Tree): Tree {
    if t.cfg.path == p then t.(kids := t.kids + [n])
    else
      var i := KidToward(t.kids, p);
      if i < 0 then t else t.(kids := t.kids[i := AddAt(t.kids[i], p, n)])
  }

  /** Combinations that some typed or generic constructor can produce. */
  predicate Proper(n: NodeSpec) {
    && (n.halt ==> n.kind == Leaf)
    && (n.condition ==> IsGuarded(n.kind))
    && (n.hooks ==> n.kind == Parallel)
    && (n.abort ==> IsAdapter(n.kind) || n.hooks)
    && (n.duration != 0 ==> IsTimed(n.kind))
  }

  predicate LimitAccepted(m: nat, n: NodeSpec) {
    if n.kind == Retry || n.kind == WhileDo || n.kind == KeepRunning then 0 < n.limit <= m
    else if n.kind == Repeat then n.limit <= m
    else n.limit == 0
  }

  predicate HasRoom(parent: Tree) {
    && parent.cfg.kind != Leaf
    && (IsSingleChild(parent.cfg.kind) ==> |parent.kids| < 1)
    && (parent.cfg.kind == IfThenElse ==> |parent.kids| < if parent.cfg.condition then 2 else 3)
    && (parent.cfg.kind == Precondition || parent.cfg.kind == WhileDo ==>
          |parent.kids| < if parent.cfg.condition then 1 else 2)
  }

  /** How many children validation allows. */
  predicate CountValid(k: Kind, condition: bool, n: nat) {
    && (k == Leaf ==> n == 0)
    && (IsSingleChild(k) ==> n == 1)
    && (k == Parallel || k == ReactiveSequence || k == ReactiveFallback || k == Switch ==> n > 0)
    && (k == IfThenElse ==> if condition then 1 <= n <= 2 else 2 <= n <= 3)
    && (k == Precondition || k == WhileDo ==> n == if condition then 1 else 2)
  }

  /** Adding accepts a child exactly when a valid node of this kind can have more children. */
  lemma RoomIsValidity(t: Tree)
    ensures HasRoom(t) <==> exists n: nat :: n > |t.kids| && CountValid(t.cfg.kind, t.cfg.condition, n)
  {
    var k, n := t.cfg.kind, |t.kids|;
    if HasRoom(t) {
      var more := if k == IfThenElse || ((k == Precondition || k == WhileDo) && !t.cfg.condition) then
                    (if n + 1 == 1 && !t.cfg.condition then 2 else n + 1)
                  else n + 1;
      assert more > n && CountValid(k, t.cfg.condition, more);
    }
  }

  function AddCode(x: Machine, parent: Option<Path>, n: NodeSpec): Code {
    if !Proper(n) || !LimitAccepted(x.m, n) then EInval
    else if parent.None? && x.root.Some? then EInval
    else if parent.Some? && (x.root.None? || Lookup(x.root.value, parent.value).None?) then EInval
    else if parent.Some? && (!HasRoom(Lookup(x.root.value, parent.value).value) ||
                             |parent.value| + 1 > x.maxDepth) then EInval
    else if x.count >= x.maxNodes then ENoBufs
    else Ok
  }

  function NewNode(p: Path, n: NodeSpec): Tree {
    var cfg := Config(p, n.kind, n.halt, n.condition, n.hooks, n.abort, n.limit, n.duration, NoResolver);
    Node(cfg, FreshRun(cfg), [])
  }

  function AddNode(x: Machine, parent: Option<Path>, n: NodeSpec): Reply {
    var code := AddCode(x, parent, n);
    if !code.Ok? then Reply(x, code, Failure)
    else
      var id := x.count + 1;
      var root := if parent.None? then NewNode([id], n)
                  else AddAt(x.root.value, parent.value, NewNode(parent.value + [id], n));
      Reply(x.(count := id, root := Some(root)), Ok, Failure)
  }

  /** EINVAL means that no capacity would help, ENOBUFS that nothing but capacity is missing. */
  lemma CapacityDecides(x: Machine, parent: Option<Path>, n: NodeSpec)
    ensures var code := AddNode(x, parent, n).code;
      && (code.EInval? <==> forall more: nat :: AddNode(x.(maxNodes := more), parent, n).code.EInval?)
      && (code.ENoBufs? <==> !code.EInval? && x.count >= x.maxNodes)
      && (code.Ok? <==> !code.EInval? && x.count < x.maxNodes)
  {
    hide Lookup, AddAt, NewNode, HasRoom, Proper, LimitAccepted;
    forall more: nat
      ensures AddNode(x.(maxNodes := more), parent, n).code.EInval? <==> AddNode(x, parent, n).code.EInval? {}
  }

  // ---- resolvers ------------------------------------------------------------------------

  function ResolverCode(x: Machine, p: Path, r: Resolver): Code {
    if x.root.None? || Lookup(x.root.value, p).None? then EInval
    else
      var k := Lookup(x.root.value, p).value.cfg.kind;
      if (r.LimitResolver? && !IsLoop(k)) || (r.DurationResolver? && !IsTimed(k)) then EInval else Ok
  }

  /** Attaching, replacing or removing a resolver resets the subtree and restores
      the constructor's parameters. */
  function ResolverAt(s: State, p: Path, r: Resolver): State
    decreases s.t
  {
    if s.t.cfg.path == p then
      var q := ResetNode(s, true);
      q.(t := q.t.(cfg := q.t.cfg.(resolver := r),
                   run := q.t.run.(limit := q.t.cfg.limit, duration := q.t.cfg.duration)))
    else
      var i := KidToward(s.t.kids, p);
      if i < 0 then s else Unfocus(s.t, i, ResolverAt(Focus(s, i), p, r))
  }

  function PutResolver(x: Machine, p: Path, r: Resolver): Reply {
    var code := ResolverCode(x, p, r);
    if !code.Ok? then Reply(x, code, Failure)
    else if Lookup(x.root.value, p).value.cfg.resolver == r then Reply(x, Ok, Failure)
    else
      var s := ResolverAt(State(x.script, x.trace, x.root.value), p, r);
      Reply(x.(script := s.script, trace := s.trace, root := Some(s.t)), Ok, Failure)
  }

  // ---- tick and reset ---------------------------------------------------------------------

  predicate ValidNode(m: nat, maxDepth: nat, t: Tree) {
    var k := t.cfg.kind;
    && 0 < |t.cfg.path| <= maxDepth
    && CountValid(k, t.cfg.condition, |t.kids|)
    && (k == Retry || k == WhileDo || k == KeepRunning ==>
          t.run.limit <= m && (t.run.limit == 0 ==> t.cfg.resolver.LimitResolver?))
    && (k == Repeat ==> t.run.limit <= m)
  }

  predicate ValidTree(m: nat, maxDepth: nat, t: Tree) {
    ValidNode(m, maxDepth, t) && forall i :: 0 <= i < |t.kids| ==> ValidTree(m, maxDepth, t.kids[i])
  }

  function Rooted(x: Machine, s: State): Machine {
    x.(script := s.script, trace := s.trace, root := Some(s.t))
  }

  function ResetTree(x: Machine): Machine {
    if x.root.None? then x
    else Rooted(x, ResetNode(State(x.script, x.trace, x.root.value), true))
  }

  /** One public tick: validation, the tick itself, and cleanup after any error. */
  function TickTree(x: Machine): Reply {
    if x.root.None? then Reply(x, EInval, Failure)
    else if !ValidTree(x.m, x.maxDepth, x.root.value) then Reply(ResetTree(x), EInval, Failure)
    else
      var o := TickNode(x.m, State(x.script, x.trace, x.root.value));
      if o.code.Ok? then Reply(Rooted(x, o.s), Ok, o.status)
      else Reply(ResetTree(Rooted(x, o.s)), o.code, Failure)
  }

  function Do(x: Machine, op: Op): Reply {
    match op
    case Tick => TickTree(x)
    case Reset => Reply(ResetTree(x), Ok, Failure)
    case Cancel => Reply(ResetTree(x), Ok, Failure)
    case Add(parent, n) => AddNode(x, parent, n)
    case SetResolver(p, r) => PutResolver(x, p, r)
  }

  function Perform(x: Machine, ops: seq<Op>): Machine
    decreases |ops|
  {
    if ops == [] then x else Perform(Do(x, ops[0]).machine, ops[1..])
  }

  function Empty(m: nat, maxNodes: nat, maxDepth: nat, script: seq<Answer>): Machine {
    Machine(m, maxNodes, maxDepth, 0, script, [], None)
  }

  // ---- every reachable machine is healthy ----------------------------------------------------

  ghost predicate IdsUpTo(sh: Shape, n: nat) {
    (forall x :: x in sh.cfg.path ==> x <= n) &&
    forall i :: 0 <= i < |sh.kids| ==> IdsUpTo(sh.kids[i], n)
  }

  ghost predicate Healthy(x: Machine) {
    match x.root
    case None => Replay(x.trace) == Some({})
    case Some(t) =>
      && Sane(ShapeOf(t)) && Inv(x.m, t) && !t.run.branchPrepared
      && Replay(x.trace) == Some(Open(t))
      && t.cfg.path != [] && IdsUpTo(ShapeOf(t), x.count)
  }

  lemma RootTracks(x: Machine)
    requires x.root.Some? && Replay(x.trace) == Some(Open(x.root.value))
    ensures Tracks({}, State(x.script, x.trace, x.root.value))
  {
    hide Replay, Open;
    assert {} + Open(x.root.value) == Open(x.root.value);
  }

  lemma TracksRoot(x: Machine, s: State)
    requires Tracks({}, s)
    ensures Replay(Rooted(x, s).trace) == Some(Open(s.t))
  {
    hide Replay, Open;
    assert {} + Open(s.t) == Open(s.t);
  }

  lemma ResetHealthy(x: Machine)
    requires x.root.Some? ==>
      var t := x.root.value;
      && Sane(ShapeOf(t)) && Mild(x.m, t) && !t.run.branchPrepared && t.cfg.path != []
      && Replay(x.trace) == Some(Open(t)) && IdsUpTo(ShapeOf(t), x.count)
    requires x.root.None? ==> Replay(x.trace) == Some({})
    ensures Healthy(ResetTree(x))
    ensures Closed(ResetTree(x))
  {
    hide Replay, Open, Sane, Mild, Inv, IdsUpTo;
    if x.root.Some? {
      var s := State(x.script, x.trace, x.root.value);
      RootTracks(x);
      var r := ResetNode(s, true);
      ResetTracks(x.m, {}, s, true, r);
      TracksRoot(x, r);
      IdleIsClosed(r.t);
    }
  }

  /** No leaf is running, no adapter context and no Parallel branch is open, and the
      host has seen every bracket closed. */
  ghost predicate Closed(x: Machine) {
    (x.root.Some? ==> Idle(x.root.value) && !x.root.value.run.branchPrepared) &&
    Replay(x.trace) == Some({})
  }

  /** A tick keeps a machine healthy, and closes everything unless it answers OK with RUNNING. */
  lemma TickHealthy(x: Machine)
    requires Healthy(x)
    ensures Healthy(TickTree(x).machine)
    ensures x.root.Some? && !(TickTree(x).code.Ok? && TickTree(x).status == Running) ==>
              Closed(TickTree(x).machine)
  {
    hide Replay, Open, Sane, Inv, IdsUpTo, TickNode, Mild, ResetTree;
    if x.root.Some? {
      var t := x.root.value;
      assert Mild(x.m, t) by { InvIsMild(x.m, t); }
      ResetHealthy(x);
      if ValidTree(x.m, x.maxDepth, t) {
        var s := State(x.script, x.trace, t);
        RootTracks(x);
        TickNodeSound(x.m, {}, s);
        var o := TickNode(x.m, s);
        TracksRoot(x, o.s);
        if !o.code.Ok? { ResetHealthy(Rooted(x, o.s)); }
        else if o.status != Running { IdleIsClosed(o.s.t); }
      }
    }
  }

  lemma InvIsMild(m: nat, t: Tree)
    requires Inv(m, t)
    ensures Mild(m, t)
  {
  }

  // ---- construction keeps the invariant --------------------------------------------------------

  /** Replacing a child by one that is no more active keeps the parent's invariant. */
  lemma InvKid(m: nat, t: Tree, i: nat, c: Tree)
    requires Inv(m, t) && i < |t.kids| && Inv(m, c)
    requires Idle(t.kids[i]) ==> Idle(c)
    requires Terminal(c) ==> Terminal(t.kids[i])
    requires c.run.branchPrepared == t.kids[i].run.branchPrepared
    ensures Inv(m, t.(kids := t.kids[i := c]))
    ensures Idle(t) ==> Idle(t.(kids := t.kids[i := c]))
  {
    var u := t.(kids := t.kids[i := c]);
    InvIsMild(m, c);
    MildKid(m, t, i, c);
    assert InvNode(m, u) by { InvNodeKid(m, t, i, c); }
    assert Idle(t) ==> Idle(u) by { hide Inv, Mild, InvNode; }
  }

  lemma InvNodeKid(m: nat, t: Tree, i: nat, c: Tree)
    requires InvNode(m, t) && i < |t.kids|
    requires Idle(t.kids[i]) ==> Idle(c)
    requires Terminal(c) ==> Terminal(t.kids[i])
    ensures InvNode(m, t.(kids := t.kids[i := c]))
  {
    hide Idle, IsLoop, UsesCursor, IsGuarded;
    var u := t.(kids := t.kids[i := c]);
    assert forall j :: 0 <= j < |t.kids| && !Idle(u.kids[j]) ==> !Idle(t.kids[j]);
    assert forall j :: 0 <= j < |t.kids| && Terminal(u.kids[j]) ==> Terminal(t.kids[j]);
  }

  lemma SaneReplace(t: Tree, i: nat, c: Tree)
    requires Sane(ShapeOf(t)) && i < |t.kids| && Sane(ShapeOf(c)) && c.cfg.path == t.kids[i].cfg.path
    ensures Sane(ShapeOf(t.(kids := t.kids[i := c])))
  {
    var u := t.(kids := t.kids[i := c]);
    forall j | 0 <= j < |t.kids|
      ensures Sane(ShapeOf(u).kids[j]) && ShapeOf(u).kids[j].cfg.path == ShapeOf(t).kids[j].cfg.path
    {
      ShapeKid(t, j);
      ShapeKid(u, j);
      SaneKid(t, j);
    }
    assert SaneNode(ShapeOf(u)) by { hide Sane; }
  }

  lemma IdsKid(t: Tree, n: nat, i: nat)
    requires IdsUpTo(ShapeOf(t), n) && i < |t.kids|
    ensures IdsUpTo(ShapeOf(t.kids[i]), n)
  {
    ShapeKid(t, i);
  }

  lemma IdsReplace(t: Tree, n: nat, n': nat, i: nat, c: Tree)
    requires IdsUpTo(ShapeOf(t), n) && n <= n' && i < |t.kids| && IdsUpTo(ShapeOf(c), n')
    ensures IdsUpTo(ShapeOf(t.(kids := t.kids[i := c])), n')
  {
    var u := t.(kids := t.kids[i := c]);
    forall j | 0 <= j < |t.kids| ensures IdsUpTo(ShapeOf(u).kids[j], n') {
      ShapeKid(u, j);
      if j != i {
        IdsKid(t, n, j);
        IdsMore(ShapeOf(t.kids[j]), n, n');
      }
    }
  }

  lemma {:induction false} IdsMore(sh: Shape, n: nat, n': nat)
    requires IdsUpTo(sh, n) && n <= n'
    ensures IdsUpTo(sh, n')
  {
    forall i | 0 <= i < |sh.kids| ensures IdsUpTo(sh.kids[i], n') { IdsMore(sh.kids[i], n, n'); }
  }

  /** What adding a node below p does to the subtree t. */
  lemma {:induction false} AddAtKeeps(m: nat, t: Tree, p: Path, n: Tree, count: nat)
    requires Sane(ShapeOf(t)) && Inv(m, t) && IdsUpTo(ShapeOf(t), count)
    requires Lookup(t, p).Some? && HasRoom(Lookup(t, p).value)
    requires n.cfg.path == p + [count + 1] && n.kids == [] && Sane(ShapeOf(n)) && Inv(m, n) && Idle(n)
    requires !n.run.evaluated && !n.run.branchPrepared
    ensures var u := AddAt(t, p, n);
      && Sane(ShapeOf(u)) && Inv(m, u) && IdsUpTo(ShapeOf(u), count + 1)
      && u.cfg == t.cfg && u.run == t.run && Open(u) == Open(t) && (Idle(t) ==> Idle(u))
    decreases t
  {
    if t.cfg.path == p {
      AppendKid(m, t, n, count);
    } else {
      hide Sane, Inv, Idle, Open, IdsUpTo, ShapeOf;
      var i := KidToward(t.kids, p);
      SaneKid(t, i);
      InvOfKid(m, t, i);
      IdsKid(t, count, i);
      AddAtKeeps(m, t.kids[i], p, n, count);
      var c := AddAt(t.kids[i], p, n);
      InvKid(m, t, i, c);
      SaneReplace(t, i, c);
      IdsReplace(t, count, count + 1, i, c);
      OpenReplace(t, i, c);
    }
  }

  lemma InvOfKid(m: nat, t: Tree, i: nat)
    requires Inv(m, t) && i < |t.kids|
    ensures Inv(m, t.kids[i])
  {
  }

  lemma OpenReplace(t: Tree, i: nat, c: Tree)
    requires i < |t.kids| && Open(c) == Open(t.kids[i])
    ensures Open(t.(kids := t.kids[i := c])) == Open(t)
  {
    var u := t.(kids := t.kids[i := c]);
    assert forall j :: 0 <= j < |t.kids| ==> Open(u.kids[j]) == Open(t.kids[j]);
    forall k ensures k in Open(u) <==> k in Open(t) {
      if k in Open(t) && k !in Own(t) {
        var j :| 0 <= j < |t.kids| && k in Open(t.kids[j]);
        assert k in Open(u.kids[j]);
      }
    }
  }

  lemma AppendKid(m: nat, t: Tree, n: Tree, count: nat)
    requires Sane(ShapeOf(t)) && Inv(m, t) && IdsUpTo(ShapeOf(t), count) && HasRoom(t)
    requires n.cfg.path == t.cfg.path + [count + 1] && n.kids == [] && Sane(ShapeOf(n)) && Inv(m, n) && Idle(n)
    requires !n.run.evaluated && !n.run.branchPrepared
    ensures var u := t.(kids := t.kids + [n]);
      && Sane(ShapeOf(u)) && Inv(m, u) && IdsUpTo(ShapeOf(u), count + 1)
      && Open(u) == Open(t) && (Idle(t) ==> Idle(u))
  {
    var u := t.(kids := t.kids + [n]);
    assert Sane(ShapeOf(u)) by { AppendSane(t, n, count); }
    assert IdsUpTo(ShapeOf(u), count + 1) by { AppendIds(t, n, count); }
    assert Open(u) == Open(t) by { AppendOpen(t, n); }
    assert Inv(m, u) && (Idle(t) ==> Idle(u)) by { AppendInv(m, t, n); }
  }

  lemma AppendSane(t: Tree, n: Tree, count: nat)
    requires Sane(ShapeOf(t)) && IdsUpTo(ShapeOf(t), count) && HasRoom(t)
    requires n.cfg.path == t.cfg.path + [count + 1] && Sane(ShapeOf(n))
    ensures Sane(ShapeOf(t.(kids := t.kids + [n])))
  {
    hide ShapeOf, IdsUpTo;
    AppendShape(t, n);
    NewPath(t, n.cfg.path, count);
    SaneAppended(ShapeOf(t), ShapeOf(n), ShapeOf(t.(kids := t.kids + [n])), t);
  }

  lemma AppendShape(t: Tree, n: Tree)
    ensures var sh, sh' := ShapeOf(t), ShapeOf(t.(kids := t.kids + [n]));
      && sh.cfg == t.cfg && sh'.cfg == t.cfg && ShapeOf(n).cfg == n.cfg
      && |sh.kids| == |t.kids| && sh'.kids == sh.kids + [ShapeOf(n)]
  {
  }

  /** The new path ends in an id that no path of the tree holds. */
  lemma NewPath(t: Tree, p: Path, count: nat)
    requires IdsUpTo(ShapeOf(t), count) && p == t.cfg.path + [count + 1]
    ensures forall j :: 0 <= j < |ShapeOf(t).kids| ==> ShapeOf(t).kids[j].cfg.path != p
  {
    assert p[|t.cfg.path|] == count + 1;
    assert count + 1 in p;
    hide ShapeOf;
    forall j | 0 <= j < |ShapeOf(t).kids| ensures ShapeOf(t).kids[j].cfg.path != p {
      var kid := ShapeOf(t).kids[j];
      assert IdsUpTo(kid, count) && count + 1 !in kid.cfg.path;
    }
  }

  lemma SaneAppended(sh: Shape, n: Shape, sh': Shape, t: Tree)
    requires Sane(sh) && Sane(n) && HasRoom(t) && t.cfg == sh.cfg == sh'.cfg && |t.kids| == |sh.kids|
    requires sh'.kids == sh.kids + [n]
    requires |n.cfg.path| == |sh.cfg.path| + 1 && sh.cfg.path <= n.cfg.path
    requires forall j :: 0 <= j < |sh.kids| ==> sh.kids[j].cfg.path != n.cfg.path
    ensures Sane(sh')
  {
    hide SaneNode, HasRoom;
    SaneHere(sh);
    NodeAppended(sh, n, sh', t);
    forall j | 0 <= j < |sh'.kids| ensures Sane(sh'.kids[j]) {
      assert j < |sh.kids| ==> sh'.kids[j] == sh.kids[j];
    }
  }

  lemma SaneHere(sh: Shape)
    requires Sane(sh)
    ensures SaneNode(sh)
  {
  }

  lemma NodeAppended(sh: Shape, n: Shape, sh': Shape, t: Tree)
    requires SaneNode(sh) && HasRoom(t) && t.cfg == sh.cfg == sh'.cfg && |t.kids| == |sh.kids|
    requires sh'.kids == sh.kids + [n]
    requires |n.cfg.path| == |sh.cfg.path| + 1 && sh.cfg.path <= n.cfg.path
    requires forall j :: 0 <= j < |sh.kids| ==> sh.kids[j].cfg.path != n.cfg.path
    ensures SaneNode(sh')
  {
    forall j | 0 <= j < |sh.kids| ensures sh'.kids[j] == sh.kids[j] {}
    forall i, j | 0 <= i < j < |sh'.kids| ensures sh'.kids[i].cfg.path != sh'.kids[j].cfg.path {
      if j < |sh.kids| { assert sh.kids[i].cfg.path != sh.kids[j].cfg.path; }
    }
  }

  lemma AppendIds(t: Tree, n: Tree, count: nat)
    requires IdsUpTo(ShapeOf(t), count)
    requires n.cfg.path == t.cfg.path + [count + 1] && n.kids == []
    ensures IdsUpTo(ShapeOf(t.(kids := t.kids + [n])), count + 1)
  {
    var u := t.(kids := t.kids + [n]);
    forall j | 0 <= j < |u.kids| ensures IdsUpTo(ShapeOf(u).kids[j], count + 1) {
      ShapeKid(u, j);
      if j < |t.kids| {
        IdsKid(t, count, j);
        IdsMore(ShapeOf(t.kids[j]), count, count + 1);
      }
    }
  }

  lemma AppendOpen(t: Tree, n: Tree)
    requires Idle(n) && !n.run.branchPrepared
    ensures Open(t.(kids := t.kids + [n])) == Open(t)
  {
    IdleIsClosed(n);
    var u := t.(kids := t.kids + [n]);
    forall k ensures k in Open(u) <==> k in Open(t) {
      if k in Open(t) && k !in Own(t) {
        var j :| 0 <= j < |t.kids| && k in Open(t.kids[j]);
        assert k in Open(u.kids[j]);
      }
    }
  }

  lemma AppendInv(m: nat, t: Tree, n: Tree)
    requires Inv(m, t) && Inv(m, n) && Idle(n) && !n.run.evaluated && !n.run.branchPrepared
    ensures Inv(m, t.(kids := t.kids + [n])) && (Idle(t) ==> Idle(t.(kids := t.kids + [n])))
  {
  }

  lemma NewNodeFresh(m: nat, p: Path, n: NodeSpec)
    requires Proper(n) && LimitAccepted(m, n)
    ensures var t := NewNode(p, n);
      Sane(ShapeOf(t)) && Inv(m, t) && Idle(t) && !t.run.evaluated && !t.run.branchPrepared
  {
  }

  lemma AddHealthy(x: Machine, parent: Option<Path>, n: NodeSpec)
    requires Healthy(x)
    ensures Healthy(AddNode(x, parent, n).machine)
  {
    hide Replay, Sane, Inv, Open, IdsUpTo, Idle, AddAt, Lookup;
    if AddCode(x, parent, n).Ok? {
      var id := x.count + 1;
      if parent.None? {
        NewNodeFresh(x.m, [id], n);
        var t := NewNode([id], n);
        IdleIsClosed(t);
        NewIds([id], n, id);
      } else {
        var node := NewNode(parent.value + [id], n);
        NewNodeFresh(x.m, parent.value + [id], n);
        AddAtKeeps(x.m, x.root.value, parent.value, node, x.count);
      }
    }
  }

  lemma NewIds(p: Path, n: NodeSpec, count: nat)
    requires forall x :: x in p ==> x <= count
    ensures IdsUpTo(ShapeOf(NewNode(p, n)), count)
  {
  }

  // ---- resolvers keep the invariant --------------------------------------------------------------

  lemma {:induction false} ResolverKeeps(m: nat, S: set<Key>, s: State, p: Path, r: Resolver, count: nat)
    requires Resettable(m, S, s) && Inv(m, s.t) && IdsUpTo(ShapeOf(s.t), count)
    requires Lookup(s.t, p).Some?
    requires var k := Lookup(s.t, p).value.cfg.kind;
      (r.LimitResolver? ==> IsLoop(k)) && (r.DurationResolver? ==> IsTimed(k))
    ensures var q := ResolverAt(s, p, r);
      && Resettable(m, S, q) && Inv(m, q.t) && IdsUpTo(ShapeOf(q.t), count)
      && q.t.cfg.path == s.t.cfg.path && q.t.run.branchPrepared == s.t.run.branchPrepared
      && (Idle(s.t) ==> Idle(q.t)) && (Terminal(q.t) ==> Terminal(s.t))
    decreases s.t
  {
    hide Sane, Mild, Inv, Idle, Open, IdsUpTo, ShapeOf, Replay, ResetNode;
    if s.t.cfg.path == p {
      var q := ResetNode(s, true);
      ResetTracks(m, S, s, true, q);
      RestedParts(m, q.t);
      InstallResolver(m, S, q, r, count);
    } else {
      var i := KidToward(s.t.kids, p);
      ToKids(S, s);
      IntoKid(S + Own(s.t), s, i);
      SaneKid(s.t, i);
      InvOfKid(m, s.t, i);
      InvIsMild(m, s.t.kids[i]);
      IdsKid(s.t, count, i);
      ResolverKeeps(m, S + Own(s.t) + Others(s.t, i), Focus(s, i), p, r, count);
      var c := ResolverAt(Focus(s, i), p, r);
      OutOfKid(S + Own(s.t), s.t, i, c);
      var q := Unfocus(s.t, i, c);
      FromKids(S, q);
      InvKid(m, s.t, i, c.t);
      InvIsMild(m, q.t);
      SaneReplace(s.t, i, c.t);
      IdsReplace(s.t, count, count, i, c.t);
    }
  }

  lemma RestedParts(m: nat, t: Tree)
    requires Rested(m, t)
    ensures Inv(m, t) && Mild(m, t) && Idle(t) && !Terminal(t)
  {
  }

  lemma InstallResolver(m: nat, S: set<Key>, s: State, r: Resolver, count: nat)
    requires Resettable(m, S, s) && Inv(m, s.t) && Idle(s.t) && IdsUpTo(ShapeOf(s.t), count)
    requires (r.LimitResolver? ==> IsLoop(s.t.cfg.kind)) && (r.DurationResolver? ==> IsTimed(s.t.cfg.kind))
    ensures var q := s.(t := s.t.(cfg := s.t.cfg.(resolver := r),
                                  run := s.t.run.(limit := s.t.cfg.limit, duration := s.t.cfg.duration)));
      Resettable(m, S, q) && Inv(m, q.t) && Idle(q.t) && IdsUpTo(ShapeOf(q.t), count)
  {
    var q := s.(t := s.t.(cfg := s.t.cfg.(resolver := r),
                          run := s.t.run.(limit := s.t.cfg.limit, duration := s.t.cfg.duration)));
    InstallShape(s.t, q.t, count);
    InstallMild(m, s.t, q.t);
    assert Open(q.t) == Open(s.t) by {
      hide Mild, Inv, Replay, Idle, Sane, IdsUpTo, ShapeOf;
      assert Own(q.t) == Own(s.t);
    }
    hide Idle, Open, Sane, ShapeOf, Replay, Mild, IdsUpTo, Inv;
  }

  lemma InstallShape(t: Tree, u: Tree, count: nat)
    requires Sane(ShapeOf(t)) && IdsUpTo(ShapeOf(t), count) && u.kids == t.kids
    requires u.cfg == t.cfg.(resolver := u.cfg.resolver)
    requires u.cfg.resolver.LimitResolver? ==> IsLoop(t.cfg.kind)
    requires u.cfg.resolver.DurationResolver? ==> IsTimed(t.cfg.kind)
    ensures Sane(ShapeOf(u)) && IdsUpTo(ShapeOf(u), count)
  {
    assert ShapeOf(u).kids == ShapeOf(t).kids;
  }

  lemma InstallMild(m: nat, t: Tree, u: Tree)
    requires Inv(m, t) && Idle(t) && u.kids == t.kids && u.cfg == t.cfg.(resolver := u.cfg.resolver)
    requires u.run == t.run.(limit := t.cfg.limit, duration := t.cfg.duration)
    ensures Inv(m, u) && Mild(m, u) && Idle(u)
  {
    hide ShapeOf;
    assert Mild(m, u) && Idle(u);
    assert InvNode(m, u);
  }

  lemma ResolverHealthy(x: Machine, p: Path, r: Resolver)
    requires Healthy(x)
    ensures Healthy(PutResolver(x, p, r).machine)
  {
    hide Replay, Sane, Inv, Open, IdsUpTo, Idle, ResolverAt, Lookup, Mild;
    if ResolverCode(x, p, r).Ok? {
      var s := State(x.script, x.trace, x.root.value);
      RootTracks(x);
      InvIsMild(x.m, s.t);
      ResolverKeeps(x.m, {}, s, p, r, x.count);
      TracksRoot(x, ResolverAt(s, p, r));
    }
  }

  // ---- the theorems over whole runs -----------------------------------------------------------------

  lemma DoHealthy(x: Machine, op: Op)
    requires Healthy(x)
    ensures Healthy(Do(x, op).machine)
    ensures op.Reset? || op.Cancel? ==> Closed(Do(x, op).machine)
    ensures op.Tick? && x.root.Some? && !(Do(x, op).code.Ok? && Do(x, op).status == Running) ==>
              Closed(Do(x, op).machine)
  {
    hide Inv, Idle, Open, Sane, Replay, TickTree, ResetTree, AddNode, PutResolver;
    match op
    case Tick => TickHealthy(x);
    case Reset => HealthyResets(x);
    case Cancel => HealthyResets(x);
    case Add(parent, n) => AddHealthy(x, parent, n);
    case SetResolver(p, r) => ResolverHealthy(x, p, r);
  }

  lemma HealthyResets(x: Machine)
    requires Healthy(x)
    ensures Healthy(ResetTree(x)) && Closed(ResetTree(x))
  {
    hide Idle, Open, Sane, Replay, ResetTree, Inv, Mild;
    if x.root.Some? { InvIsMild(x.m, x.root.value); }
    ResetHealthy(x);
  }

  /** Every machine that public calls can reach, with any host, is healthy. */
  lemma {:induction false} RunHealthy(x: Machine, ops: seq<Op>)
    requires Healthy(x)
    ensures Healthy(Perform(x, ops))
    decreases |ops|
  {
    hide Healthy, Do;
    if ops != [] {
      DoHealthy(x, ops[0]);
      RunHealthy(Do(x, ops[0]).machine, ops[1..]);
    }
  }

  /** After any run, a reset, a cancel, or a tick that does not answer OK with RUNNING
      leaves nothing running or open anywhere, in the tree and in the host's history. */
  lemma QuietAfterTerminal(m: nat, maxNodes: nat, maxDepth: nat, script: seq<Answer>, ops: seq<Op>, last: Op)
    requires last.Tick? || last.Reset? || last.Cancel?
    ensures var x := Perform(Empty(m, maxNodes, maxDepth, script), ops);
      var r := Do(x, last);
      x.root.Some? && !(last.Tick? && r.code.Ok? && r.status == Running) ==> Closed(r.machine)
  {
    var x0 := Empty(m, maxNodes, maxDepth, script);
    RunHealthy(x0, ops);
    DoHealthy(Perform(x0, ops), last);
  }
}
