/** What the reachable states of a tree look like between ticks. */
module BtInvariant {
  import opened BtTypes

  // ---- static facts the constructors establish --------------------------------------

  ghost predicate SaneNode(sh: Shape) {
    var c := sh.cfg;
    && (c.kind == Leaf ==> sh.kids == [])
    && (IsSingleChild(c.kind) ==> |sh.kids| <= 1)
    && (c.kind == IfThenElse ==> |sh.kids| <= if c.condition then 2 else 3)
    && (c.kind == Precondition || c.kind == WhileDo ==> |sh.kids| <= if c.condition then 1 else 2)
    && (c.hooks ==> c.kind == Parallel)
    && (c.condition ==> IsGuarded(c.kind))
    && (c.resolver.LimitResolver? ==> IsLoop(c.kind))
    && (c.resolver.DurationResolver? ==> IsTimed(c.kind))
    && (forall i :: 0 <= i < |sh.kids| ==>
          |sh.kids[i].cfg.path| == |c.path| + 1 && c.path <= sh.kids[i].cfg.path)
    && (forall i, j :: 0 <= i < j < |sh.kids| ==> sh.kids[i].cfg.path != sh.kids[j].cfg.path)
  }

  ghost predicate Sane(sh: Shape) {
    SaneNode(sh) && forall i :: 0 <= i < |sh.kids| ==> Sane(sh.kids[i])
  }

  /** Loop limits respect the tree's bound m; without a resolver the parameters are
      those of the constructor. */
  predicate ParamsOk(m: nat, cfg: Config, run: Run) {
    && (IsLoop(cfg.kind) ==> run.limit <= m && cfg.limit <= m)
    && (cfg.resolver.NoResolver? ==> run.limit == cfg.limit && run.duration == cfg.duration)
  }

  /** What holds at every moment, even inside a tick or after an error: flags sit only
      on the nodes that own them, and parameters are in order. */
  ghost predicate Mild(m: nat, t: Tree) {
    && (t.run.running ==> t.cfg.kind == Leaf)
    && (t.run.prepared ==> IsAdapter(t.cfg.kind))
    && ParamsOk(m, t.cfg, t.run)
    && forall i :: 0 <= i < |t.kids| ==>
         Mild(m, t.kids[i]) &&
         (t.kids[i].run.branchPrepared ==> t.cfg.kind == Parallel && t.cfg.hooks)
  }

  lemma SaneKid(t: Tree, i: nat)
    requires Sane(ShapeOf(t)) && i < |t.kids|
    ensures Sane(ShapeOf(t.kids[i]))
    ensures |t.kids[i].cfg.path| == |t.cfg.path| + 1 && t.cfg.path <= t.kids[i].cfg.path
    ensures forall j :: 0 <= j < |t.kids| && j != i ==> t.kids[j].cfg.path != t.kids[i].cfg.path
  {
    var sh := ShapeOf(t);
    assert sh.kids[i] == ShapeOf(t.kids[i]);
    forall j | 0 <= j < |t.kids| && j != i ensures t.kids[j].cfg.path != t.kids[i].cfg.path {
      assert sh.kids[j] == ShapeOf(t.kids[j]);
      if j < i { assert sh.kids[j].cfg.path != sh.kids[i].cfg.path; }
      else { assert sh.kids[i].cfg.path != sh.kids[j].cfg.path; }
    }
  }

  lemma MildKid(m: nat, t: Tree, i: nat, c: Tree)
    requires Mild(m, t) && i < |t.kids| && Mild(m, c)
    requires c.run.branchPrepared ==> t.cfg.kind == Parallel && t.cfg.hooks
    ensures Mild(m, t.(kids := t.kids[i := c]))
  {
  }

  /** Nothing below t is open, nor is t itself (its branch marker belongs to the parent). */
  ghost predicate Idle(t: Tree) {
    !t.run.running && !t.run.prepared &&
    forall i :: 0 <= i < |t.kids| ==> !t.kids[i].run.branchPrepared && Idle(t.kids[i])
  }

  /** The only child that may be active is the one under the cursor. */
  ghost predicate OnlyCursor(t: Tree) {
    forall i :: 0 <= i < |t.kids| && !Idle(t.kids[i]) ==> i == t.run.cursor
  }

  /** A condition child is active only while no branch is, and then there is no cursor. */
  ghost predicate ConditionOrCursor(t: Tree) {
    t.run.cursor != 0 &&
    forall i :: 0 <= i < |t.kids| && !Idle(t.kids[i]) ==>
      i == if i == 0 then t.run.cursor + 1 else t.run.cursor
  }

  predicate UsesCursor(k: Kind) {
    k == Sequence || k == Fallback || k == ReactiveSequence || k == ReactiveFallback ||
    k == Switch || k == Pipeline || k == EntryUpdated || k == ConsumeQueue || IsGuarded(k)
  }

  /** The part of the invariant that speaks of one node and the state of its children. */
  ghost predicate InvNode(m: nat, t: Tree) {
    var k := t.cfg.kind;
    && -1 <= t.run.cursor < |t.kids|
    && (!UsesCursor(k) ==> t.run.cursor == NO_CHILD)
    && (UsesCursor(k) && (t.cfg.condition || !IsGuarded(k)) ==> OnlyCursor(t))
    && (IsGuarded(k) && !t.cfg.condition ==> ConditionOrCursor(t))
    && (IsLoop(k) ==> t.run.counter <= m)
    && (IsAdapter(k) && t.run.prepared ==> t.run.cursor >= 0)
    && (k == Pipeline ==> t.run.counter <= |t.kids|)
    && (k == Pipeline && t.run.cursor >= 0 ==> t.run.cursor == t.run.counter)
    && (k == Parallel ==>
          forall i :: 0 <= i < |t.kids| ==> !(t.kids[i].run.evaluated && t.kids[i].run.last != Running))
    && (k == RunOnce && t.run.runOnceComplete ==>
          forall i :: 0 <= i < |t.kids| ==> Idle(t.kids[i]))
  }

  ghost predicate Inv(m: nat, t: Tree) {
    Mild(m, t) && InvNode(m, t) && forall i :: 0 <= i < |t.kids| ==> Inv(m, t.kids[i])
  }

  ghost predicate KidsInv(m: nat, t: Tree) {
    forall i :: 0 <= i < |t.kids| ==> Inv(m, t.kids[i])
  }

  /** A subtree just after a reset. */
  ghost predicate Rested(m: nat, t: Tree) {
    Idle(t) && Inv(m, t) && !t.run.evaluated
  }

  /** The first n children are at rest and their branches closed. */
  ghost predicate KidsRested(m: nat, t: Tree, n: nat)
    requires n <= |t.kids|
  {
    forall i :: 0 <= i < n ==> !t.kids[i].run.branchPrepared && Rested(m, t.kids[i])
  }

  lemma RestedFromKids(m: nat, t: Tree)
    requires Mild(m, t) && KidsRested(m, t, |t.kids|)
    requires !t.run.running && !t.run.prepared && !t.run.evaluated
    requires t.run.cursor == NO_CHILD && t.run.counter == 0
    ensures Rested(m, t)
  {
  }

  lemma IdleFromKids(m: nat, t: Tree)
    requires Mild(m, t) && t.cfg.kind != Leaf && t.cfg.kind != Parallel && !t.run.prepared
    requires forall i :: 0 <= i < |t.kids| ==> Idle(t.kids[i])
    ensures Idle(t)
  {
  }
}
