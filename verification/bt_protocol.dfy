/** The host protocol as an automaton over the actions of a run: leaf activations,
    adapter contexts and Parallel branches are brackets that open and close once and
    nest like the tree. The automaton knows nothing about node state. */
module BtProtocol {
  import opened Wrappers
  import opened BtTypes
  import opened BtSemantics
  import opened BtInvariant

  /** A bracket: a leaf that reported RUNNING, a pipeline or queue context, a Parallel branch. */
  datatype Key = LeafKey(path: Path) | AdapterKey(path: Path) | BranchKey(path: Path)

  /** x lies inside the bracket k: below its node, or, for a branch, at its node as well. */
  predicate Inside(x: Key, k: Key) {
    x != k && k.path <= x.path && (k.BranchKey? || k.path != x.path)
  }

  function Opening(open: set<Key>, k: Key): Option<set<Key>> {
    if k in open then None else Some(open + {k})
  }

  function Needing(open: set<Key>, k: Key): Option<set<Key>> {
    if k in open then Some(open) else None
  }

  /** Closing needs the bracket open and everything inside it closed already. */
  function Closing(open: set<Key>, k: Key): Option<set<Key>> {
    if k in open && forall x :: x in open ==> !Inside(x, k) then Some(open - {k}) else None
  }

  function Advance(open: set<Key>, e: Event): Option<set<Key>> {
    match e
    case Handler(p, a) =>
      Some(if a == Some(Running) then open + {LeafKey(p)}
           else if a == None then open else open - {LeafKey(p)})
    case Halt(p, _) => Closing(open, LeafKey(p))
    case Prepare(p, _, _) => Opening(open, AdapterKey(p))
    case Complete(p, _, _, code) =>
      if code.Ok? then Closing(open, AdapterKey(p)) else Needing(open, AdapterKey(p))
    case PipelineAbort(p, _, _) => Closing(open, AdapterKey(p))
    case Begin(p, code, item) =>
      if AdapterKey(p) in open then None
      else if code.Ok? && !item then Some(open) else Some(open + {AdapterKey(p)})
    case Finish(p, code, _) =>
      if code.Ok? then Closing(open, AdapterKey(p)) else Needing(open, AdapterKey(p))
    case QueueAbort(p, _) => Closing(open, AdapterKey(p))
    case Enter(_, b, _, first, _) =>
      if first then Opening(open, BranchKey(b)) else Needing(open, BranchKey(b))
    case Step(_, b, _, _, _) => Needing(open, BranchKey(b))
    case BranchFinish(_, b, _, _, code) =>
      if code.Ok? then Closing(open, BranchKey(b)) else Needing(open, BranchKey(b))
    case BranchAbort(_, b, _, _) => Closing(open, BranchKey(b))
    case _ => Some(open)
  }

  /** The brackets open after a trace, or None if some action broke the protocol. */
  function Replay(trace: seq<Event>): Option<set<Key>> {
    if trace == [] then Some({})
    else match Replay(trace[..|trace| - 1])
         case None => None
         case Some(open) => Advance(open, trace[|trace| - 1])
  }

  lemma ReplayStep(trace: seq<Event>, e: Event)
    ensures Replay(trace + [e]) ==
      match Replay(trace) case None => None case Some(open) => Advance(open, e)
  {
    assert (trace + [e])[..|trace|] == trace;
  }

  // ---- brackets that the node state says are open ---------------------------------

  function Own(t: Tree): set<Key> {
    (if t.run.running then {LeafKey(t.cfg.path)} else {}) +
    (if t.run.prepared then {AdapterKey(t.cfg.path)} else {}) +
    (if t.run.branchPrepared then {BranchKey(t.cfg.path)} else {})
  }

  ghost function Open(t: Tree): set<Key> {
    Own(t) + set i, k | 0 <= i < |t.kids| && k in Open(t.kids[i]) :: k
  }

  ghost function KidsOpen(t: Tree): set<Key> {
    set i, k | 0 <= i < |t.kids| && k in Open(t.kids[i]) :: k
  }

  ghost function Others(t: Tree, i: nat): set<Key> {
    set j, k | 0 <= j < |t.kids| && j != i && k in Open(t.kids[j]) :: k
  }

  lemma {:induction false} IdleIsClosed(t: Tree)
    requires Idle(t)
    ensures Open(t) == if t.run.branchPrepared then {BranchKey(t.cfg.path)} else {}
  {
    forall i | 0 <= i < |t.kids| ensures Open(t.kids[i]) == {} {
      IdleIsClosed(t.kids[i]);
    }
  }

  lemma {:induction false} OpenBelow(t: Tree, k: Key)
    requires Sane(ShapeOf(t)) && k in Open(t)
    ensures t.cfg.path <= k.path
  {
    if k !in Own(t) {
      var i :| 0 <= i < |t.kids| && k in Open(t.kids[i]);
      SaneKid(t, i);
      OpenBelow(t.kids[i], k);
    }
  }

  // ---- agreement of trace and state, framed by the brackets of the rest of the tree ---

  ghost predicate Outside(S: set<Key>, p: Path) {
    forall k :: k in S ==> !(p <= k.path)
  }

  /** The trace obeys the protocol; open are those of S and those of this subtree. */
  ghost predicate Tracks(S: set<Key>, s: State) {
    Outside(S, s.t.cfg.path) && Replay(s.trace) == Some(S + Open(s.t))
  }

  /** The same for the children of s.t only: R may hold keys of the node itself. */
  ghost predicate TracksKids(R: set<Key>, s: State) {
    && (forall k :: k in R && s.t.cfg.path <= k.path ==> k.path == s.t.cfg.path)
    && Replay(s.trace) == Some(R + KidsOpen(s.t))
  }

  lemma ToKids(S: set<Key>, s: State)
    requires Tracks(S, s)
    ensures TracksKids(S + Own(s.t), s)
  {
    assert S + Open(s.t) == S + Own(s.t) + KidsOpen(s.t);
  }

  lemma FromKids(S: set<Key>, s: State)
    requires Outside(S, s.t.cfg.path) && TracksKids(S + Own(s.t), s)
    ensures Tracks(S, s)
  {
    assert S + Open(s.t) == S + Own(s.t) + KidsOpen(s.t);
  }

  lemma SamePrefix(p: Path, q: Path, r: Path)
    requires p <= r && q <= r && |p| == |q|
    ensures p == q
  {
    assert p == r[..|p|] == q;
  }

  lemma IntoKid(R: set<Key>, s: State, i: nat)
    requires Sane(ShapeOf(s.t)) && TracksKids(R, s) && i < |s.t.kids|
    ensures Tracks(R + Others(s.t, i), Focus(s, i))
  {
    SaneKid(s.t, i);
    var kid := s.t.kids[i];
    forall k | k in R + Others(s.t, i) && kid.cfg.path <= k.path ensures k !in Others(s.t, i) {
      if k in Others(s.t, i) {
        var j :| 0 <= j < |s.t.kids| && j != i && k in Open(s.t.kids[j]);
        SaneKid(s.t, j);
        OpenBelow(s.t.kids[j], k);
        SamePrefix(kid.cfg.path, s.t.kids[j].cfg.path, k.path);
        assert false;
      }
    }
    assert R + KidsOpen(s.t) == R + Others(s.t, i) + Open(kid);
  }

  lemma OutOfKid(R: set<Key>, t: Tree, i: nat, r: State)
    requires i < |t.kids|
    requires forall k :: k in R && t.cfg.path <= k.path ==> k.path == t.cfg.path
    requires Tracks(R + Others(t, i), r)
    ensures TracksKids(R, Unfocus(t, i, r))
  {
    var u := Unfocus(t, i, r).t;
    assert forall j :: 0 <= j < |t.kids| && j != i ==> u.kids[j] == t.kids[j];
    assert u.kids[i] == r.t;
    assert R + Others(t, i) + Open(r.t) == R + KidsOpen(u);
  }

  // ---- reset ------------------------------------------------------------------------

  /** First half of a reset: halt the leaf and clear the run state; an adapter
      context stays open in the frame until the children are down. */
  lemma ClearTracks(m: nat, S: set<Key>, s: State, clear: bool)
    requires Mild(m, s.t) && Sane(ShapeOf(s.t)) && Tracks(S, s)
    ensures TracksKids(S + (Own(s.t) - {LeafKey(s.t.cfg.path)}), Clear(s, clear))
    ensures Mild(m, Clear(s, clear).t)
  {
    ToKids(S, s);
    var k := LeafKey(s.t.cfg.path);
    var R := S + (Own(s.t) - {k});
    assert KidsOpen(Clear(s, clear).t) == KidsOpen(s.t);
    if s.t.run.running {
      ReplayStep(s.trace, Halt(s.t.cfg.path, s.t.cfg.halt));
      assert KidsOpen(s.t) == {};
      assert S + Own(s.t) + {} - {k} == R + {};
    } else {
      assert R == S + Own(s.t);
    }
  }

  predicate Closes(e: Event, k: Key) {
    match e
    case Halt(p, _) => k == LeafKey(p)
    case Complete(p, _, _, code) => k == AdapterKey(p) && code.Ok?
    case PipelineAbort(p, _, _) => k == AdapterKey(p)
    case Finish(p, code, _) => k == AdapterKey(p) && code.Ok?
    case QueueAbort(p, _) => k == AdapterKey(p)
    case BranchFinish(_, b, _, _, code) => k == BranchKey(b) && code.Ok?
    case BranchAbort(_, b, _, _) => k == BranchKey(b)
    case _ => false
  }

  lemma CloseLast(F: set<Key>, k: Key, trace: seq<Event>, e: Event)
    requires Replay(trace) == Some(F + {k}) && k !in F
    requires forall x :: x in F ==> !Inside(x, k)
    requires Closes(e, k)
    ensures Replay(trace + [e]) == Some(F)
  {
    ReplayStep(trace, e);
    assert F + {k} - {k} == F;
  }

  /** Second half: with all children down, the adapter context closes. */
  lemma CloseAdapterTracks(S: set<Key>, was: Tree, s: State)
    requires was.run.prepared ==> IsAdapter(was.cfg.kind)
    requires was.cfg == s.t.cfg && Outside(S, s.t.cfg.path)
    requires KidsOpen(s.t) == {} && !s.t.run.running && !s.t.run.prepared
    requires s.t.run.branchPrepared == was.run.branchPrepared
    requires TracksKids(S + (Own(was) - {LeafKey(was.cfg.path)}), s)
    ensures Tracks(S, CloseAdapter(was, s))
  {
    var k := AdapterKey(was.cfg.path);
    var R := S + (Own(was) - {LeafKey(was.cfg.path)});
    assert R + {} == R;
    if was.run.prepared {
      assert R - {k} == S + Own(s.t) && R - {k} + {k} == R;
      assert Open(s.t) == Own(s.t);
      CloseLast(R - {k}, k, s.trace, PipelineAbort(was.cfg.path, was.run.counter, was.cfg.abort));
      CloseLast(R - {k}, k, s.trace, QueueAbort(was.cfg.path, was.cfg.abort));
    } else {
      assert R == S + Own(s.t) && Open(s.t) == Own(s.t);
    }
  }

  lemma {:induction false} ResetTracks(m: nat, S: set<Key>, s: State, clear: bool, r: State)
    requires r == ResetNode(s, clear)
    requires Sane(ShapeOf(s.t)) && Mild(m, s.t) && Tracks(S, s)
    ensures Tracks(S, r) && Rested(m, r.t)
    decreases ShapeOf(s.t), 1, 0
  {
    ClearTracks(m, S, s, clear);
    var swept := ResetKids(Clear(s, clear), 0, clear);
    ResetKidsTrack(m, S + (Own(s.t) - {LeafKey(s.t.cfg.path)}), Clear(s, clear), 0, clear, swept);
    RestedFromKids(m, swept.t);
    KidsIdleClosed(swept.t);
    CloseAdapterTracks(S, s.t, swept);
  }

  lemma KidsIdleClosed(t: Tree)
    requires forall i :: 0 <= i < |t.kids| ==> !t.kids[i].run.branchPrepared && Idle(t.kids[i])
    ensures KidsOpen(t) == {}
  {
    forall i | 0 <= i < |t.kids| ensures Open(t.kids[i]) == {} {
      IdleIsClosed(t.kids[i]);
    }
  }

  lemma {:induction false} ResetKidsTrack(m: nat, R: set<Key>, s: State, i: nat, clear: bool, r: State)
    requires i <= |s.t.kids| && r == ResetKids(s, i, clear)
    requires Sane(ShapeOf(s.t)) && Mild(m, s.t) && TracksKids(R, s) && KidsRested(m, s.t, i)
    ensures TracksKids(R, r) && Mild(m, r.t) && KidsRested(m, r.t, |r.t.kids|)
    decreases ShapeOf(s.t), 0, |s.t.kids| - i
  {
    hide ResetChild, TracksKids, Mild, KidsRested, Sane;
    if i < |s.t.kids| {
      ResetChildTracks(m, R, s, i, clear);
      ResetKidsTrack(m, R, ResetChild(s, i, clear), i + 1, clear, r);
    }
  }

  lemma {:induction false} ResetChildTracks(m: nat, R: set<Key>, s: State, i: nat, clear: bool)
    requires Sane(ShapeOf(s.t)) && Mild(m, s.t) && TracksKids(R, s) && i < |s.t.kids|
    ensures TracksKids(R, ResetChild(s, i, clear)) && Mild(m, ResetChild(s, i, clear).t)
    ensures KidsRested(m, s.t, i) ==> KidsRested(m, ResetChild(s, i, clear).t, i + 1)
    decreases ShapeOf(s.t), 0, 0, 1
  {
    var kid := s.t.kids[i];
    var r := ResetKid(s, i, clear);
    ResetKidTracks(m, R, s, i, clear, r);
    if s.t.cfg.kind == Parallel && kid.run.branchPrepared {
      CloseBranch(R, r, i, BranchAbort(s.t.cfg.path, kid.cfg.path, i, s.t.cfg.abort));
      RestedBranch(m, r, i);
    }
  }

  lemma {:induction false} ResetKidTracks(m: nat, R: set<Key>, s: State, i: nat, clear: bool, r: State)
    requires i < |s.t.kids| && r == ResetKid(s, i, clear)
    requires Sane(ShapeOf(s.t)) && Mild(m, s.t) && TracksKids(R, s)
    ensures TracksKids(R, r) && Mild(m, r.t) && Rested(m, r.t.kids[i])
    ensures r.t == s.t.(kids := s.t.kids[i := r.t.kids[i]])
    ensures r.t.kids[i].run.branchPrepared == s.t.kids[i].run.branchPrepared
    decreases ShapeOf(s.t), 0, 0, 0
  {
    IntoKid(R, s, i);
    SaneKid(s.t, i);
    ShapeKid(s.t, i);
    var reset := ResetNode(Focus(s, i), clear);
    ResetTracks(m, R + Others(s.t, i), Focus(s, i), clear, reset);
    OutOfKid(R, s.t, i, reset);
    MildKid(m, s.t, i, reset.t);
  }

  /** Clearing the marker of a child at rest leaves it at rest. */
  lemma RestedBranch(m: nat, s: State, i: nat)
    requires i < |s.t.kids| && Mild(m, s.t) && Rested(m, s.t.kids[i])
    ensures Rested(m, SetBranch(s, i, false).t.kids[i]) && Mild(m, SetBranch(s, i, false).t)
  {
    MildKid(m, s.t, i, SetBranch(s, i, false).t.kids[i]);
  }

  /** An action that closes the branch of an idle child. */
  lemma CloseBranch(R: set<Key>, s: State, i: nat, e: Event)
    requires Sane(ShapeOf(s.t)) && TracksKids(R, s) && i < |s.t.kids|
    requires Idle(s.t.kids[i]) && s.t.kids[i].run.branchPrepared
    requires Closes(e, BranchKey(s.t.kids[i].cfg.path))
    ensures TracksKids(R, Note(SetBranch(s, i, false), e))
    ensures Idle(SetBranch(s, i, false).t.kids[i])
  {
    var kid := s.t.kids[i];
    var k := BranchKey(kid.cfg.path);
    IntoKid(R, s, i);
    IdleIsClosed(kid);
    var r := Note(SetBranch(s, i, false), e);
    IdleIsClosed(r.t.kids[i]);
    var F := R + Others(s.t, i);
    CloseLast(F, k, s.trace, e);
    assert F + {} == F;
    OutOfKid(R, s.t, i, Focus(r, i));
    assert Unfocus(s.t, i, Focus(r, i)) == r;
  }

}
