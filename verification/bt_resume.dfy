/** Where a plain tree continues after RUNNING, and stutter invariance of public ticks. */
module BtResume {
  import opened Wrappers
  import opened BtTypes
  import opened BtSemantics
  import opened BtInvariant
  import opened BtProtocol
  import opened BtSoundness
  import opened BtRuns
  import opened BtStutter
  import opened BtPast

  // ---- the leaf that a tick calls first ---------------------------------------------------------

  /** The leaf at the end of the cursors. */
  function Resumed(t: Tree): Tree {
    var c := ResumeAt(t);
    if t.cfg.kind == Leaf || c >= |t.kids| || c < 0 then t else Resumed(t.kids[c])
  }

  /** A tick goes straight down to that leaf: no loop on the way is exhausted. */
  predicate Live(t: Tree) {
    t.cfg.kind == Leaf ||
    (&& 0 <= ResumeAt(t) < |t.kids| && Live(t.kids[ResumeAt(t)])
     && (t.cfg.kind == Retry || t.cfg.kind == Repeat ==> t.run.counter < t.run.limit))
  }

  /** The history of q goes on from that of s with the action e. */
  ghost predicate Begins(s: State, e: Event, q: State) {
    s.trace + [e] <= q.trace
  }

  function FirstCall(s: State): Event {
    Handler(Resumed(s.t).cfg.path, Next(s).status)
  }

  lemma EndGrows(s: State, st: Status)
    ensures s.trace <= End(s, st).s.trace
  {
    hide End, ShapeOf;
    EndPast(s.trace, s.(trace := []), st);
    assert After(s.trace, s.(trace := [])) == s;
  }

  lemma CycleGrows(s: State, child: int)
    ensures s.trace <= NextCycle(s, child).trace
  {
    hide NextCycle, ShapeOf;
    CyclePast(s.trace, s.(trace := []), child);
    assert After(s.trace, s.(trace := [])) == s;
  }

  lemma ChildGrows(m: nat, s: State, i: int, go: Status)
    ensures s.trace <= ChildLoop(m, s, i, go).s.trace
  {
    hide ChildLoop, ShapeOf;
    ChildPast(s.trace, m, s.(trace := []), i, go);
    assert After(s.trace, s.(trace := [])) == s;
  }

  lemma RetryGrows(m: nat, s: State, child: int)
    requires s.t.run.counter < s.t.run.limit
    ensures s.trace <= RetryLoop(m, s, child).s.trace
  {
    hide RetryLoop, ShapeOf;
    RetryPast(s.trace, m, s.(trace := []), child);
    assert After(s.trace, s.(trace := [])) == s;
  }

  lemma RepeatGrows(m: nat, s: State, child: int)
    ensures s.trace <= RepeatLoop(m, s, child).s.trace
  {
    hide RepeatLoop, ShapeOf;
    RepeatPast(s.trace, m, s.(trace := []), child);
    assert After(s.trace, s.(trace := [])) == s;
  }

  lemma {:induction false} NodeBegins(m: nat, s: State)
    requires Plain(ShapeOf(s.t)) && Live(s.t)
    ensures Begins(s, FirstCall(s), TickNode(m, s).s)
    decreases s.t, 1
  {
    PlainRoot(s.t);
    Marked(m, s);
    var armed := SetRun(s, s.t.run.(evaluated := false));
    if s.t.cfg.kind != Leaf {
      PlainOfKid(s.t, ResumeAt(s.t));
      NodeBegins(m, Focus(s, ResumeAt(s.t)));
      KidBegins(m, s, armed);
      hide ShapeOf, Dispatch, TickKid, TickNode, Live, Resumed;
      DispatchGrows(m, armed);
    } else {
      hide ShapeOf, TickNode;
    }
  }

  lemma KidBegins(m: nat, s: State, armed: State)
    requires 0 <= ResumeAt(s.t) < |s.t.kids| && s.t.cfg.kind != Leaf
    requires armed == SetRun(s, s.t.run.(evaluated := false))
    requires Begins(Focus(s, ResumeAt(s.t)), FirstCall(Focus(s, ResumeAt(s.t))), TickNode(m, Focus(s, ResumeAt(s.t))).s)
    ensures Begins(s, FirstCall(s), TickKid(m, armed, ResumeAt(s.t)).s)
  {
    hide TickNode, ShapeOf;
  }

  /** What a plain control node does after its first child call only adds to the history. */
  lemma DispatchGrows(m: nat, s: State)
    requires PlainKind(s.t.cfg.kind) && s.t.cfg.kind != Leaf && 0 <= ResumeAt(s.t) < |s.t.kids|
    requires s.t.cfg.kind == Retry || s.t.cfg.kind == Repeat ==> s.t.run.counter < s.t.run.limit
    ensures TickKid(m, s, ResumeAt(s.t)).s.trace <= Dispatch(m, s).s.trace
  {
    hide TickKid, ShapeOf, End, NextCycle, ChildLoop, RetryLoop, RepeatLoop, Report;
    var i := ResumeAt(s.t);
    var o := TickKid(m, s, i);
    match s.t.cfg.kind
    case Sequence => ChildStep(m, s, i, Success);
    case Fallback => ChildStep(m, s, i, Failure);
    case Retry => RetryStep(m, s, i);
    case Repeat => RepeatStep(m, s, i);
    case Inverter => ReportParts(o.s, Decorate(s.t.cfg.kind, o.status));
    case ForceSuccess => ReportParts(o.s, Decorate(s.t.cfg.kind, o.status));
    case ForceFailure => ReportParts(o.s, Decorate(s.t.cfg.kind, o.status));
  }

  lemma ChildStep(m: nat, s: State, i: nat, go: Status)
    requires i < |s.t.kids|
    ensures TickKid(m, s, i).s.trace <= ChildLoop(m, s, i, go).s.trace
  {
    hide TickKid, ShapeOf, End;
    var o := TickKid(m, s, i);
    if o.code.Ok? && o.status != Running {
      if o.status != go { EndGrows(o.s, o.status); }
      else {
        var next := if i + 1 < |s.t.kids| then i + 1 else NO_CHILD;
        if next < 0 { EndGrows(SetCursor(o.s, next), go); } else { ChildGrows(m, SetCursor(o.s, next), next, go); }
      }
    }
  }

  lemma RetryStep(m: nat, s: State, child: int)
    requires s.t.run.counter < s.t.run.limit
    ensures TickKid(m, s, child).s.trace <= RetryLoop(m, s, child).s.trace
  {
    hide TickKid, ShapeOf, End, NextCycle;
    var o := TickKid(m, s, child);
    if o.code.Ok? && o.status == Success { EndGrows(o.s, Success); }
    if o.code.Ok? && o.status == Failure {
      CycleGrows(o.s, child);
      var r := NextCycle(o.s, child);
      if r.t.run.counter >= r.t.run.limit { EndGrows(r, Failure); }
      else { RetryGrows(m, r, if |r.t.kids| > 0 then 0 else NO_CHILD); }
    }
  }

  lemma RepeatStep(m: nat, s: State, child: int)
    requires s.t.run.counter < s.t.run.limit
    ensures TickKid(m, s, child).s.trace <= RepeatLoop(m, s, child).s.trace
  {
    hide TickKid, ShapeOf, End, NextCycle;
    var o := TickKid(m, s, child);
    if o.code.Ok? && o.status != Running {
      CycleGrows(o.s, child);
      var r := NextCycle(o.s, child);
      RepeatGrows(m, r, if |r.t.kids| > 0 then 0 else NO_CHILD);
    }
  }

  // ---- the leaf that a yielding tick called last --------------------------------------------------

  /** The last action was a call of the leaf at the end of t's cursors, which answered RUNNING. */
  ghost predicate EndsAt(trace: seq<Event>, t: Tree) {
    Live(t) && trace != [] && trace[|trace| - 1] == Handler(Resumed(t).cfg.path, Some(Running))
  }

  lemma {:induction false} NodeEnds(m: nat, S: set<Key>, s: State)
    requires Resettable(m, S, s) && Inv(m, s.t) && Plain(ShapeOf(s.t))
    ensures var o := TickNode(m, s); Yields(o) ==> EndsAt(o.s.trace, o.s.t)
    decreases ShapeOf(s.t), 4
  {
    PlainRoot(s.t);
    InvParts(m, S, s);
    ParamStep(m, S, s, s.t.run.(evaluated := false));
    DispatchEnds(m, S, SetRun(s, s.t.run.(evaluated := false)));
    Marked(m, s);
    hide ShapeOf, Dispatch, TickNode, Resettable, Inv, Mid, InvNode;
    MarkEnds(Dispatch(m, SetRun(s, s.t.run.(evaluated := false))));
  }

  lemma MarkEnds(o: Out)
    requires Yields(o) ==> EndsAt(o.s.trace, o.s.t)
    ensures Yields(Mark(o)) ==> EndsAt(Mark(o).s.trace, Mark(o).s.t)
  {
  }

  lemma {:induction false} KidEnds(m: nat, S: set<Key>, s: State, i: int)
    requires Mid(m, S, s) && Plain(ShapeOf(s.t))
    ensures var o := TickKid(m, s, i);
      Yields(o) ==> 0 <= i < |s.t.kids| && |o.s.t.kids| == |s.t.kids| && EndsAt(o.s.trace, o.s.t.kids[i])
    decreases ShapeOf(s.t), 0
  {
    if 0 <= i < |s.t.kids| {
      ShapeKid(s.t, i);
      PlainOfKid(s.t, i);
      KidReady(m, S, s, i);
      NodeEnds(m, S + Own(s.t) + Others(s.t, i), Focus(s, i));
      hide TickNode, Live;
    }
  }

  /** A node whose resumption child is the one that ended at a running leaf. */
  lemma UpToParent(trace: seq<Event>, t: Tree, i: nat)
    requires i < |t.kids| && EndsAt(trace, t.kids[i]) && ResumeAt(t) == i && t.cfg.kind != Leaf
    requires t.cfg.kind == Retry || t.cfg.kind == Repeat ==> t.run.counter < t.run.limit
    ensures EndsAt(trace, t)
  {
  }

  ghost predicate ChildEnded(m: nat, s: State, i: int, go: Status) {
    var o := ChildLoop(m, s, i, go);
    Yields(o) ==> EndsAt(o.s.trace, o.s.t)
  }

  lemma {:induction false} ChildEnds(m: nat, S: set<Key>, s: State, i: int, go: Status)
    requires Mid(m, S, s) && Plain(ShapeOf(s.t)) && i < |s.t.kids| && go != Running
    requires s.t.cfg.kind == Sequence || s.t.cfg.kind == Fallback
    ensures ChildEnded(m, s, i, go)
    decreases ShapeOf(s.t), 1, |s.t.kids| - i
  {
    hide TickKid, Resettable, Plain, Mid, KidsInv, ShapeOf, EndsAt, ChildEnded, SetCursor, Sane;
    if i < 0 { NoChildLeft(m, s, i, go); }
    else {
      var o := TickKid(m, s, i);
      KidEnds(m, S, s, i);
      if Yields(o) {
        ChildUp(m, s, o, i, go);
      } else if o.code.Ok? && o.status == go && i + 1 < |s.t.kids| {
        var c := NextReady(m, S, s, o, i);
        ChildEnds(m, S, c, i + 1, go);
        ChildRound(m, s, o, c, i, go);
      } else {
        ChildQuiet(m, s, o, i, go);
      }
    }
  }

  lemma NoChildLeft(m: nat, s: State, i: int, go: Status)
    requires i < 0 && go != Running
    ensures ChildEnded(m, s, i, go)
  {
    hide End, ShapeOf, EndsAt;
  }

  /** The loop with its cursor on the next child. */
  lemma NextReady(m: nat, S: set<Key>, s: State, o: Out, i: nat) returns (c: State)
    requires Mid(m, S, s) && Plain(ShapeOf(s.t)) && o == TickKid(m, s, i) && o.code.Ok? && i + 1 < |s.t.kids|
    ensures c == SetCursor(o.s, i + 1) && Mid(m, S, c) && ShapeOf(c.t) == ShapeOf(s.t)
    ensures c.t.cfg == s.t.cfg && |c.t.kids| == |s.t.kids|
  {
    hide TickKid, Resettable, Plain, Mid, KidsInv, ShapeOf, SetCursor;
    c := SetCursor(o.s, i + 1);
    TickKidSound(m, S, s, i);
    CursorParts(o.s, i + 1);
    SetCursorMid(m, S, o.s, i + 1);
  }

  lemma ChildUp(m: nat, s: State, o: Out, i: nat, go: Status)
    requires o == TickKid(m, s, i) && Yields(o) && (s.t.cfg.kind == Sequence || s.t.cfg.kind == Fallback)
    requires i < |s.t.kids| == |o.s.t.kids| && EndsAt(o.s.trace, o.s.t.kids[i])
    ensures ChildEnded(m, s, i, go)
  {
    hide TickKid, ShapeOf, EndsAt, Report, SetCursor, End;
    KidKeeps(m, s, i);
    CursorParts(o.s, i);
    ReportParts(SetCursor(o.s, i), Running);
    UpToParent(o.s.trace, Report(SetCursor(o.s, i), Running).s.t, i);
  }

  lemma ChildRound(m: nat, s: State, o: Out, c: State, i: nat, go: Status)
    requires o == TickKid(m, s, i) && o.code.Ok? && o.status == go != Running && i + 1 < |s.t.kids|
    requires c == SetCursor(o.s, i + 1) && ChildEnded(m, c, i + 1, go)
    ensures ChildEnded(m, s, i, go)
  {
    hide TickKid, ShapeOf, EndsAt, SetCursor, End;
  }

  lemma ChildQuiet(m: nat, s: State, o: Out, i: nat, go: Status)
    requires o == TickKid(m, s, i) && !Yields(o) && go != Running
    requires !(o.code.Ok? && o.status == go && i + 1 < |s.t.kids|)
    ensures ChildEnded(m, s, i, go)
  {
    hide TickKid, ShapeOf, EndsAt, SetCursor, End;
  }

  lemma CursorParts(s: State, c: int)
    ensures SetCursor(s, c) == s.(t := s.t.(run := s.t.run.(cursor := c)))
    ensures ShapeOf(SetCursor(s, c).t) == ShapeOf(s.t)
  {
    hide ShapeOf;
  }

  ghost predicate RetryEnded(m: nat, s: State)
    requires s.t.run.counter < s.t.run.limit
  {
    var o := RetryLoop(m, s, ResumeAt(s.t));
    Yields(o) ==> EndsAt(o.s.trace, o.s.t)
  }

  lemma {:induction false} RetryEnds(m: nat, S: set<Key>, s: State)
    requires Mid(m, S, s) && Plain(ShapeOf(s.t)) && s.t.cfg.kind == Retry && s.t.run.cursor < 0
    requires s.t.run.counter < s.t.run.limit
    ensures RetryEnded(m, s)
    decreases ShapeOf(s.t), 1, s.t.run.limit - s.t.run.counter
  {
    hide TickKid, Resettable, Plain, Mid, NextCycle, ShapeOf, EndsAt, RetryEnded, ResumeAt;
    var k := TickKid(m, s, ResumeAt(s.t));
    KidEnds(m, S, s, ResumeAt(s.t));
    if Yields(k) {
      RetryUp(m, s, k);
    } else if k.code.Ok? && k.status == Failure {
      var c := CycleReady(m, S, s, k);
      if c.t.run.counter < c.t.run.limit { RetryEnds(m, S, c); }
      RetryRound(m, s, k, c);
    } else {
      RetryQuiet(m, s, k);
    }
  }

  lemma RetryUp(m: nat, s: State, k: Out)
    requires k == TickKid(m, s, ResumeAt(s.t)) && Yields(k) && s.t.cfg.kind == Retry && s.t.run.counter < s.t.run.limit
    requires 0 <= ResumeAt(s.t) < |s.t.kids| == |k.s.t.kids| && EndsAt(k.s.trace, k.s.t.kids[ResumeAt(s.t)])
    ensures RetryEnded(m, s)
  {
    hide TickKid, ShapeOf, EndsAt, Report, NextCycle, End;
    LoopUp(s, k, m);
  }

  lemma RetryRound(m: nat, s: State, k: Out, c: State)
    requires s.t.run.counter < s.t.run.limit && s.t.run.cursor < 0 && k == TickKid(m, s, ResumeAt(s.t))
    requires k.code.Ok? && k.status == Failure && c == NextCycle(k.s, ResumeAt(s.t))
    requires |c.t.kids| == |s.t.kids| && c.t.run == s.t.run.(counter := s.t.run.counter + 1)
    requires c.t.run.counter < c.t.run.limit ==> RetryEnded(m, c)
    ensures RetryEnded(m, s)
  {
    RetryUnfold(m, s, ResumeAt(s.t), k, c);
    hide TickKid, ShapeOf, EndsAt, NextCycle, End, RetryLoop;
  }

  lemma RetryQuiet(m: nat, s: State, k: Out)
    requires k == TickKid(m, s, ResumeAt(s.t)) && !Yields(k)
    requires s.t.run.counter < s.t.run.limit
    requires !(k.code.Ok? && k.status == Failure)
    ensures RetryEnded(m, s)
  {
    hide TickKid, ShapeOf, EndsAt, NextCycle, End, Report;
  }

  /** A loop whose child yields ends where the child does. */
  lemma LoopUp(s: State, k: Out, m: nat)
    requires k == TickKid(m, s, ResumeAt(s.t)) && s.t.cfg.kind != Leaf && s.t.run.counter < s.t.run.limit
    requires 0 <= ResumeAt(s.t) < |s.t.kids| == |k.s.t.kids| && EndsAt(k.s.trace, k.s.t.kids[ResumeAt(s.t)])
    ensures EndsAt(Report(k.s, Running).s.trace, Report(k.s, Running).s.t)
  {
    KidKeeps(m, s, ResumeAt(s.t));
    ReportParts(k.s, Running);
    hide TickKid, ShapeOf, EndsAt, Report;
    UpToParent(k.s.trace, Report(k.s, Running).s.t, ResumeAt(s.t));
  }

  ghost predicate RepeatEnded(m: nat, s: State)
  {
    var o := RepeatLoop(m, s, ResumeAt(s.t));
    Yields(o) ==> EndsAt(o.s.trace, o.s.t)
  }

  lemma {:induction false} RepeatEnds(m: nat, S: set<Key>, s: State)
    requires Mid(m, S, s) && Plain(ShapeOf(s.t)) && s.t.cfg.kind == Repeat && s.t.run.cursor < 0
    ensures RepeatEnded(m, s)
    decreases ShapeOf(s.t), 1, if s.t.run.counter < s.t.run.limit then s.t.run.limit - s.t.run.counter else 0
  {
    hide TickKid, Resettable, Plain, Mid, NextCycle, ShapeOf, EndsAt, RepeatEnded, ResumeAt;
    var k := TickKid(m, s, ResumeAt(s.t));
    KidEnds(m, S, s, ResumeAt(s.t));
    if s.t.run.counter < s.t.run.limit && Yields(k) {
      RepeatUp(m, s, k);
    } else if s.t.run.counter < s.t.run.limit && k.code.Ok? {
      var c := CycleReady(m, S, s, k);
      RepeatEnds(m, S, c);
      RepeatRound(m, s, k, c);
    } else {
      RepeatQuiet(m, s, k);
    }
  }

  lemma RepeatUp(m: nat, s: State, k: Out)
    requires k == TickKid(m, s, ResumeAt(s.t)) && Yields(k) && s.t.cfg.kind == Repeat && s.t.run.counter < s.t.run.limit
    requires 0 <= ResumeAt(s.t) < |s.t.kids| == |k.s.t.kids| && EndsAt(k.s.trace, k.s.t.kids[ResumeAt(s.t)])
    ensures RepeatEnded(m, s)
  {
    hide TickKid, ShapeOf, EndsAt, Report, NextCycle, End;
    LoopUp(s, k, m);
  }

  lemma RepeatRound(m: nat, s: State, k: Out, c: State)
    requires s.t.run.counter < s.t.run.limit && s.t.run.cursor < 0 && k == TickKid(m, s, ResumeAt(s.t))
    requires k.code.Ok? && k.status != Running && c == NextCycle(k.s, ResumeAt(s.t))
    requires |c.t.kids| == |s.t.kids| && c.t.run == s.t.run.(counter := s.t.run.counter + 1)
    requires RepeatEnded(m, c)
    ensures RepeatEnded(m, s)
  {
    RepeatUnfold(m, s, ResumeAt(s.t), k, c);
    hide TickKid, ShapeOf, EndsAt, NextCycle, End, RepeatLoop;
  }

  lemma RepeatQuiet(m: nat, s: State, k: Out)
    requires k == TickKid(m, s, ResumeAt(s.t))
    requires !(s.t.run.counter < s.t.run.limit && k.code.Ok?)
    ensures RepeatEnded(m, s)
  {
    hide TickKid, ShapeOf, EndsAt, NextCycle, End, Report;
  }

  lemma {:induction false} DecoratorEnds(m: nat, S: set<Key>, s: State)
    requires Mid(m, S, s) && Plain(ShapeOf(s.t)) && s.t.cfg.kind != Leaf
    requires s.t.cfg.kind != Retry && s.t.cfg.kind != Repeat
    ensures var o := TickDecorator(m, s); Yields(o) ==> EndsAt(o.s.trace, o.s.t)
    decreases ShapeOf(s.t), 1
  {
    hide TickKid, Mid, Plain, ShapeOf, EndsAt, ResumeAt, TickDecorator;
    KidEnds(m, S, s, ResumeAt(s.t));
    DecoratorUp(s, TickKid(m, s, ResumeAt(s.t)), m);
  }

  lemma DecoratorUp(s: State, k: Out, m: nat)
    requires k == TickKid(m, s, ResumeAt(s.t))
    requires s.t.cfg.kind != Leaf && s.t.cfg.kind != Retry && s.t.cfg.kind != Repeat
    requires Yields(k) ==>
      0 <= ResumeAt(s.t) < |s.t.kids| == |k.s.t.kids| && EndsAt(k.s.trace, k.s.t.kids[ResumeAt(s.t)])
    ensures var o := TickDecorator(m, s); Yields(o) ==> EndsAt(o.s.trace, o.s.t)
  {
    KidKeeps(m, s, ResumeAt(s.t));
    ReportParts(k.s, Running);
    hide TickKid, ShapeOf, EndsAt, Report;
    if Yields(k) { UpToParent(k.s.trace, Report(k.s, Running).s.t, ResumeAt(s.t)); }
    ReportParts(k.s, Decorate(s.t.cfg.kind, k.status));
  }

  lemma {:induction false} DispatchEnds(m: nat, S: set<Key>, s: State)
    requires Mid(m, S, s) && InvNode(m, s.t) && Plain(ShapeOf(s.t))
    ensures var o := Dispatch(m, s); Yields(o) ==> EndsAt(o.s.trace, o.s.t)
    decreases ShapeOf(s.t), 3
  {
    PlainRoot(s.t);
    if s.t.cfg.kind == Leaf {
      LeafEnds(s);
    } else {
      hide Resettable, Plain, Mid, KidsInv, ShapeOf, TickDecorator, ChildLoop, RetryLoop, RepeatLoop, End, EndsAt;
      match s.t.cfg.kind
      case Sequence => ChildEnds(m, S, s, ResumeAt(s.t), Success);
      case Fallback => ChildEnds(m, S, s, ResumeAt(s.t), Failure);
      case Retry => if s.t.run.counter < s.t.run.limit { RetryEnds(m, S, s); }
      case Repeat => if s.t.run.limit != 0 { RepeatEnds(m, S, s); }
      case Inverter => DecoratorEnds(m, S, s);
      case ForceSuccess => DecoratorEnds(m, S, s);
      case ForceFailure => DecoratorEnds(m, S, s);
    }
  }

  lemma LeafEnds(s: State)
    requires s.t.cfg.kind == Leaf
    ensures var o := TickLeaf(s); Yields(o) ==> EndsAt(o.s.trace, o.s.t)
  {
    hide ShapeOf;
  }

  /** The next tick first calls the leaf that was called last and answered RUNNING. */
  ghost predicate Resumes(m: nat, q: State) {
    var n := |q.trace| - 1;
    && n >= 0 && q.trace[n].Handler? && q.trace[n].answer == Some(Running)
    && Begins(q, Handler(q.trace[n].path, Next(q).status), TickNode(m, q).s)
  }

  /** A tree that has yielded resumes at exactly that leaf, whatever the host answers next. */
  lemma ResumesAtLeaf(m: nat, S: set<Key>, s: State, answers: seq<Answer>)
    requires Resettable(m, S, s) && Inv(m, s.t) && Plain(ShapeOf(s.t)) && Yields(TickNode(m, s))
    ensures Resumes(m, TickNode(m, s).s.(script := answers))
  {
    hide Resettable, Inv, TickNode, ShapeOf, Plain, Live, Resumed;
    var q := TickNode(m, s).s.(script := answers);
    NodeEnds(m, S, s);
    assert ShapeOf(q.t) == ShapeOf(s.t);
    EndsLive(q);
    NodeBegins(m, q);
  }

  lemma EndsLive(q: State)
    requires EndsAt(q.trace, q.t)
    ensures Live(q.t) && q.trace != [] && q.trace[|q.trace| - 1] == Handler(Resumed(q.t).cfg.path, Some(Running))
  {
  }

  // ---- public ticks ------------------------------------------------------------------------------------

  predicate TreeYields(r: Reply) { r.code.Ok? && r.status == Running }

  /** Public ticks until the tree no longer yields, at most n + 1 of them. */
  function DriveTree(x: Machine, n: nat): Reply
    decreases n
  {
    var r := TickTree(x);
    if n == 0 || !TreeYields(r) then r else DriveTree(r.machine, n - 1)
  }

  function StripMachine(x: Machine): Machine {
    x.(script := Terminals(x.script), trace := Quiet(x.trace))
  }

  /** The leaf calls of a history, RUNNING answers left out. */
  function LeafCalls(trace: seq<Event>): seq<Event> {
    if trace == [] then []
    else
      var n := |trace| - 1;
      LeafCalls(trace[..n]) + if trace[n].Handler? && !Stutters(trace[n]) then [trace[n]] else []
  }

  lemma LeafCallsStep(trace: seq<Event>, e: Event)
    ensures LeafCalls(trace + [e]) == LeafCalls(trace) + if e.Handler? && !Stutters(e) then [e] else []
  {
    var all := trace + [e];
    assert all[..|all| - 1] == trace && all[|all| - 1] == e;
  }

  lemma {:induction false} QuietKeepsCalls(trace: seq<Event>)
    ensures LeafCalls(Quiet(trace)) == LeafCalls(trace)
    decreases |trace|
  {
    if trace != [] {
      var n := |trace| - 1;
      QuietKeepsCalls(trace[..n]);
      if Stutters(trace[n]) { assert Quiet(trace) == Quiet(trace[..n]); }
      else { LeafCallsStep(Quiet(trace[..n]), trace[n]); }
    }
  }

  lemma {:induction false} ResetCallsNoLeaf(s: State, clear: bool)
    ensures LeafCalls(ResetNode(s, clear).trace) == LeafCalls(s.trace)
    decreases ShapeOf(s.t), 1, 0
  {
    hide ResetKids, LeafCalls;
    var c := Clear(s, clear);
    assert LeafCalls(c.trace) == LeafCalls(s.trace) by { LeafCallsStep(s.trace, Halt(s.t.cfg.path, s.t.cfg.halt)); }
    KidsCallNoLeaf(c, 0, clear);
    var r := ResetKids(c, 0, clear);
    LeafCallsStep(r.trace, PipelineAbort(s.t.cfg.path, s.t.run.counter, s.t.cfg.abort));
    LeafCallsStep(r.trace, QueueAbort(s.t.cfg.path, s.t.cfg.abort));
  }

  lemma {:induction false} KidsCallNoLeaf(s: State, i: nat, clear: bool)
    requires i <= |s.t.kids|
    ensures LeafCalls(ResetKids(s, i, clear).trace) == LeafCalls(s.trace)
    decreases ShapeOf(s.t), 0, |s.t.kids| - i
  {
    hide ResetNode, LeafCalls;
    if i < |s.t.kids| {
      var kid := s.t.kids[i];
      ShapeKid(s.t, i);
      ResetCallsNoLeaf(Focus(s, i), clear);
      LeafCallsStep(ResetNode(Focus(s, i), clear).trace, BranchAbort(s.t.cfg.path, kid.cfg.path, i, s.t.cfg.abort));
      KidsCallNoLeaf(ResetChild(s, i, clear), i + 1, clear);
    }
  }

  /** Same code, same answers consumed and same leaf calls; without an error also the same
      status and the same machine. */
  ghost predicate SameReply(a: Reply, b: Reply) {
    && a.code == b.code && a.machine.script == b.machine.script
    && LeafCalls(a.machine.trace) == LeafCalls(b.machine.trace)
    && (a.code.Ok? ==> a == b)
  }

  /** Validation gives the same result for two states of a plain tree. */
  lemma {:induction false} SameValid(m: nat, maxDepth: nat, t: Tree, u: Tree)
    requires Plain(ShapeOf(t)) && ShapeOf(t) == ShapeOf(u) && Mild(m, t) && Mild(m, u)
    ensures ValidTree(m, maxDepth, t) == ValidTree(m, maxDepth, u)
  {
    assert t.cfg == u.cfg && |t.kids| == |u.kids| by {
      assert ShapeOf(t).cfg == ShapeOf(u).cfg && |ShapeOf(t).kids| == |ShapeOf(u).kids|;
    }
    assert ValidNode(m, maxDepth, t) == ValidNode(m, maxDepth, u) by { PlainRoot(t); }
    forall i | 0 <= i < |t.kids| ensures ValidTree(m, maxDepth, t.kids[i]) == ValidTree(m, maxDepth, u.kids[i]) {
      ShapeKid(t, i);
      ShapeKid(u, i);
      PlainOfKid(t, i);
      MildOfKid(m, t, i);
      MildOfKid(m, u, i);
      SameValid(m, maxDepth, t.kids[i], u.kids[i]);
    }
    hide Plain, ShapeOf, Mild, ValidNode;
  }

  /** What a public tick answers, from what the tick of the root does. */
  function Answered(x: Machine, o: Out): Reply {
    if o.code.Ok? then Reply(Rooted(x, o.s), Ok, o.status)
    else Reply(ResetTree(Rooted(x, o.s)), o.code, Failure)
  }

  lemma {:induction false} DriveTreeIs(x: Machine, n: nat)
    requires Healthy(x) && x.root.Some? && Plain(ShapeOf(x.root.value))
    requires ValidTree(x.m, x.maxDepth, x.root.value)
    ensures DriveTree(x, n) == Answered(x, Drive(x.m, State(x.script, x.trace, x.root.value), n))
    decreases n
  {
    hide Inv, Plain, TickNode, ShapeOf, ResetTree, Sane, Replay, Open, Mild, ValidTree, IdsUpTo;
    var t := x.root.value;
    var o := TickNode(x.m, State(x.script, x.trace, t));
    if n > 0 && Yields(o) {
      TickHealthy(x);
      InvIsMild(x.m, t);
      InvIsMild(x.m, o.s.t);
      assert ShapeOf(o.s.t) == ShapeOf(t);
      SameValid(x.m, x.maxDepth, t, o.s.t);
      DriveTreeIs(Rooted(x, o.s), n - 1);
    }
  }

  /** Equal ticks of the root give equal public answers, clean-up after an error included. */
  lemma AnswersAgree(x: Machine, y: Machine, a: Out, b: Out)
    requires Same(a, b) && y == StripMachine(x)
    ensures SameReply(Answered(y, a), Answered(y, b))
  {
    hide ResetNode, ShapeOf, LeafCalls, Quiet, Terminals;
    ResetCallsNoLeaf(a.s, true);
    ResetCallsNoLeaf(b.s, true);
  }

  lemma StripAnswered(x: Machine, o: Out)
    ensures var p, q := Answered(StripMachine(x), StripOut(o)), Answered(x, o);
      && p.code == q.code && p.status == q.status && p.machine == StripMachine(q.machine)
  {
    hide ResetNode, ShapeOf, Quiet, Terminals;
    StripReset(o.s, true);
  }

  /** Public ticks of a plain tree in any healthy state: however many it takes until the tree
      no longer yields, one public tick with the RUNNING answers deleted gives the same reply. */
  lemma PublicStutter(x: Machine, n: nat)
    requires Healthy(x) && (x.root.Some? ==> Plain(ShapeOf(x.root.value))) && !TreeYields(DriveTree(x, n))
    ensures var r := DriveTree(x, n);
      && SameReply(TickTree(StripMachine(x)), r.(machine := StripMachine(r.machine)))
      && LeafCalls(TickTree(StripMachine(x)).machine.trace) == LeafCalls(r.machine.trace)
  {
    QuietKeepsCalls(DriveTree(x, n).machine.trace);
    hide Inv, Plain, TickNode, ShapeOf, Sane, Replay, Open, Mild, ValidTree, IdsUpTo, LeafCalls, Quiet, Terminals,
      ResetNode, Drive, Same, Answered;
    if x.root.Some? && ValidTree(x.m, x.maxDepth, x.root.value) {
      var s := State(x.script, x.trace, x.root.value);
      DriveTreeIs(x, n);
      InvIsMild(x.m, s.t);
      RootTracks(x);
      AnsweredYields(x, Drive(x.m, s, n));
      StutterInvariance(x.m, {}, s, n);
      AnswersAgree(x, StripMachine(x), TickNode(x.m, Strip(s)), StripOut(Drive(x.m, s, n)));
      StripAnswered(x, Drive(x.m, s, n));
      TickAnswered(StripMachine(x));
    } else if x.root.Some? {
      StripReset(State(x.script, x.trace, x.root.value), true);
    }
  }

  lemma AnsweredYields(x: Machine, o: Out)
    ensures TreeYields(Answered(x, o)) == Yields(o)
  {
    hide ResetTree;
  }

  lemma TickAnswered(x: Machine)
    requires x.root.Some? && ValidTree(x.m, x.maxDepth, x.root.value)
    ensures TickTree(x) == Answered(x, TickNode(x.m, State(x.script, x.trace, x.root.value)))
  {
    hide ValidTree, TickNode, ResetTree;
  }

  /** The same in every state that public calls can reach, and the place where a tree resumes. */
  lemma ReachablePublicStutter(m: nat, maxNodes: nat, maxDepth: nat, script: seq<Answer>, ops: seq<Op>, n: nat)
    ensures var x := Perform(Empty(m, maxNodes, maxDepth, script), ops);
      var r := DriveTree(x, n);
      (x.root.Some? ==> Plain(ShapeOf(x.root.value))) && !TreeYields(r) ==>
        && SameReply(TickTree(StripMachine(x)), r.(machine := StripMachine(r.machine)))
        && LeafCalls(TickTree(StripMachine(x)).machine.trace) == LeafCalls(r.machine.trace)
  {
    var x := Perform(Empty(m, maxNodes, maxDepth, script), ops);
    RunHealthy(Empty(m, maxNodes, maxDepth, script), ops);
    hide Perform, Plain, ShapeOf, DriveTree, TickTree, Healthy, LeafCalls, SameReply;
    if (x.root.Some? ==> Plain(ShapeOf(x.root.value))) && !TreeYields(DriveTree(x, n)) { PublicStutter(x, n); }
  }

  lemma ReachableResume(m: nat, maxNodes: nat, maxDepth: nat, script: seq<Answer>, ops: seq<Op>, answers: seq<Answer>)
    ensures var x := Perform(Empty(m, maxNodes, maxDepth, script), ops);
      x.root.Some? && Plain(ShapeOf(x.root.value)) ==>
        var o := TickNode(x.m, State(x.script, x.trace, x.root.value));
        Yields(o) ==> Resumes(x.m, o.s.(script := answers))
  {
    var x := Perform(Empty(m, maxNodes, maxDepth, script), ops);
    RunHealthy(Empty(m, maxNodes, maxDepth, script), ops);
    hide TickNode, Plain, ShapeOf, Inv, Sane, Replay, Open, Mild, Perform, Resumes;
    if x.root.Some? && Plain(ShapeOf(x.root.value)) {
      var s := State(x.script, x.trace, x.root.value);
      InvIsMild(x.m, s.t);
      RootTracks(x);
      if Yields(TickNode(x.m, s)) { ResumesAtLeaf(x.m, {}, s, answers); }
    }
  }
}
