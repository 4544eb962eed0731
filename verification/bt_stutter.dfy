/** Stutter invariance: for plain trees, RUNNING answers only spread the work over several
    ticks. Deleting them changes neither the leaves called, nor their order, nor the outcome. */
module BtStutter {
  import opened Wrappers
  import opened BtTypes
  import opened BtSemantics
  import opened BtInvariant
  import opened BtProtocol
  import opened BtSoundness
  import opened BtRuns

  predicate PlainKind(k: Kind) {
    k == Leaf || k == Sequence || k == Fallback || k == Inverter || k == ForceSuccess ||
    k == ForceFailure || k == Retry || k == Repeat
  }

  /** Only the kinds above, with constructor-time parameters. */
  ghost predicate Plain(sh: Shape) {
    && PlainKind(sh.cfg.kind) && sh.cfg.resolver.NoResolver?
    && forall i :: 0 <= i < |sh.kids| ==> Plain(sh.kids[i])
  }

  lemma PlainOfKid(t: Tree, i: nat)
    requires Plain(ShapeOf(t)) && i < |t.kids|
    ensures Plain(ShapeOf(t.kids[i]))
  {
    ShapeKid(t, i);
  }

  // ---- deleting RUNNING --------------------------------------------------------------------

  function Terminals(script: seq<Answer>): seq<Answer> {
    if script == [] then []
    else (if script[0].status == Some(Running) then [] else [script[0]]) + Terminals(script[1..])
  }

  predicate Stutters(e: Event) {
    e.Handler? && e.answer == Some(Running)
  }

  function Quiet(trace: seq<Event>): seq<Event> {
    if trace == [] then []
    else
      var n := |trace| - 1;
      Quiet(trace[..n]) + if Stutters(trace[n]) then [] else [trace[n]]
  }

  function Strip(s: State): State {
    State(Terminals(s.script), Quiet(s.trace), s.t)
  }

  function StripOut(o: Out): Out {
    o.(s := Strip(o.s))
  }

  lemma QuietStep(trace: seq<Event>, e: Event)
    ensures Quiet(trace + [e]) == Quiet(trace) + if Stutters(e) then [] else [e]
  {
    assert (trace + [e])[..|trace|] == trace;
  }

  lemma StripNote(s: State, e: Event)
    requires !Stutters(e)
    ensures Strip(Note(s, e)) == Note(Strip(s), e)
  {
    QuietStep(s.trace, e);
  }

  // ---- resets commute with it ------------------------------------------------------------------

  lemma {:induction false} StripReset(s: State, clear: bool)
    ensures ResetNode(Strip(s), clear) == Strip(ResetNode(s, clear))
    decreases ShapeOf(s.t), 1, 0
  {
    hide ResetKids, ShapeOf, Strip;
    var c := Clear(s, clear);
    StripClear(s, clear);
    assert ShapeOf(c.t) == ShapeOf(s.t);
    StripResetKids(c, 0, clear);
    StripClose(s.t, ResetKids(c, 0, clear));
  }

  lemma StripClear(s: State, clear: bool)
    ensures Clear(Strip(s), clear) == Strip(Clear(s, clear)) && Strip(s).t == s.t
  {
    hide ShapeOf, Quiet, Terminals;
    if s.t.cfg.kind == Leaf && s.t.run.running { StripNote(s, Halt(s.t.cfg.path, s.t.cfg.halt)); }
  }

  lemma StripClose(was: Tree, s: State)
    ensures CloseAdapter(was, Strip(s)) == Strip(CloseAdapter(was, s))
  {
    hide Quiet, Terminals;
    if was.cfg.kind == Pipeline && was.run.prepared {
      StripNote(s, PipelineAbort(was.cfg.path, was.run.counter, was.cfg.abort));
    } else if was.cfg.kind == ConsumeQueue && was.run.prepared {
      StripNote(s, QueueAbort(was.cfg.path, was.cfg.abort));
    }
  }

  lemma {:induction false} StripResetKids(s: State, i: nat, clear: bool)
    requires i <= |s.t.kids|
    ensures Strip(s).t == s.t && ResetKids(Strip(s), i, clear) == Strip(ResetKids(s, i, clear))
    decreases ShapeOf(s.t), 0, |s.t.kids| - i
  {
    hide ResetChild, ShapeOf;
    if i < |s.t.kids| {
      StripResetChild(s, i, clear);
      StripResetKids(ResetChild(s, i, clear), i + 1, clear);
    }
  }

  lemma {:induction false} StripResetChild(s: State, i: nat, clear: bool)
    requires i < |s.t.kids|
    ensures ResetChild(Strip(s), i, clear) == Strip(ResetChild(s, i, clear))
    decreases ShapeOf(s.t), 0, 0
  {
    hide ResetNode, Quiet, Terminals;
    ShapeKid(s.t, i);
    var kid := s.t.kids[i];
    StripReset(Focus(s, i), clear);
    var r := Unfocus(s.t, i, ResetNode(Focus(s, i), clear));
    if s.t.cfg.kind == Parallel && kid.run.branchPrepared {
      StripNote(SetBranch(r, i, false), BranchAbort(s.t.cfg.path, kid.cfg.path, i, s.t.cfg.abort));
    }
  }

  lemma StripEnd(s: State, st: Status)
    ensures End(Strip(s), st) == StripOut(End(s, st))
  {
    hide ResetNode, ShapeOf, Quiet, Terminals;
    StripReset(s, false);
  }

  lemma StripResetKid(s: State, i: int, clear: bool)
    ensures ResetKid(Strip(s), i, clear) == Strip(ResetKid(s, i, clear))
  {
    hide ResetNode, ShapeOf, Quiet, Terminals;
    if 0 <= i < |s.t.kids| { StripReset(Focus(s, i), clear); }
  }

  // ---- states that differ only in what a control node overwrites ------------------------------------

  /** Same answer; after an error the half-finished trees may differ. */
  ghost predicate Same(a: Out, b: Out) {
    && a.code == b.code && a.status == b.status && a.s.script == b.s.script && a.s.trace == b.s.trace
    && (a.code.Ok? ==> a.s.t == b.s.t)
  }

  /** Equal but for the root's last status and cursor. */
  ghost predicate Near(a: State, b: State) {
    && a.script == b.script && a.trace == b.trace && a.t.cfg == b.t.cfg && a.t.kids == b.t.kids
    && a.t.run == b.t.run.(last := a.t.run.last, cursor := a.t.run.cursor)
  }

  ghost predicate NearOut(a: Out, b: Out) {
    && a.code == b.code && a.status == b.status && a.s.script == b.s.script && a.s.trace == b.s.trace
    && (a.code.Ok? ==> Near(a.s, b.s))
  }

  lemma NearReset(a: State, b: State)
    requires Near(a, b) && PlainKind(a.t.cfg.kind) && a.t.cfg.kind != Leaf
    ensures ResetNode(a, false) == ResetNode(b, false)
  {
    hide ResetKids, ShapeOf;
  }

  lemma NearEnd(a: State, b: State, st: Status)
    requires Near(a, b) && PlainKind(a.t.cfg.kind) && a.t.cfg.kind != Leaf
    ensures End(a, st) == End(b, st)
  {
    hide ResetNode, ShapeOf;
    NearReset(a, b);
  }

  lemma NearKid(m: nat, a: State, b: State, i: int)
    requires Near(a, b)
    ensures NearOut(TickKid(m, a, i), TickKid(m, b, i))
    ensures TickKid(m, a, i).s.t.cfg == a.t.cfg && |TickKid(m, a, i).s.t.kids| == |a.t.kids|
  {
    hide TickNode, ShapeOf;
  }

  lemma NearCycle(a: State, b: State, child: int)
    requires Near(a, b)
    ensures Near(NextCycle(a, child), NextCycle(b, child))
  {
    hide ResetNode, ShapeOf;
  }

  // ---- the loops on near states --------------------------------------------------------------------

  lemma {:induction false} ChildNear(m: nat, a: State, b: State, i: int, go: Status)
    requires Near(a, b) && (a.t.cfg.kind == Sequence || a.t.cfg.kind == Fallback) && go != Running
    requires i < |a.t.kids|
    ensures Same(ChildLoop(m, a, i, go), ChildLoop(m, b, i, go))
    decreases |a.t.kids| - i, 1
  {
    hide TickKid, End, ShapeOf;
    if i < 0 { NearEnd(a, b, go); } else { NearKid(m, a, b, i); ChildAfter(m, a, b, i, go); }
  }

  /** Near results of the first child make the rest of the loop agree. */
  lemma {:induction false} ChildAfter(m: nat, a: State, b: State, i: nat, go: Status)
    requires NearOut(TickKid(m, a, i), TickKid(m, b, i)) && a.t.cfg == b.t.cfg && |a.t.kids| == |b.t.kids|
    requires (a.t.cfg.kind == Sequence || a.t.cfg.kind == Fallback) && go != Running
    ensures Same(ChildLoop(m, a, i, go), ChildLoop(m, b, i, go))
    decreases |a.t.kids| - i, 0
  {
    hide TickKid, End, ShapeOf;
    var p, q := TickKid(m, a, i), TickKid(m, b, i);
    if p.code.Ok? {
      var next := if i + 1 < |a.t.kids| then i + 1 else NO_CHILD;
      KidKeeps(m, a, i);
      if p.status == Running {
        assert Report(SetCursor(p.s, i), Running) == Report(SetCursor(q.s, i), Running);
      } else if p.status != go {
        NearEnd(p.s, q.s, p.status);
      } else {
        NearCursor(p.s, q.s, next);
        hide SetCursor;
        if next < 0 { NearEnd(SetCursor(p.s, next), SetCursor(q.s, next), go); }
        else { ChildNear(m, SetCursor(p.s, next), SetCursor(q.s, next), next, go); }
      }
    }
  }

  lemma KidKeeps(m: nat, s: State, i: int)
    ensures var o := TickKid(m, s, i); o.s.t.cfg == s.t.cfg && |o.s.t.kids| == |s.t.kids| && o.s.t.run == s.t.run
  {
    hide TickKid, ShapeOf;
  }

  lemma NearCursor(a: State, b: State, c: int)
    requires Near(a, b)
    ensures Near(SetCursor(a, c), SetCursor(b, c))
    ensures SetCursor(a, c).t.cfg == a.t.cfg && |SetCursor(a, c).t.kids| == |a.t.kids|
  {
    hide ShapeOf;
  }

  /** Equal but for the root's last status. */
  ghost predicate Close(a: State, b: State) {
    Near(a, b) && a.t.run.cursor == b.t.run.cursor
  }

  lemma CloseReport(a: State, b: State, st: Status)
    requires Close(a, b)
    ensures Report(a, st) == Report(b, st)
  {
    hide ShapeOf;
  }

  lemma CloseCycle(a: State, b: State, child: int)
    requires Close(a, b)
    ensures var p, q := NextCycle(a, child), NextCycle(b, child);
      Close(p, q) && p.t.cfg == a.t.cfg && |p.t.kids| == |a.t.kids|
  {
    hide ResetKid, ShapeOf;
    NearCycle(a, b, child);
  }

  lemma {:induction false} RetryNear(m: nat, a: State, b: State, child: int)
    requires Close(a, b) && a.t.cfg.kind == Retry && a.t.run.counter < a.t.run.limit
    ensures Same(RetryLoop(m, a, child), RetryLoop(m, b, child))
    decreases a.t.run.limit - a.t.run.counter, 1
  {
    hide RetryLoop;
    NearKid(m, a, b, child);
    RetryAfter(m, a, b, child);
  }

  lemma {:induction false} RetryAfter(m: nat, a: State, b: State, child: int)
    requires NearOut(TickKid(m, a, child), TickKid(m, b, child)) && a.t.cfg == b.t.cfg && |a.t.kids| == |b.t.kids|
    requires a.t.run == b.t.run.(last := a.t.run.last)
    requires a.t.cfg.kind == Retry && a.t.run.counter < a.t.run.limit
    ensures Same(RetryLoop(m, a, child), RetryLoop(m, b, child))
    decreases a.t.run.limit - a.t.run.counter, 0
  {
    hide TickKid, End, ShapeOf, NextCycle, Report;
    var p, q := TickKid(m, a, child), TickKid(m, b, child);
    KidKeeps(m, a, child);
    KidKeeps(m, b, child);
    if p.code.Ok? {
      if p.status == Running { CloseReport(p.s, q.s, Running); }
      else if p.status == Success { NearEnd(p.s, q.s, Success); }
      else {
        CloseCycle(p.s, q.s, child);
        var c, d := NextCycle(p.s, child), NextCycle(q.s, child);
        if c.t.run.counter >= c.t.run.limit { NearEnd(c, d, Failure); }
        else { RetryNear(m, c, d, if |c.t.kids| > 0 then 0 else NO_CHILD); }
      }
    }
  }

  lemma {:induction false} RepeatNear(m: nat, a: State, b: State, child: int)
    requires Close(a, b) && a.t.cfg.kind == Repeat
    ensures Same(RepeatLoop(m, a, child), RepeatLoop(m, b, child))
    decreases if a.t.run.counter < a.t.run.limit then a.t.run.limit - a.t.run.counter else 0, 1
  {
    hide TickKid, End, ShapeOf, NextCycle, Report;
    if a.t.run.counter >= a.t.run.limit { NearEnd(a, b, Success); }
    else {
      NearKid(m, a, b, child);
      RepeatAfter(m, a, b, child);
    }
  }

  lemma {:induction false} RepeatAfter(m: nat, a: State, b: State, child: int)
    requires NearOut(TickKid(m, a, child), TickKid(m, b, child)) && a.t.cfg == b.t.cfg && |a.t.kids| == |b.t.kids|
    requires a.t.run == b.t.run.(last := a.t.run.last)
    requires a.t.cfg.kind == Repeat && a.t.run.counter < a.t.run.limit
    ensures Same(RepeatLoop(m, a, child), RepeatLoop(m, b, child))
    decreases a.t.run.limit - a.t.run.counter, 0
  {
    hide TickKid, End, ShapeOf, NextCycle, Report;
    var p, q := TickKid(m, a, child), TickKid(m, b, child);
    KidKeeps(m, a, child);
    KidKeeps(m, b, child);
    if p.code.Ok? {
      if p.status == Running { CloseReport(p.s, q.s, Running); }
      else {
        CloseCycle(p.s, q.s, child);
        var c, d := NextCycle(p.s, child), NextCycle(q.s, child);
        RepeatNear(m, c, d, if |c.t.kids| > 0 then 0 else NO_CHILD);
      }
    }
  }

  // ---- one tick against its stripped form ------------------------------------------------------------

  predicate Yields(o: Out) { o.code.Ok? && o.status == Running }

  /** p is the stripped tick, r the stripped tick after o: if o yields, p does what o and r do
      together; otherwise p does what o does. */
  ghost predicate Locked(o: Out, p: Out, r: Out) {
    if Yields(o) then Same(p, r) else p == StripOut(o)
  }

  lemma NearOutTrans(a: Out, b: Out, c: Out)
    requires NearOut(a, b) && NearOut(b, c)
    ensures NearOut(a, c)
  {
  }

  lemma {:induction false} NodeLock(m: nat, S: set<Key>, s: State)
    requires Resettable(m, S, s) && Inv(m, s.t) && Plain(ShapeOf(s.t))
    ensures Locked(TickNode(m, s), TickNode(m, Strip(s)), TickNode(m, Strip(TickNode(m, s).s)))
    decreases ShapeOf(s.t), 4
  {
    hide Resettable, Inv, Mid, InvNode, ShapeOf, Dispatch, Quiet, Terminals, StripOut;
    assert s.t.cfg.resolver.NoResolver? by { PlainRoot(s.t); }
    InvParts(m, S, s);
    var q := s.t.run.(evaluated := false);
    ParamStep(m, S, s, q);
    var s1 := SetRun(s, q);
    DispatchLock(m, S, s1);
    var o, p := Dispatch(m, s1), Dispatch(m, Strip(s1));
    assert TickNode(m, s) == Mark(o) by { Marked(m, s); }
    assert TickNode(m, Strip(s)) == Mark(p) by {
      Marked(m, Strip(s));
      StripRun(s, q);
    }
    MarkedSame(o, p, Dispatch(m, Strip(o.s)));
    if Yields(o) { MarkedAgain(m, s1, o); }
  }

  lemma StripRun(s: State, q: Run)
    ensures Strip(SetRun(s, q)) == SetRun(Strip(s), q) && Strip(s).t == s.t
  {
    hide Quiet, Terminals, ShapeOf;
  }

  lemma MarkedAgain(m: nat, s: State, o: Out)
    requires o == Dispatch(m, s) && Yields(o) && s.t.cfg.resolver.NoResolver?
    requires o.s.t.run.evaluated == s.t.run.evaluated == false
    ensures TickNode(m, Strip(Mark(o).s)) == Mark(Dispatch(m, Strip(o.s)))
  {
    hide Quiet, Terminals, ShapeOf, Dispatch, TickNode;
    var again := Strip(Mark(o).s);
    Marked(m, again);
    assert SetRun(again, again.t.run.(evaluated := false)) == Strip(o.s);
  }

  lemma PlainRoot(t: Tree)
    requires Plain(ShapeOf(t))
    ensures PlainKind(t.cfg.kind) && t.cfg.resolver.NoResolver?
  {
  }

  /** The evaluated mark that a successful tick leaves. */
  ghost function Mark(o: Out): Out {
    if o.code.Ok? then o.(s := o.s.(t := o.s.t.(run := o.s.t.run.(evaluated := true)))) else o
  }

  lemma Marked(m: nat, s: State)
    requires s.t.cfg.resolver.NoResolver?
    ensures TickNode(m, s) == Mark(Dispatch(m, SetRun(s, s.t.run.(evaluated := false))))
    ensures TickNode(m, s).s.t.cfg == s.t.cfg
  {
    hide Dispatch, ShapeOf;
  }

  lemma MarkedSame(o: Out, p: Out, r: Out)
    requires Locked(o, p, r)
    ensures Locked(Mark(o), Mark(p), Mark(r))
  {
    hide Quiet, Terminals;
  }

  lemma {:induction false} KidLock(m: nat, S: set<Key>, s: State, i: int)
    requires Mid(m, S, s) && Plain(ShapeOf(s.t))
    ensures var o, p := TickKid(m, s, i), TickKid(m, Strip(s), i);
      if Yields(o) then NearOut(p, TickKid(m, Strip(o.s), i)) else p == StripOut(o)
    decreases ShapeOf(s.t), 0
  {
    if 0 <= i < |s.t.kids| {
      ShapeKid(s.t, i);
      PlainOfKid(s.t, i);
      KidReady(m, S, s, i);
      NodeLock(m, S + Own(s.t) + Others(s.t, i), Focus(s, i));
      KidLifts(m, s, i);
    }
  }

  lemma KidLifts(m: nat, s: State, i: nat)
    requires i < |s.t.kids|
    requires var f := Focus(s, i);
      Locked(TickNode(m, f), TickNode(m, Strip(f)), TickNode(m, Strip(TickNode(m, f).s)))
    ensures var o, p := TickKid(m, s, i), TickKid(m, Strip(s), i);
      if Yields(o) then NearOut(p, TickKid(m, Strip(o.s), i)) else p == StripOut(o)
  {
    hide TickNode, ShapeOf, Quiet, Terminals;
  }

  lemma {:induction false} ChildLock(m: nat, S: set<Key>, s: State, i: int, go: Status)
    requires Mid(m, S, s) && Plain(ShapeOf(s.t)) && i < |s.t.kids| && go != Running
    requires s.t.cfg.kind == Sequence || s.t.cfg.kind == Fallback
    ensures var o, p := ChildLoop(m, s, i, go), ChildLoop(m, Strip(s), i, go);
      if Yields(o) then
        && o.s.t.run.cursor >= 0 && o.s.t.run.evaluated == s.t.run.evaluated
        && Same(p, ChildLoop(m, Strip(o.s), o.s.t.run.cursor, go))
      else p == StripOut(o)
    decreases ShapeOf(s.t), 1, |s.t.kids| - i
  {
    hide Resettable, Plain, Quiet, Terminals, TickKid, End, Mid, KidsInv;
    if i < 0 {
      StripEnd(s, go);
    } else {
      KidLock(m, S, s, i);
      TickKidSound(m, S, s, i);
      var k := TickKid(m, s, i);
      if Yields(k) {
        ChildYields(m, s, k, i, go);
      } else if k.code.Ok? && k.status != go {
        StripEnd(k.s, k.status);
      } else if k.code.Ok? {
        var next := if i + 1 < |s.t.kids| then i + 1 else NO_CHILD;
        var c := SetCursor(k.s, next);
        if next < 0 { StripEnd(c, go); }
        else {
          SetCursorMid(m, S, k.s, next);
          ChildLock(m, S, c, next, go);
        }
      }
    }
  }

  lemma SetCursorMid(m: nat, S: set<Key>, s: State, c: int)
    requires Mid(m, S, s)
    ensures Mid(m, S, SetCursor(s, c))
  {
    hide Resettable, ShapeOf, KidsInv;
    SetRunMid(m, S, s, s.t.run.(cursor := c));
  }

  /** The loop stopped at a running child: resuming there is going on. */
  lemma ChildYields(m: nat, s: State, k: Out, i: nat, go: Status)
    requires k == TickKid(m, s, i) && Yields(k) && go != Running
    requires s.t.cfg.kind == Sequence || s.t.cfg.kind == Fallback
    requires NearOut(TickKid(m, Strip(s), i), TickKid(m, Strip(k.s), i))
    ensures var o := Report(SetCursor(k.s, i), Running);
      && o == ChildLoop(m, s, i, go) && o.s.t.run.cursor == i && o.s.t.run.evaluated == s.t.run.evaluated
      && Same(ChildLoop(m, Strip(s), i, go), ChildLoop(m, Strip(o.s), i, go))
  {
    hide TickKid, Quiet, Terminals, End, ShapeOf;
    var o := Report(SetCursor(k.s, i), Running);
    assert o == ChildLoop(m, s, i, go);
    KidKeeps(m, s, i);
    NearKid(m, Strip(k.s), Strip(o.s), i);
    NearOutTrans(TickKid(m, Strip(s), i), TickKid(m, Strip(k.s), i), TickKid(m, Strip(o.s), i));
    hide ChildLoop;
    ChildAfter(m, Strip(s), Strip(o.s), i, go);
  }

  /** What RetryLock states of a loop that starts in s. */
  ghost predicate RetryLocked(m: nat, s: State)
    requires s.t.run.counter < s.t.run.limit
  {
    var o, p := RetryLoop(m, s, ResumeAt(s.t)), RetryLoop(m, Strip(s), ResumeAt(s.t));
    if Yields(o) then
      && o.s.t.run == s.t.run.(last := Running, counter := o.s.t.run.counter)
      && o.s.t.run.counter < s.t.run.limit && |o.s.t.kids| == |s.t.kids|
      && Same(p, RetryLoop(m, Strip(o.s), ResumeAt(s.t)))
    else p == StripOut(o)
  }

  lemma {:induction false} RetryLock(m: nat, S: set<Key>, s: State)
    requires Mid(m, S, s) && Plain(ShapeOf(s.t)) && s.t.cfg.kind == Retry && s.t.run.cursor < 0
    requires s.t.run.counter < s.t.run.limit
    ensures RetryLocked(m, s)
    decreases ShapeOf(s.t), 1, s.t.run.limit - s.t.run.counter
  {
    hide TickKid, Resettable, Plain, Mid, NextCycle, RetryLocked, RepeatLocked, Strip, StripOut, NearOut, ShapeOf,
      ResumeAt;
    var child := ResumeAt(s.t);
    KidLock(m, S, s, child);
    var k := TickKid(m, s, child);
    if Yields(k) {
      RetryYields(m, s, k, child);
    } else if !k.code.Ok? || k.status == Success {
      RetryStops(m, s, k);
    } else {
      var c := CycleReady(m, S, s, k);
      if c.t.run.counter < c.t.run.limit { RetryLock(m, S, c); }
      RetryCycles(m, s, k, c);
    }
  }

  /** The loop after a finished cycle. */
  lemma CycleReady(m: nat, S: set<Key>, s: State, k: Out) returns (c: State)
    requires Mid(m, S, s) && Plain(ShapeOf(s.t)) && k == TickKid(m, s, ResumeAt(s.t)) && k.code.Ok?
    ensures c == NextCycle(k.s, ResumeAt(s.t))
    ensures Mid(m, S, c) && ShapeOf(c.t) == ShapeOf(s.t) && c.t.cfg == s.t.cfg && |c.t.kids| == |s.t.kids|
    ensures c.t.run == s.t.run.(counter := s.t.run.counter + 1)
  {
    hide Resettable, Plain, TickKid, Mid, KidsInv, NextCycle, ShapeOf;
    c := NextCycle(k.s, ResumeAt(s.t));
    TickKidSound(m, S, s, ResumeAt(s.t));
    NextCycleMid(m, S, k.s, ResumeAt(s.t));
  }

  lemma RetryStops(m: nat, s: State, k: Out)
    requires s.t.run.counter < s.t.run.limit && k == TickKid(m, s, ResumeAt(s.t))
    requires (!k.code.Ok? || k.status == Success) && TickKid(m, Strip(s), ResumeAt(s.t)) == StripOut(k)
    ensures RetryLocked(m, s)
  {
    hide Quiet, Terminals, TickKid, End, ShapeOf;
    if k.code.Ok? { StripEnd(k.s, Success); }
  }

  lemma RetryCycles(m: nat, s: State, k: Out, c: State)
    requires s.t.run.counter < s.t.run.limit && k == TickKid(m, s, ResumeAt(s.t)) && s.t.run.cursor < 0
    requires k.code.Ok? && k.status == Failure && TickKid(m, Strip(s), ResumeAt(s.t)) == StripOut(k)
    requires c == NextCycle(k.s, ResumeAt(s.t)) && |c.t.kids| == |s.t.kids|
    requires c.t.run == s.t.run.(counter := s.t.run.counter + 1)
    requires c.t.run.counter < c.t.run.limit ==> RetryLocked(m, c)
    ensures RetryLocked(m, s)
  {
    hide Quiet, Terminals, TickKid, End, ShapeOf, NextCycle, RetryLoop;
    var child := ResumeAt(s.t);
    StripCycle(k.s, child);
    RetryUnfold(m, s, child, k, c);
    RetryUnfold(m, Strip(s), child, StripOut(k), Strip(c));
    if c.t.run.counter >= c.t.run.limit { StripEnd(c, Failure); }
  }

  lemma RetryUnfold(m: nat, s: State, child: int, k: Out, c: State)
    requires s.t.run.counter < s.t.run.limit && k == TickKid(m, s, child) && k.code.Ok? && k.status == Failure
    requires c == NextCycle(k.s, child)
    ensures RetryLoop(m, s, child) ==
      if c.t.run.counter >= c.t.run.limit then End(c, Failure)
      else RetryLoop(m, c, if |c.t.kids| > 0 then 0 else NO_CHILD)
  {
    hide TickKid, End, ShapeOf, NextCycle;
  }

  lemma StripCycle(s: State, child: int)
    ensures NextCycle(Strip(s), child) == Strip(NextCycle(s, child))
  {
    hide ResetKid, ShapeOf, Quiet, Terminals;
    StripResetKid(SetRun(s, s.t.run.(counter := s.t.run.counter + 1)), child, false);
  }

  lemma RetryYields(m: nat, s: State, k: Out, child: int)
    requires k == TickKid(m, s, child) && Yields(k) && s.t.cfg.kind == Retry && s.t.run.counter < s.t.run.limit
    requires NearOut(TickKid(m, Strip(s), child), TickKid(m, Strip(k.s), child))
    requires child == ResumeAt(s.t)
    ensures RetryLocked(m, s)
  {
    hide TickKid, Quiet, Terminals, RetryLoop, ShapeOf, Report, NearOut, Same, ResumeAt;
    RetryResumes(m, s, k, child);
  }

  /** Resuming at the running child is going on with the loop. */
  lemma RetryResumes(m: nat, s: State, k: Out, child: int)
    requires k == TickKid(m, s, child) && Yields(k) && s.t.cfg.kind == Retry && s.t.run.counter < s.t.run.limit
    requires NearOut(TickKid(m, Strip(s), child), TickKid(m, Strip(k.s), child))
    ensures var o := Report(k.s, Running);
      && o == RetryLoop(m, s, child) && o.s.t.run == s.t.run.(last := Running) && |o.s.t.kids| == |s.t.kids|
      && Same(RetryLoop(m, Strip(s), child), RetryLoop(m, Strip(o.s), child))
  {
    hide TickKid, Quiet, Terminals, End, ShapeOf;
    var o := Report(k.s, Running);
    assert o == RetryLoop(m, s, child);
    KidKeeps(m, s, child);
    NearKid(m, Strip(k.s), Strip(o.s), child);
    NearOutTrans(TickKid(m, Strip(s), child), TickKid(m, Strip(k.s), child), TickKid(m, Strip(o.s), child));
    hide RetryLoop;
    RetryAfter(m, Strip(s), Strip(o.s), child);
  }

  /** What RepeatLock states of a loop that starts in s. */
  ghost predicate RepeatLocked(m: nat, s: State) {
    var o, p := RepeatLoop(m, s, ResumeAt(s.t)), RepeatLoop(m, Strip(s), ResumeAt(s.t));
    if Yields(o) then
      && o.s.t.run == s.t.run.(last := Running, counter := o.s.t.run.counter) && |o.s.t.kids| == |s.t.kids|
      && Same(p, RepeatLoop(m, Strip(o.s), ResumeAt(s.t)))
    else p == StripOut(o)
  }

  lemma {:induction false} RepeatLock(m: nat, S: set<Key>, s: State)
    requires Mid(m, S, s) && Plain(ShapeOf(s.t)) && s.t.cfg.kind == Repeat && s.t.run.cursor < 0
    ensures RepeatLocked(m, s)
    decreases ShapeOf(s.t), 1, if s.t.run.counter < s.t.run.limit then s.t.run.limit - s.t.run.counter else 0
  {
    hide TickKid, Resettable, Plain, Mid, NextCycle, RetryLocked, RepeatLocked, Strip, StripOut, NearOut, ShapeOf,
      ResumeAt;
    var child := ResumeAt(s.t);
    KidLock(m, S, s, child);
    var k := TickKid(m, s, child);
    if s.t.run.counter >= s.t.run.limit || !k.code.Ok? {
      RepeatStops(m, s, k);
    } else if Yields(k) {
      RepeatYields(m, s, k, child);
    } else {
      var c := CycleReady(m, S, s, k);
      RepeatLock(m, S, c);
      RepeatCycles(m, s, k, c);
    }
  }

  lemma RepeatStops(m: nat, s: State, k: Out)
    requires k == TickKid(m, s, ResumeAt(s.t))
    requires s.t.run.counter < s.t.run.limit ==>
      !k.code.Ok? && TickKid(m, Strip(s), ResumeAt(s.t)) == StripOut(k)
    ensures RepeatLocked(m, s)
  {
    hide Quiet, Terminals, TickKid, End, ShapeOf;
    if s.t.run.counter >= s.t.run.limit { StripEnd(s, Success); }
  }

  lemma RepeatCycles(m: nat, s: State, k: Out, c: State)
    requires s.t.run.counter < s.t.run.limit && k == TickKid(m, s, ResumeAt(s.t)) && s.t.run.cursor < 0
    requires k.code.Ok? && k.status != Running && TickKid(m, Strip(s), ResumeAt(s.t)) == StripOut(k)
    requires c == NextCycle(k.s, ResumeAt(s.t)) && |c.t.kids| == |s.t.kids|
    requires c.t.run == s.t.run.(counter := s.t.run.counter + 1) && RepeatLocked(m, c)
    ensures RepeatLocked(m, s)
  {
    hide Quiet, Terminals, TickKid, End, ShapeOf, NextCycle, RepeatLoop, RepeatLocked;
    var child := ResumeAt(s.t);
    StripCycle(k.s, child);
    RepeatUnfold(m, s, child, k, c);
    RepeatUnfold(m, Strip(s), child, StripOut(k), Strip(c));
    assert ResumeAt(c.t) == child;
    RepeatTransfers(m, s, c);
  }

  lemma RepeatTransfers(m: nat, s: State, c: State)
    requires ResumeAt(c.t) == ResumeAt(s.t) && |c.t.kids| == |s.t.kids|
    requires c.t.run == s.t.run.(counter := s.t.run.counter + 1) && RepeatLocked(m, c)
    requires RepeatLoop(m, s, ResumeAt(s.t)) == RepeatLoop(m, c, ResumeAt(s.t))
    requires RepeatLoop(m, Strip(s), ResumeAt(s.t)) == RepeatLoop(m, Strip(c), ResumeAt(s.t))
    ensures RepeatLocked(m, s)
  {
    hide Strip, StripOut, Same, ResumeAt, RepeatLoop;
  }

  lemma RepeatUnfold(m: nat, s: State, child: int, k: Out, c: State)
    requires s.t.run.counter < s.t.run.limit && k == TickKid(m, s, child) && k.code.Ok? && k.status != Running
    requires c == NextCycle(k.s, child)
    ensures RepeatLoop(m, s, child) == RepeatLoop(m, c, if |c.t.kids| > 0 then 0 else NO_CHILD)
  {
    hide TickKid, End, ShapeOf, NextCycle;
  }

  lemma RepeatYields(m: nat, s: State, k: Out, child: int)
    requires k == TickKid(m, s, child) && Yields(k) && s.t.cfg.kind == Repeat && s.t.run.counter < s.t.run.limit
    requires NearOut(TickKid(m, Strip(s), child), TickKid(m, Strip(k.s), child))
    requires child == ResumeAt(s.t)
    ensures RepeatLocked(m, s)
  {
    hide TickKid, Quiet, Terminals, RepeatLoop, ShapeOf, Report, NearOut, Same, ResumeAt;
    RepeatResumes(m, s, k, child);
  }

  /** Resuming at the running child is going on with the loop. */
  lemma RepeatResumes(m: nat, s: State, k: Out, child: int)
    requires k == TickKid(m, s, child) && Yields(k) && s.t.cfg.kind == Repeat && s.t.run.counter < s.t.run.limit
    requires NearOut(TickKid(m, Strip(s), child), TickKid(m, Strip(k.s), child))
    ensures var o := Report(k.s, Running);
      && o == RepeatLoop(m, s, child) && o.s.t.run == s.t.run.(last := Running) && |o.s.t.kids| == |s.t.kids|
      && Same(RepeatLoop(m, Strip(s), child), RepeatLoop(m, Strip(o.s), child))
  {
    hide TickKid, Quiet, Terminals, End, ShapeOf;
    var o := Report(k.s, Running);
    assert o == RepeatLoop(m, s, child);
    KidKeeps(m, s, child);
    NearKid(m, Strip(k.s), Strip(o.s), child);
    NearOutTrans(TickKid(m, Strip(s), child), TickKid(m, Strip(k.s), child), TickKid(m, Strip(o.s), child));
    hide RepeatLoop;
    RepeatAfter(m, Strip(s), Strip(o.s), child);
  }

  lemma {:induction false} DecoratorLock(m: nat, S: set<Key>, s: State)
    requires Mid(m, S, s) && Plain(ShapeOf(s.t))
    ensures var o := TickDecorator(m, s);
      && Locked(o, TickDecorator(m, Strip(s)), TickDecorator(m, Strip(o.s)))
      && (Yields(o) ==> o.s.t.run.evaluated == s.t.run.evaluated)
    decreases ShapeOf(s.t), 1
  {
    hide Mid, Plain, Quiet, Terminals, TickKid, ShapeOf;
    var child := ResumeAt(s.t);
    KidLock(m, S, s, child);
    KidKeeps(m, s, child);
    var k := TickKid(m, s, child);
    if Yields(k) { DecoratorYields(m, s, k, child); }
  }

  lemma DecoratorYields(m: nat, s: State, k: Out, child: int)
    requires child == ResumeAt(s.t) && k == TickKid(m, s, child) && Yields(k)
    requires NearOut(TickKid(m, Strip(s), child), TickKid(m, Strip(k.s), child))
    ensures var o := Report(k.s, Running);
      && o == TickDecorator(m, s) && o.s.t.run.evaluated == s.t.run.evaluated
      && Same(TickDecorator(m, Strip(s)), TickDecorator(m, Strip(o.s)))
  {
    hide Quiet, Terminals, TickKid, ShapeOf, Report;
    KidKeeps(m, s, child);
    var o := Report(k.s, Running);
    ReportParts(k.s, Running);
    NearKid(m, Strip(k.s), Strip(o.s), child);
    NearOutTrans(TickKid(m, Strip(s), child), TickKid(m, Strip(k.s), child), TickKid(m, Strip(o.s), child));
    DecoratorAfter(m, Strip(s), Strip(o.s));
  }

  lemma ReportParts(s: State, st: Status)
    ensures Report(s, st) == Out(s.(t := s.t.(run := s.t.run.(last := st))), Ok, st)
  {
    hide ShapeOf;
  }

  lemma DecoratorAfter(m: nat, a: State, b: State)
    requires a.t.cfg == b.t.cfg && a.t.run == b.t.run.(last := a.t.run.last) && |a.t.kids| == |b.t.kids|
    requires NearOut(TickKid(m, a, ResumeAt(a.t)), TickKid(m, b, ResumeAt(a.t)))
    ensures Same(TickDecorator(m, a), TickDecorator(m, b))
  {
    hide TickKid, ShapeOf, Report;
    var p, q := TickKid(m, a, ResumeAt(a.t)), TickKid(m, b, ResumeAt(a.t));
    KidKeeps(m, a, ResumeAt(a.t));
    KidKeeps(m, b, ResumeAt(a.t));
    if p.code.Ok? { CloseReport(p.s, q.s, Decorate(a.t.cfg.kind, p.status)); }
  }

  /** A leaf call that does not answer RUNNING reads the same answer in the stripped script. */
  lemma StripCall(s: State)
    ensures var e := Handler(s.t.cfg.path, Next(s).status);
      if Next(s).status == Some(Running) then Strip(Call(s, e)) == Strip(s)
      else Next(Strip(s)) == Next(s) && Strip(Call(s, e)) == Call(Strip(s), e)
  {
    hide Quiet;
    QuietStep(s.trace, Handler(s.t.cfg.path, Next(s).status));
  }

  lemma LeafLock(m: nat, s: State)
    requires s.t.cfg.kind == Leaf
    ensures var o := TickLeaf(s);
      && Locked(o, TickLeaf(Strip(s)), TickLeaf(Strip(o.s)))
      && (Yields(o) ==> o.s.t.run.evaluated == s.t.run.evaluated)
  {
    hide ShapeOf, Quiet, Terminals;
    StripCall(s);
    if Next(s).status == Some(Running) {
      LeafAgain(Strip(s), Strip(TickLeaf(s).s));
    }
  }

  /** A running leaf answers as if it had not been running. */
  lemma LeafAgain(a: State, b: State)
    requires a.script == b.script && a.trace == b.trace && a.t.cfg == b.t.cfg && a.t.kids == b.t.kids
    requires b.t.run == a.t.run.(running := b.t.run.running, last := b.t.run.last)
    ensures Same(TickLeaf(a), TickLeaf(b))
  {
    hide ShapeOf;
  }

  lemma {:induction false} DispatchLock(m: nat, S: set<Key>, s: State)
    requires Mid(m, S, s) && InvNode(m, s.t) && Plain(ShapeOf(s.t))
    ensures var o := Dispatch(m, s);
      && Locked(o, Dispatch(m, Strip(s)), Dispatch(m, Strip(o.s)))
      && (Yields(o) ==> o.s.t.run.evaluated == s.t.run.evaluated)
    decreases ShapeOf(s.t), 3
  {
    hide Resettable, Plain, Quiet, Terminals, TickKid, Mid, KidsInv, ShapeOf, TickLeaf, TickDecorator,
      ChildLoop, RetryLoop, RepeatLoop, End, StripOut;
    PlainRoot(s.t);
    match s.t.cfg.kind
    case Leaf => LeafLock(m, s);
    case Sequence => ChildLock(m, S, s, ResumeAt(s.t), Success);
    case Fallback => ChildLock(m, S, s, ResumeAt(s.t), Failure);
    case Retry => if s.t.run.counter < s.t.run.limit { RetryLock(m, S, s); } else { StripEnd(s, Failure); }
    case Repeat => if s.t.run.limit != 0 { RepeatLock(m, S, s); } else { StripEnd(s, Success); }
    case Inverter => DecoratorLock(m, S, s);
    case ForceSuccess => DecoratorLock(m, S, s);
    case ForceFailure => DecoratorLock(m, S, s);
  }

  // ---- whole activations --------------------------------------------------------------------------------

  /** Ticks until the tree no longer yields, at most n + 1 times. */
  function Drive(m: nat, s: State, n: nat): Out
    decreases n
  {
    var o := TickNode(m, s);
    if n == 0 || !Yields(o) then o else Drive(m, o.s, n - 1)
  }

  /** However many ticks an activation takes, a single tick whose host gives the same answers
      without the RUNNING ones calls the same leaves in the same order, consumes the same
      answers, ends with the same code and status and, without an error, in the same state. */
  lemma {:induction false} StutterInvariance(m: nat, S: set<Key>, s: State, n: nat)
    requires Resettable(m, S, s) && Inv(m, s.t) && Plain(ShapeOf(s.t)) && !Yields(Drive(m, s, n))
    ensures Same(TickNode(m, Strip(s)), StripOut(Drive(m, s, n)))
    decreases n
  {
    hide Resettable, Inv, Plain, ShapeOf, TickNode, Quiet, Terminals;
    NodeLock(m, S, s);
    var o := TickNode(m, s);
    if Yields(o) {
      TickNodeSound(m, S, s);
      StutterInvariance(m, S, o.s, n - 1);
    }
  }

  /** The same for every plain tree in every state that public calls can reach. */
  lemma ReachableStutter(m: nat, maxNodes: nat, maxDepth: nat, script: seq<Answer>, ops: seq<Op>, n: nat)
    ensures var x := Perform(Empty(m, maxNodes, maxDepth, script), ops);
      x.root.Some? && Plain(ShapeOf(x.root.value)) ==>
        var s := State(x.script, x.trace, x.root.value);
        !Yields(Drive(x.m, s, n)) ==> Same(TickNode(x.m, Strip(s)), StripOut(Drive(x.m, s, n)))
  {
    var x := Perform(Empty(m, maxNodes, maxDepth, script), ops);
    RunHealthy(Empty(m, maxNodes, maxDepth, script), ops);
    hide Drive, TickNode, Plain, ShapeOf, Inv, Sane, Replay, Open, Mild, Same, Perform;
    if x.root.Some? && Plain(ShapeOf(x.root.value)) {
      var s := State(x.script, x.trace, x.root.value);
      InvIsMild(x.m, s.t);
      RootTracks(x);
      if !Yields(Drive(x.m, s, n)) { StutterInvariance(x.m, {}, s, n); }
    }
  }
}
