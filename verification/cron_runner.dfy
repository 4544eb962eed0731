/** The runner: each advance claims an interval of minutes under the lock and fires its
    matches outside it, so calls on several threads interleave freely. */
module CronRunner {
  import opened CronSearch

  /** One advance call in flight: it claimed the minutes start..limit and has dealt with
      those up to `check`. */
  datatype Claim = Claim(start: int, limit: int, check: int, finished: bool)

  /** The shared cursor, all claims made since the last start in the order of the lock,
      and how often each minute has fired. A cursor of 0 means "never advanced". */
  datatype Runner = Runner(cursor: int, claims: seq<Claim>, fired: multiset<int>)

  /** Atomic steps: the locked section of a call, one callback, or a call's return. */
  datatype Act = Enter(now: int) | Fire(call: nat, minute: int) | Leave(call: nat)

  function Current(now: int): int {
    FloorMinute(now) / 60
  }

  function ClaimStart(cursor: int, now: int): int {
    if cursor == 0 then Current(now) else cursor + 1
  }

  /** Which step can happen: a call fires the least match after its position, as long as
      that lies within its claim, and returns when there is none left. */
  predicate Enabled(e: Expr, off: int, r: Runner, a: Act) {
    match a
    case Enter(_) => true
    case Fire(i, t) =>
      i < |r.claims| && !r.claims[i].finished &&
      r.claims[i].check < t <= r.claims[i].limit && Matches(e, off, t) &&
      Quiet(e, off, r.claims[i].check + 1, t)
    case Leave(i) =>
      i < |r.claims| && !r.claims[i].finished &&
      Quiet(e, off, r.claims[i].check + 1, r.claims[i].limit + 1)
  }

  function Apply(r: Runner, a: Act): Runner
    requires a.Enter? || a.call < |r.claims|
  {
    match a
    case Enter(now) =>
      if Current(now) < r.cursor then r
      else
        var start := ClaimStart(r.cursor, now);
        r.(cursor := Current(now), claims := r.claims + [Claim(start, Current(now), start - 1, false)])
    case Fire(i, t) =>
      r.(claims := r.claims[i := r.claims[i].(check := t)], fired := r.fired + multiset{t})
    case Leave(i) =>
      r.(claims := r.claims[i := r.claims[i].(check := r.claims[i].limit, finished := true)])
  }

  ghost predicate Reaches(e: Expr, off: int, r: Runner, acts: seq<Act>, z: Runner)
    decreases |acts|
  {
    if acts == [] then z == r
    else Enabled(e, off, r, acts[0]) && (acts[0].Enter? || acts[0].call < |r.claims|) &&
         Reaches(e, off, Apply(r, acts[0]), acts[1..], z)
  }

  // ---- the claims tile the minutes passed over ----------------------------------------------

  /** First minute of the run. */
  function First(r: Runner, cursor0: int): int {
    if cursor0 != 0 then cursor0 + 1
    else if r.claims == [] then 0 else r.claims[0].start
  }

  /** The claims follow one another without overlap and without a gap. */
  ghost predicate Tiled(r: Runner, cursor0: int) {
    && r.cursor >= 0
    && (r.claims == [] ==> r.cursor == cursor0)
    && (r.claims != [] ==>
          r.claims[0].start == First(r, cursor0) && r.cursor == r.claims[|r.claims| - 1].limit)
    && (forall i :: 0 <= i < |r.claims| ==>
          r.claims[i].start - 1 <= r.claims[i].check <= r.claims[i].limit)
    && (forall i :: 0 <= i < |r.claims| - 1 ==> r.claims[i + 1].start == r.claims[i].limit + 1)
  }

  /** Minute t belongs to the claim. */
  predicate Holds(c: Claim, t: int) {
    c.start <= t <= c.limit
  }

  lemma {:induction false} LaterClaims(r: Runner, cursor0: int, i: nat, j: nat)
    requires Tiled(r, cursor0) && i < j < |r.claims|
    ensures r.claims[i].limit < r.claims[j].start
    decreases j
  {
    if i + 1 < j { LaterClaims(r, cursor0, i, j - 1); }
  }

  /** No minute is claimed twice. */
  lemma Disjoint(r: Runner, cursor0: int, i: nat, j: nat, t: int)
    requires Tiled(r, cursor0) && i < |r.claims| && j < |r.claims|
    requires Holds(r.claims[i], t) && Holds(r.claims[j], t)
    ensures i == j
  {
    if i < j { LaterClaims(r, cursor0, i, j); }
    if j < i { LaterClaims(r, cursor0, j, i); }
  }

  /** No minute from the first one to the cursor is left out. */
  lemma {:induction false} Covered(r: Runner, cursor0: int, t: int, n: nat) returns (i: nat)
    requires Tiled(r, cursor0) && 0 < n <= |r.claims|
    requires First(r, cursor0) <= t <= r.claims[n - 1].limit
    ensures i < n && Holds(r.claims[i], t)
    decreases n
  {
    if t >= r.claims[n - 1].start {
      i := n - 1;
    } else {
      i := Covered(r, cursor0, t, n - 1);
    }
  }

  /** A call keeps the tiling, except after a claim of the minute of the epoch, which leaves
      the cursor at "never advanced": then only a call in the minute right after it does. */
  lemma EnterTiled(r: Runner, cursor0: int, now: int)
    requires cursor0 >= 0 && Tiled(r, cursor0)
    ensures Tiled(Apply(r, Enter(now)), cursor0) <==>
      !(r.cursor == 0 && r.claims != [] && Current(now) >= 0 && Current(now) != 1)
  {
    hide Current;
    var z := Apply(r, Enter(now));
    if Current(now) >= r.cursor {
      var n := |r.claims|;
      assert z.claims[..n] == r.claims && z.claims[n].start == ClaimStart(r.cursor, now);
      if n > 0 { assert z.claims[n - 1 + 1].start == z.claims[n].start; }
    }
  }

  // ---- how often a minute fires ---------------------------------------------------------------

  /** How many calls have dealt with minute t. */
  function Dealt(claims: seq<Claim>, t: int): nat {
    if claims == [] then 0
    else Dealt(claims[..|claims| - 1], t) + Deals(claims[|claims| - 1], t)
  }

  function Deals(c: Claim, t: int): nat {
    if c.start <= t <= c.check then 1 else 0
  }

  /** Calls stay within their claims, and every matching minute has fired once for each call
      that has dealt with it. */
  ghost predicate Counted(e: Expr, off: int, r: Runner) {
    && (forall i :: 0 <= i < |r.claims| ==> r.claims[i].start - 1 <= r.claims[i].check <= r.claims[i].limit)
    && (forall i :: 0 <= i < |r.claims| && r.claims[i].finished ==> r.claims[i].check == r.claims[i].limit)
    && (forall t :: r.fired[t] == if Matches(e, off, t) then Dealt(r.claims, t) else 0)
  }

  lemma DealtAppend(claims: seq<Claim>, c: Claim, t: int)
    ensures Dealt(claims + [c], t) == Dealt(claims, t) + Deals(c, t)
  {
    assert (claims + [c])[..|claims|] == claims;
  }

  lemma {:induction false} DealtUpdate(claims: seq<Claim>, i: nat, c: Claim, t: int)
    requires i < |claims|
    ensures Dealt(claims[i := c], t) == Dealt(claims, t) - Deals(claims[i], t) + Deals(c, t)
    decreases |claims|
  {
    var n, z := |claims| - 1, claims[i := c];
    if i == n {
      assert z[..n] == claims[..n];
    } else {
      DealtUpdate(claims[..n], i, c, t);
      assert z[..n] == claims[..n][i := c];
    }
  }

  lemma EnterCounted(e: Expr, off: int, r: Runner, now: int)
    requires Counted(e, off, r) && r.cursor >= 0
    ensures Counted(e, off, Apply(r, Enter(now))) && Apply(r, Enter(now)).cursor >= 0
  {
    hide Matches, Current, Dealt;
    if Current(now) >= r.cursor {
      var start := ClaimStart(r.cursor, now);
      forall t: int { DealtAppend(r.claims, Claim(start, Current(now), start - 1, false), t); }
    }
  }

  /** A call moving on over minutes that do not match, except the last, if it fires. */
  lemma MoveOn(e: Expr, off: int, r: Runner, i: nat, c: Claim, fired: multiset<int>)
    requires Counted(e, off, r) && i < |r.claims| && r.claims[i].check <= c.check <= c.limit
    requires c.start == r.claims[i].start && c.limit == r.claims[i].limit && (c.finished ==> c.check == c.limit)
    requires forall t :: r.claims[i].check < t <= c.check && Matches(e, off, t) ==> fired[t] == 1
    requires forall t :: fired[t] > 0 ==> fired[t] == 1 && r.claims[i].check < t <= c.check && Matches(e, off, t)
    ensures Counted(e, off, r.(claims := r.claims[i := c], fired := r.fired + fired))
  {
    hide Matches, Dealt;
    forall t: int { DealtUpdate(r.claims, i, c, t); }
  }

  lemma StepCounted(e: Expr, off: int, r: Runner, a: Act)
    requires Counted(e, off, r) && r.cursor >= 0 && Enabled(e, off, r, a)
    ensures Counted(e, off, Apply(r, a)) && Apply(r, a).cursor >= 0
  {
    hide Matches, Counted, Current;
    match a
    case Enter(now) => EnterCounted(e, off, r, now);
    case Fire(i, t) => MoveOn(e, off, r, i, r.claims[i].(check := t), multiset{t});
    case Leave(i) =>
      CountedParts(e, off, r, i);
      MoveOn(e, off, r, i, r.claims[i].(check := r.claims[i].limit, finished := true), multiset{});
      assert r.fired + multiset{} == r.fired;
  }

  lemma CountedParts(e: Expr, off: int, r: Runner, i: nat)
    requires Counted(e, off, r) && i < |r.claims|
    ensures r.claims[i].check <= r.claims[i].limit
  {
  }

  /** Every interleaving of advance calls, with clocks that may also run backward, fires each
      matching minute exactly once for each call that has dealt with it. */
  lemma {:induction false} RunCounted(e: Expr, off: int, r: Runner, acts: seq<Act>, z: Runner)
    requires Counted(e, off, r) && r.cursor >= 0 && Reaches(e, off, r, acts, z)
    ensures Counted(e, off, z)
    decreases |acts|
  {
    hide Counted, Enabled;
    if acts != [] {
      StepCounted(e, off, r, acts[0]);
      RunCounted(e, off, Apply(r, acts[0]), acts[1..], z);
    }
  }

  // ---- what the calls have claimed, in terms of their clocks ---------------------------------------

  /** The minutes in which calls entered, those before the epoch left out. */
  function Clocks(acts: seq<Act>): seq<int> {
    if acts == [] then []
    else (if acts[0].Enter? && Current(acts[0].now) >= 0 then [Current(acts[0].now)] else []) + Clocks(acts[1..])
  }

  /** How many calls came in the minute of the epoch before any later one. */
  function Zeros(cs: seq<int>): (n: nat)
    ensures n <= |cs| && (n < |cs| ==> cs[n] != 0) && forall i :: 0 <= i < n ==> cs[i] == 0
  {
    if cs == [] || cs[0] != 0 then 0 else 1 + Zeros(cs[1..])
  }

  lemma {:induction false} ZerosAppend(cs: seq<int>, c: int)
    ensures Zeros(cs + [c]) == if Zeros(cs) == |cs| && c == 0 then |cs| + 1 else Zeros(cs)
    decreases |cs|
  {
    var all := cs + [c];
    if cs == [] {
      assert all[1..] == [];
    } else {
      assert all[1..] == cs[1..] + [c];
      if cs[0] == 0 { ZerosAppend(cs[1..], c); }
    }
  }

  /** A runner that was never advanced first gathers one claim for each call in the minute of
      the epoch; from the first later call on the claims follow one another. */
  ghost predicate Layout(r: Runner, cursor0: int, cs: seq<int>) {
    var k := if cursor0 > 0 then 0 else Zeros(cs);
    && k <= |r.claims| && r.cursor >= 0
    && (forall i :: 0 <= i < |cs| ==> cs[i] >= 0)
    && (forall i :: 0 <= i < k ==> r.claims[i].start == 0 && r.claims[i].limit == 0)
    && (forall i :: k <= i < |r.claims| - 1 ==> r.claims[i + 1].start == r.claims[i].limit + 1)
    && (|r.claims| > k ==> r.cursor == r.claims[|r.claims| - 1].limit > 0)
    && (|r.claims| == k ==> r.cursor == cursor0)
    && (if cursor0 > 0 then r.claims != [] ==> r.claims[0].start == cursor0 + 1
        else (|r.claims| > k <==> |cs| > k) &&
             (|cs| > k ==> r.claims[k].start == cs[k] && r.claims[k].limit == cs[k]))
  }

  lemma EnterLayout(r: Runner, cursor0: int, cs: seq<int>, now: int)
    requires cursor0 >= 0 && Layout(r, cursor0, cs)
    ensures Layout(Apply(r, Enter(now)), cursor0, cs + if Current(now) >= 0 then [Current(now)] else [])
  {
    hide Current, Layout;
    var c, n := Current(now), |r.claims|;
    if c < 0 || c < r.cursor {
      assert c < 0 ==> cs + [] == cs;
      if c >= 0 { LateClock(r, cursor0, cs, c); } else { EarlyClock(r, cursor0, cs, now); }
    } else {
      ClaimMade(r, cursor0, cs, now, Apply(r, Enter(now)));
    }
  }

  lemma EarlyClock(r: Runner, cursor0: int, cs: seq<int>, now: int)
    requires Layout(r, cursor0, cs) && Current(now) < 0
    ensures Apply(r, Enter(now)) == r
  {
    hide Current, Zeros;
  }

  /** A clock behind the cursor claims nothing, and comes after the start-up phase. */
  lemma LateClock(r: Runner, cursor0: int, cs: seq<int>, c: int)
    requires cursor0 >= 0 && Layout(r, cursor0, cs) && 0 <= c < r.cursor
    ensures Layout(r, cursor0, cs + [c])
  {
    ZerosAppend(cs, c);
    hide Zeros;
  }

  lemma ClaimMade(r: Runner, cursor0: int, cs: seq<int>, now: int, z: Runner)
    requires cursor0 >= 0 && Layout(r, cursor0, cs) && 0 <= Current(now) && r.cursor <= Current(now)
    requires z == Apply(r, Enter(now))
    ensures Layout(z, cursor0, cs + [Current(now)])
  {
    hide Current;
    var c, n := Current(now), |r.claims|;
    ZerosAppend(cs, c);
    hide Zeros;
    var k := if cursor0 > 0 then 0 else Zeros(cs);
    var claim := Claim(ClaimStart(r.cursor, now), c, ClaimStart(r.cursor, now) - 1, false);
    assert z.claims == r.claims + [claim] && z.cursor == c;
    assert n > k ==> claim.start == r.claims[n - 1].limit + 1;
    assert forall i :: 0 <= i < n ==> z.claims[i] == r.claims[i];
  }

  lemma {:induction false} RunLayout(
    e: Expr, off: int, r: Runner, cursor0: int, cs: seq<int>, acts: seq<Act>, z: Runner)
    requires cursor0 >= 0 && Layout(r, cursor0, cs) && Reaches(e, off, r, acts, z)
    ensures Layout(z, cursor0, cs + Clocks(acts))
    decreases |acts|
  {
    hide Current, Enabled, Layout;
    if acts == [] {
      assert cs + Clocks(acts) == cs;
    } else {
      var now := if acts[0].Enter? && Current(acts[0].now) >= 0 then [Current(acts[0].now)] else [];
      assert cs + Clocks(acts) == (cs + now) + Clocks(acts[1..]);
      if acts[0].Enter? {
        EnterLayout(r, cursor0, cs, acts[0].now);
      } else {
        assert cs + now == cs;
        WorkLayout(r, cursor0, cs, acts[0]);
      }
      RunLayout(e, off, Apply(r, acts[0]), cursor0, cs + now, acts[1..], z);
    }
  }

  lemma WorkLayout(r: Runner, cursor0: int, cs: seq<int>, a: Act)
    requires Layout(r, cursor0, cs) && !a.Enter? && a.call < |r.claims|
    ensures Layout(Apply(r, a), cursor0, cs)
  {
    hide Zeros;
  }

  // ---- the guarantees, and exactly when they hold ---------------------------------------------------

  /** A runner at "never advanced" must not be called twice in the minute of the epoch, nor
      called there and then next in any minute but the following one. */
  predicate ClocksSafe(cursor0: int, cs: seq<int>) {
    cursor0 > 0 || |cs| < 2 || cs[0] != 0 || cs[1] == 1
  }

  /** For every interleaving, the claims are disjoint and gap-free exactly when the clocks are safe. */
  lemma RunTiled(e: Expr, off: int, cursor0: int, acts: seq<Act>, z: Runner)
    requires cursor0 >= 0 && Reaches(e, off, Runner(cursor0, [], multiset{}), acts, z)
    ensures Tiled(z, cursor0) <==> ClocksSafe(cursor0, Clocks(acts))
  {
    hide Clocks, Layout, Tiled, Counted;
    RunFromStart(e, off, cursor0, acts, z);
    LayoutTiled(e, off, cursor0, Clocks(acts), z);
  }

  lemma RunFromStart(e: Expr, off: int, cursor0: int, acts: seq<Act>, z: Runner)
    requires cursor0 >= 0 && Reaches(e, off, Runner(cursor0, [], multiset{}), acts, z)
    ensures Counted(e, off, z) && Layout(z, cursor0, Clocks(acts))
  {
    var r := Runner(cursor0, [], multiset{});
    assert Counted(e, off, r) && Layout(r, cursor0, []);
    hide Clocks, Layout, Counted, Reaches;
    RunCounted(e, off, r, acts, z);
    RunLayout(e, off, r, cursor0, [], acts, z);
    assert [] + Clocks(acts) == Clocks(acts);
  }

  lemma LayoutTiled(e: Expr, off: int, cursor0: int, cs: seq<int>, z: Runner)
    requires cursor0 >= 0 && Layout(z, cursor0, cs) && Counted(e, off, z)
    ensures Tiled(z, cursor0) <==> ClocksSafe(cursor0, cs)
  {
    hide Matches, Zeros;
    ZerosSmall(cs);
    if cursor0 == 0 && |cs| >= 2 && cs[0] == 0 {
      assert z.claims[0].limit == 0 && z.claims[0 + 1].start == cs[1];
    }
  }

  lemma ZerosSmall(cs: seq<int>)
    ensures |cs| > 0 && cs[0] == 0 ==> Zeros(cs) >= 1
    ensures |cs| > 1 && cs[0] == 0 && cs[1] == 0 ==> Zeros(cs) >= 2
    ensures |cs| > 1 && cs[0] == 0 && cs[1] != 0 ==> Zeros(cs) == 1
    ensures |cs| == 1 && cs[0] == 0 ==> Zeros(cs) == 1
    ensures cs == [] || cs[0] != 0 ==> Zeros(cs) == 0
  {
  }

  /** Every matching minute from the first claimed one through the cursor has fired exactly
      once, and nothing else has fired. */
  ghost predicate FiredOnce(e: Expr, off: int, cursor0: int, z: Runner) {
    forall t :: z.fired[t] ==
      if z.claims != [] && First(z, cursor0) <= t <= z.cursor && Matches(e, off, t) then 1 else 0
  }

  /** Unsafe clocks do no harm if the minute of the epoch, when claimed twice, does not match,
      nor any minute between it and the next call's. */
  ghost predicate Harmless(e: Expr, off: int, cursor0: int, cs: seq<int>) {
    cursor0 > 0 ||
    (var k := Zeros(cs);
     (k >= 2 ==> !Matches(e, off, 0)) && (0 < k < |cs| ==> Quiet(e, off, 1, cs[k])))
  }

  /** Once all calls have returned, every matching minute from the first claimed one through
      the cursor has fired exactly once, if and only if the clocks did no harm. */
  lemma ExactlyOnce(e: Expr, off: int, cursor0: int, acts: seq<Act>, z: Runner)
    requires cursor0 >= 0 && Reaches(e, off, Runner(cursor0, [], multiset{}), acts, z)
    requires forall i :: 0 <= i < |z.claims| ==> z.claims[i].finished
    ensures FiredOnce(e, off, cursor0, z) <==> Harmless(e, off, cursor0, Clocks(acts))
    ensures ClocksSafe(cursor0, Clocks(acts)) ==> FiredOnce(e, off, cursor0, z)
  {
    hide Clocks, Layout, Counted, FiredOnce, Harmless, Matches;
    RunFromStart(e, off, cursor0, acts, z);
    OnceIffHarmless(e, off, cursor0, Clocks(acts), z);
    SafeIsHarmless(e, off, cursor0, Clocks(acts));
  }

  /** How often each minute is held: the minute of the epoch by every early call, and each
      minute from the first later claim through the cursor once. */
  ghost function Multiplicity(z: Runner, cursor0: int, cs: seq<int>, t: int): nat
    requires Layout(z, cursor0, cs)
  {
    var k := if cursor0 > 0 then 0 else Zeros(cs);
    (if t == 0 then k else 0) + (if |z.claims| > k && z.claims[k].start <= t <= z.cursor then 1 else 0)
  }

  lemma FiredByLayout(e: Expr, off: int, cursor0: int, cs: seq<int>, z: Runner)
    requires Layout(z, cursor0, cs) && Counted(e, off, z)
    requires forall i :: 0 <= i < |z.claims| ==> z.claims[i].finished
    ensures forall t :: z.fired[t] == if Matches(e, off, t) then Multiplicity(z, cursor0, cs, t) else 0
    ensures var k := if cursor0 > 0 then 0 else Zeros(cs); |z.claims| > k ==> z.claims[k].start <= z.cursor + 1
  {
    hide Matches, Dealt, Zeros;
    var k := if cursor0 > 0 then 0 else Zeros(cs);
    DealtLaidOut(z.claims, k, 0);
    forall t ensures Dealt(z.claims, t) == Multiplicity(z, cursor0, cs, t) {
      DealtLaidOut(z.claims, k, t);
    }
  }

  lemma {:induction false} DealtLaidOut(claims: seq<Claim>, k: nat, t: int)
    requires k <= |claims|
    requires forall i :: 0 <= i < |claims| ==> claims[i].check == claims[i].limit
    requires forall i :: 0 <= i < |claims| ==> claims[i].start - 1 <= claims[i].limit
    requires forall i :: 0 <= i < k ==> claims[i].start == 0 && claims[i].limit == 0
    requires forall i :: k <= i < |claims| - 1 ==> claims[i + 1].start == claims[i].limit + 1
    ensures |claims| > k ==> claims[k].start <= claims[|claims| - 1].limit + 1
    ensures Dealt(claims, t) == (if t == 0 then k else 0) +
      if |claims| > k && claims[k].start <= t <= claims[|claims| - 1].limit then 1 else 0
    decreases |claims|
  {
    if claims != [] {
      var n := |claims| - 1;
      DealtLaidOut(claims[..n], if k > n then n else k, t);
      if k < n { assert claims[n - 1 + 1].start == claims[n - 1].limit + 1; }
    }
  }

  lemma OnceIffHarmless(e: Expr, off: int, cursor0: int, cs: seq<int>, z: Runner)
    requires cursor0 >= 0 && Layout(z, cursor0, cs) && Counted(e, off, z)
    requires forall i :: 0 <= i < |z.claims| ==> z.claims[i].finished
    ensures FiredOnce(e, off, cursor0, z) <==> Harmless(e, off, cursor0, cs)
  {
    FiredByLayout(e, off, cursor0, cs, z);
    hide Matches, Zeros, Counted;
    if FiredOnce(e, off, cursor0, z) && cursor0 == 0 { OnceIsHarmless(e, off, cs, z); }
  }

  lemma OnceIsHarmless(e: Expr, off: int, cs: seq<int>, z: Runner)
    requires Layout(z, 0, cs) && FiredOnce(e, off, 0, z)
    requires forall t :: z.fired[t] == if Matches(e, off, t) then Multiplicity(z, 0, cs, t) else 0
    requires var k := Zeros(cs); |z.claims| > k ==> z.claims[k].start <= z.cursor + 1
    ensures Harmless(e, off, 0, cs)
  {
    hide Matches, Zeros;
    var k := Zeros(cs);
    assert z.fired[0] == if Matches(e, off, 0) then Multiplicity(z, 0, cs, 0) else 0;
    if 0 < k < |cs| {
      forall t | 1 <= t < cs[k] ensures !Matches(e, off, t) {
        var times := z.fired[t];
      }
    }
  }

  lemma SafeIsHarmless(e: Expr, off: int, cursor0: int, cs: seq<int>)
    ensures ClocksSafe(cursor0, cs) ==> Harmless(e, off, cursor0, cs)
  {
    hide Matches;
    ZerosSmall(cs);
  }

  /** A call in the minute of the epoch leaves the runner as if it had never advanced, so a
      later call starts afresh and minutes in between are never claimed. */
  lemma EpochMinuteLosesMinutes(e: Expr, off: int) returns (acts: seq<Act>, z: Runner)
    ensures Reaches(e, off, Runner(0, [], multiset{}), acts, z)
    ensures z.cursor == 5 && |z.claims| == 2 && !Holds(z.claims[0], 3) && !Holds(z.claims[1], 3)
  {
    hide Reaches, Apply;
    var r, first := Runner(0, [], multiset{}), Claim(0, 0, -1, false);
    var a := Runner(0, [first], multiset{});
    z := Runner(5, [first, Claim(5, 5, 4, false)], multiset{});
    StartAfresh(r, 0, a);
    StartAfresh(a, 300, z);
    Stays(e, off, z);
    Then(e, off, a, Enter(300), [], z, [Enter(300)]);
    acts := [Enter(0), Enter(300)];
    Then(e, off, r, Enter(0), [Enter(300)], z, acts);
  }

  /** A runner at "never advanced" claims just the minute of the call. */
  lemma StartAfresh(r: Runner, now: int, z: Runner)
    requires r.cursor == 0 && now >= 0
    requires z == Runner(now / 60, r.claims + [Claim(now / 60, now / 60, now / 60 - 1, false)], r.fired)
    ensures Apply(r, Enter(now)) == z
  {
    ClockMinute(now);
  }

  /** Two calls in the minute of the epoch both claim it, and both fire it if it matches. */
  lemma EpochMinuteFiresTwice(e: Expr, off: int) returns (acts: seq<Act>, z: Runner)
    requires Matches(e, off, 0)
    ensures Reaches(e, off, Runner(0, [], multiset{}), acts, z)
    ensures |z.claims| == 2 && Holds(z.claims[0], 0) && Holds(z.claims[1], 0) && z.fired[0] == 2
  {
    hide Matches, Reaches, Current;
    var r, early, late := Runner(0, [], multiset{}), Claim(0, 0, -1, false), Claim(0, 0, 0, false);
    var a, b := Runner(0, [early], multiset{}), Runner(0, [early, early], multiset{});
    var c := Runner(0, [late, early], multiset{0});
    z := Runner(0, [late, late], multiset{0, 0});
    Stays(e, off, z);
    assert Apply(c, Fire(1, 0)) == z;
    Then(e, off, c, Fire(1, 0), [], z, [Fire(1, 0)]);
    assert Apply(b, Fire(0, 0)) == c;
    Then(e, off, b, Fire(0, 0), [Fire(1, 0)], z, [Fire(0, 0), Fire(1, 0)]);
    StartAfresh(a, 30, b);
    Then(e, off, a, Enter(30), [Fire(0, 0), Fire(1, 0)], z, [Enter(30), Fire(0, 0), Fire(1, 0)]);
    StartAfresh(r, 0, a);
    acts := [Enter(0), Enter(30), Fire(0, 0), Fire(1, 0)];
    Then(e, off, r, Enter(0), [Enter(30), Fire(0, 0), Fire(1, 0)], z, acts);
  }

  lemma ClockMinute(now: int)
    requires now >= 0
    ensures Current(now) == now / 60
  {
  }

  lemma Stays(e: Expr, off: int, r: Runner)
    ensures Reaches(e, off, r, [], r)
  {
  }

  lemma Then(e: Expr, off: int, r: Runner, a: Act, rest: seq<Act>, z: Runner, acts: seq<Act>)
    requires acts == [a] + rest
    requires Enabled(e, off, r, a) && Reaches(e, off, Apply(r, a), rest, z)
    ensures Reaches(e, off, r, acts, z)
  {
    assert acts[1..] == rest;
  }

  // ---- one call as a run of the steps above ---------------------------------------------------------

  /** The callbacks of one call. */
  function Fires(i: nat, out: seq<int>): seq<Act> {
    if out == [] then [] else [Fire(i, out[0] / 60)] + Fires(i, out[1..])
  }

  function MinutesOf(out: seq<int>): multiset<int> {
    if out == [] then multiset{} else multiset{out[0] / 60} + MinutesOf(out[1..])
  }

  /** All steps of one call that fires at the given times. */
  function CallActs(r: Runner, now: int, out: seq<int>): seq<Act> {
    if Current(now) < r.cursor then [Enter(now)]
    else [Enter(now)] + (Fires(|r.claims|, out) + [Leave(|r.claims|)])
  }

  /** The times of one call: increasing, and exactly the matches the claim has left. */
  ghost predicate Due(e: Expr, off: int, c: Claim, out: seq<int>) {
    && Lists(e, off, c.check + 1, c.limit, out)
    && forall i, j :: 0 <= i < j < |out| ==> out[i] < out[j]
  }

  lemma ListedAt(e: Expr, off: int, lo: int, hi: int, out: seq<int>, i: nat)
    requires ListsOnly(e, off, lo, hi, out) && i < |out|
    ensures out[i] % 60 == 0 && lo <= out[i] / 60 <= hi && Matches(e, off, out[i] / 60)
  {
    hide Matches;
  }

  lemma PlaceOf(e: Expr, off: int, lo: int, hi: int, out: seq<int>, u: int) returns (i: nat)
    requires ListsAll(e, off, lo, hi, out) && lo <= u <= hi && Matches(e, off, u)
    ensures i < |out| && out[i] == u * 60
  {
    hide Matches;
    i :| 0 <= i < |out| && out[i] == u * 60;
  }

  /** The first time is the least match, and the others are those after it. */
  lemma DueRest(e: Expr, off: int, c: Claim, out: seq<int>)
    requires Due(e, off, c, out) && out != []
    ensures var t := out[0] / 60;
      && c.check < t <= c.limit && Matches(e, off, t) && Quiet(e, off, c.check + 1, t)
      && Due(e, off, c.(check := t), out[1..])
  {
    hide Matches, ListsOnly, ListsAll, Quiet;
    ListedAt(e, off, c.check + 1, c.limit, out, 0);
    FirstDue(e, off, c, out);
    LaterOnly(e, off, c, out);
    LaterAll(e, off, c, out);
    var rest := out[1..];
    forall i, j | 0 <= i < j < |rest| ensures rest[i] < rest[j] {
      assert rest[i] == out[i + 1] && rest[j] == out[j + 1];
    }
  }

  lemma FirstDue(e: Expr, off: int, c: Claim, out: seq<int>)
    requires Due(e, off, c, out) && out != []
    ensures Quiet(e, off, c.check + 1, out[0] / 60)
  {
    hide Matches, ListsOnly, ListsAll;
    ListedAt(e, off, c.check + 1, c.limit, out, 0);
    forall u | c.check + 1 <= u < out[0] / 60 ensures !Matches(e, off, u) {
      if Matches(e, off, u) {
        var i := PlaceOf(e, off, c.check + 1, c.limit, out, u);
        assert false;
      }
    }
  }

  lemma LaterAll(e: Expr, off: int, c: Claim, out: seq<int>)
    requires Due(e, off, c, out) && out != []
    ensures ListsAll(e, off, out[0] / 60 + 1, c.limit, out[1..])
  {
    hide Matches, ListsOnly;
    var t, rest := out[0] / 60, out[1..];
    ListedAt(e, off, c.check + 1, c.limit, out, 0);
    forall u | t + 1 <= u <= c.limit && Matches(e, off, u) ensures u * 60 in rest {
      var i := PlaceOf(e, off, c.check + 1, c.limit, out, u);
      assert rest[i - 1] == u * 60;
    }
  }

  lemma LaterOnly(e: Expr, off: int, c: Claim, out: seq<int>)
    requires Due(e, off, c, out) && out != []
    ensures ListsOnly(e, off, out[0] / 60 + 1, c.limit, out[1..])
  {
    hide Matches, ListsAll;
    var t, rest := out[0] / 60, out[1..];
    forall i | 0 <= i < |rest|
      ensures rest[i] % 60 == 0 && t + 1 <= rest[i] / 60 <= c.limit && Matches(e, off, rest[i] / 60)
    {
      ListedAt(e, off, c.check + 1, c.limit, out, i + 1);
      WholeMinutes(out[0], out[i + 1]);
    }
  }

  lemma WholeMinutes(a: int, b: int)
    requires a % 60 == 0 && b % 60 == 0 && a < b
    ensures a / 60 < b / 60
  {
  }

  lemma {:induction false} FiresReach(e: Expr, off: int, r: Runner, i: nat, out: seq<int>) returns (z: Runner)
    requires i < |r.claims| && !r.claims[i].finished && Due(e, off, r.claims[i], out)
    ensures Reaches(e, off, r, Fires(i, out) + [Leave(i)], z)
    ensures z == Runner(r.cursor, r.claims[i := r.claims[i].(check := r.claims[i].limit, finished := true)],
                        r.fired + MinutesOf(out))
    decreases |out|
  {
    hide Matches, Due, Lists, Reaches;
    if out == [] {
      NoneLeft(e, off, r.claims[i]);
      z := Apply(r, Leave(i));
      Stays(e, off, z);
      Then(e, off, r, Leave(i), [], z, Fires(i, out) + [Leave(i)]);
    } else {
      DueRest(e, off, r.claims[i], out);
      var a, t := Fire(i, out[0] / 60), out[0] / 60;
      z := FiresReach(e, off, Apply(r, a), i, out[1..]);
      Then(e, off, r, a, Fires(i, out[1..]) + [Leave(i)], z, Fires(i, out) + [Leave(i)]);
      assert r.fired + multiset{t} + MinutesOf(out[1..]) == r.fired + MinutesOf(out);
    }
  }

  lemma NoneLeft(e: Expr, off: int, c: Claim)
    requires Due(e, off, c, [])
    ensures Quiet(e, off, c.check + 1, c.limit + 1)
  {
    hide Matches;
  }

  /** A call that fires exactly the matches it claims is a run of the system, undisturbed. */
  lemma CallReaches(e: Expr, off: int, r: Runner, now: int, out: seq<int>) returns (z: Runner)
    requires Current(now) < r.cursor ==> out == []
    requires Current(now) >= r.cursor ==> Lists(e, off, ClaimStart(r.cursor, now), Current(now), out)
    requires forall i, j :: 0 <= i < j < |out| ==> out[i] < out[j]
    ensures Reaches(e, off, r, CallActs(r, now, out), z)
    ensures z.cursor == (if Current(now) < r.cursor then r.cursor else Current(now))
    ensures z.fired == r.fired + MinutesOf(out)
  {
    hide Matches, Lists, Reaches, Current;
    if Current(now) < r.cursor {
      z := r;
      Stays(e, off, z);
      Then(e, off, r, Enter(now), [], z, [Enter(now)]);
    } else {
      var n := |r.claims|;
      var entered := Apply(r, Enter(now));
      z := FiresReach(e, off, entered, n, out);
      Then(e, off, r, Enter(now), Fires(n, out) + [Leave(n)], z, CallActs(r, now, out));
    }
  }

  // ---- one call, start to finish -----------------------------------------------------------------

  /** The runner object as one thread sees it. `log` is the sequence of callbacks. */
  class CronJob {
    const expr: Expr
    const offset: int
    var cursor: int
    var log: seq<int>

    constructor (e: Expr, off: int)
      ensures expr == e && offset == off && cursor == 0 && log == []
    {
      expr, offset, cursor, log := e, off, 0, [];
    }

    /** Claims up to the current minute and fires, in order, exactly the matches claimed. Seen
        from any runner with this cursor the call is a run of its steps. */
    method Advance(now: int, ghost r: Runner) returns (fired: nat, ghost z: Runner)
      requires InDomain(expr) && r.cursor == cursor
      modifies this
      ensures cursor == if Current(now) < old(cursor) then old(cursor) else Current(now)
      ensures old(log) <= log && |log| == |old(log)| + fired
      ensures Reaches(expr, offset, r, CallActs(r, now, log[|old(log)|..]), z) && z.cursor == cursor
      ensures Current(now) < old(cursor) ==> fired == 0
      ensures Current(now) >= old(cursor) ==>
        Lists(expr, offset, ClaimStart(old(cursor), now), Current(now), log[|old(log)|..])
      ensures var added := log[|old(log)|..]; forall i, j :: 0 <= i < j < |added| ==> added[i] < added[j]
    {
      hide Matches, CRem, Lists, FirstCandidate, Current, Reaches, CallActs;
      var current := Current(now);
      var start := if cursor == 0 then current else cursor + 1;
      fired := 0;
      if current < cursor {
        z := CallReaches(expr, offset, r, now, []);
        assert log[|old(log)|..] == [];
        return;
      }
      cursor := current;
      var check := (start - 1) * 60;
      ghost var out: seq<int> := [];
      NothingListed(expr, offset, start);
      while true
        invariant check % 60 == 0 && start - 1 <= check / 60 <= current
        invariant log == old(log) + out && |out| == fired && cursor == current
        invariant Lists(expr, offset, start, check / 60, out)
        invariant forall i :: 0 <= i < |out| ==> out[i] <= check
        invariant forall i, j :: 0 <= i < j < |out| ==> out[i] < out[j]
        decreases current - check / 60
      {
        var rc, next := Next(expr, offset, check);
        CandidateExact(check);
        if rc != Ok || next > current * 60 {
          ListsToEnd(expr, offset, start, check / 60, current, out,
                     if rc == Ok then next / 60 else current + 1);
          assert log[|old(log)|..] == out;
          z := CallReaches(expr, offset, r, now, out);
          return;
        }
        AppendMatch(expr, offset, start, check / 60, out, next);
        log := log + [next];
        out := out + [next];
        fired := fired + 1;
        check := next;
      }
    }
  }

  lemma ListsToEnd(e: Expr, off: int, lo: int, mid: int, hi: int, out: seq<int>, next: int)
    requires Lists(e, off, lo, mid, out) && mid <= hi < next
    requires Quiet(e, off, mid + 1, next) || forall t :: !Matches(e, off, t)
    ensures Lists(e, off, lo, hi, out)
  {
    hide Matches;
  }
}
