/** The memoised depth-first classification of records: which of them get a native descriptor
    or a native lifecycle, and how deep and large their descriptors are. */
module Classifiers {
  import opened Wrappers
  import opened RecordOrder
  import opened Schemas
  import opened Graphs
  import opened Admission

  // ---- what a field asks for --------------------------------------------------------------------------

  /** How a container holds its element: bare, in a sequence (one more node), or in a map
      (the map and its key are two more nodes). */
  datatype Wrap = Bare | InSequence | InMap

  function Wrapped(w: Wrap, d: Desc): Desc {
    match w
    case Bare => d
    case InSequence => Desc([d])
    case InMap => Desc([LEAF, d])
  }

  function Extra(w: Wrap): nat {
    match w
    case Bare => 0
    case InSequence => 1
    case InMap => 2
  }

  lemma WrappedMeasures(w: Wrap, d: Desc)
    ensures Size(Wrapped(w, d)) == Extra(w) + Size(d)
    ensures Height(Wrapped(w, d)) == Height(d) + if w.Bare? then 0 else 1
  {
    if w.InSequence? {
      Appended([], d);
      assert [] + [d] == [d];
    } else if w.InMap? {
      Appended([], LEAF);
      Appended([LEAF], d);
      assert [] + [LEAF] == [LEAF] && [LEAF] + [d] == [LEAF, d];
    }
  }

  /** Rejected, an element without records, a record, or a nested generic type. */
  datatype Plan =
    | Reject
    | Plain(wrap: Wrap)
    | Ref(target: nat, wrap: Wrap, owning: bool)
    | Nested(logical: TypeExpr)

  function RecordOr(ctx: Ctx, name: string, w: Wrap, owning: bool): Plan {
    var t := Find(ctx.sc, name);
    if t < |Records(ctx.sc)| then Ref(t, w, owning) else Reject
  }

  function PlanOf(ctx: Ctx, f: FieldNote): (p: Plan)
    ensures p.Ref? ==> p.target < |Records(ctx.sc)|
  {
    var bound := f.nativeData.Some? && f.nativeType.Some?;
    if f.typ.None? || (ctx.lifecycle && (f.isOptional || f.isNullable)) then Reject
    else if (f.isSet && !f.cstlSet) || (f.isGroup && !f.cstlSequence) then Reject
    else if f.nestedGeneric then Nested(f.logical)
    else if f.fixedArray then FixedArrayPlan(ctx, f)
    else if f.isList || f.isGroup then ListPlan(ctx, f)
    else if f.isSet then
      if f.inner.Some? && f.requirement == Some("set_provider") && bound && f.elementData && f.elementType &&
         BuiltIn(ctx.sc, f.inner.value) then Plain(InSequence) else Reject
    else if f.isCollection && !f.isMap then Reject
    else if f.isMap then MapPlan(ctx, f)
    else if IsScalar(ctx.sc, f.typ.value) then
      if ctx.sc.scalars[f.typ.value].data && ctx.sc.scalars[f.typ.value].typ then Plain(Bare) else Reject
    else if ctx.lifecycle && bound &&
            (f.requirement == Some("fixed_value") || f.requirement == Some("owned_lifecycle")) then
      Plain(Bare)
    else if IsEnum(ctx.sc, f.typ.value) then
      if NativeEnum(ctx.sc, f.typ.value) then Plain(Bare) else Reject
    else
      var r := RecordOr(ctx, f.typ.value, Bare, false);
      if r.Reject? && !ctx.lifecycle && bound then Plain(Bare) else r
  }

  function FixedArrayPlan(ctx: Ctx, f: FieldNote): Plan {
    if f.inner.None? || f.fixedCount.None? || f.fixedCount.value == 0 || !f.elementData ||
       f.nativeData.None? || f.nativeType.None? then Reject
    else
      var r := RecordOr(ctx, f.inner.value, InSequence, true);
      if !r.Reject? then r
      else if BuiltIn(ctx.sc, f.inner.value) || f.inner.value == "uuid" || NativeEnum(ctx.sc, f.inner.value) then
        Plain(InSequence)
      else Reject
  }

  function ListPlan(ctx: Ctx, f: FieldNote): Plan {
    if f.inner.None? || f.requirement != Some("sequence_provider") || f.nativeData.None? || f.nativeType.None? ||
       !f.elementData || !f.elementType then Reject
    else if f.cstlSequence then
      if BuiltIn(ctx.sc, f.inner.value) then Plain(InSequence) else RecordOr(ctx, f.inner.value, InSequence, false)
    else if BuiltIn(ctx.sc, f.inner.value) || f.inner.value == "uuid" || IsEnum(ctx.sc, f.inner.value) then Reject
    else RecordOr(ctx, f.inner.value, InSequence, false)
  }

  function MapPlan(ctx: Ctx, f: FieldNote): Plan {
    if f.key != Some("string") || f.value.None? || f.nativeData.None? || f.nativeType.None? ||
       !f.mapValueSymbol then Reject
    else if f.cstlMap then
      if !f.mapKeyType || !f.mapKeyData || !f.mapValueType || !f.mapValueData then Reject
      else if BuiltIn(ctx.sc, f.value.value) then Plain(InMap)
      else RecordOr(ctx, f.value.value, InMap, false)
    else if ctx.lifecycle then Reject
    else if BuiltIn(ctx.sc, f.value.value) || f.value.value == "uuid" then Plain(InMap)
    else if IsEnum(ctx.sc, f.value.value) then
      if NativeEnum(ctx.sc, f.value.value) then Plain(InMap) else Reject
    else RecordOr(ctx, f.value.value, InMap, false)
  }

  // ---- the reference: unfold without memory, at most `fuel` records deep ----------------------------------

  /** `depth` counts the records below on the longest chain. */
  datatype Verdict = Refused | Granted(depth: nat, desc: Desc)

  /** `depth` is the nesting depth that a generic type is limited in. */
  datatype NestedVerdict = Unfit | Fit(depth: nat, records: nat, desc: Desc)

  function Judge(ctx: Ctx, i: nat, fuel: nat): Verdict
    requires i < |Records(ctx.sc)|
    decreases fuel, 0, 0
  {
    if fuel == 0 || Records(ctx.sc)[i].fields.None? then Refused
    else JudgeFields(ctx, Records(ctx.sc)[i].fields.value, |Records(ctx.sc)[i].fields.value|, fuel - 1)
  }

  /** The first n fields. */
  function JudgeFields(ctx: Ctx, fs: seq<FieldNote>, n: nat, fuel: nat): (v: Verdict)
    requires n <= |fs|
    ensures v.Granted? ==> |v.desc.parts| == n
    decreases fuel, 4, n
  {
    if n == 0 then Granted(0, Desc([]))
    else
      var before := JudgeFields(ctx, fs, n - 1, fuel);
      var field := JudgeField(ctx, fs[n - 1], fuel);
      if before.Refused? || field.Refused? then Refused
      else Granted(Max(before.depth, field.depth), Desc(before.desc.parts + [field.desc]))
  }

  /** One field: its depth counts the record it leads to, if any. */
  function JudgeField(ctx: Ctx, f: FieldNote, fuel: nat): Verdict
    decreases fuel, 3, 0
  {
    match PlanOf(ctx, f)
    case Reject => Refused
    case Plain(w) => Granted(0, Wrapped(w, LEAF))
    case Ref(t, w, owning) =>
      var v := Judge(ctx, t, fuel);
      if v.Refused? || (owning && !Owns(ctx, t)) then Refused else Granted(v.depth + 1, Wrapped(w, v.desc))
    case Nested(t) =>
      var v := JudgeNested(ctx, t, fuel);
      if v.Unfit? || v.depth >= MAX_DEPTH then Refused else Granted(v.records, v.desc)
  }

  function JudgeNested(ctx: Ctx, t: TypeExpr, fuel: nat): NestedVerdict
    decreases fuel, 2, t
  {
    match t
    case Missing => Unfit
    case Malformed => Unfit
    case Named(n) => JudgeName(ctx, n, fuel)
    case Apply(c, args) =>
      if c == ListOf && |args| == 1 then Deeper(InSequence, JudgeNested(ctx, args[0], fuel))
      else if c == MapOf && |args| == 2 && args[0] == Named("string") then
        Deeper(InMap, JudgeNested(ctx, args[1], fuel))
      else Unfit
  }

  function Deeper(w: Wrap, v: NestedVerdict): NestedVerdict {
    if v.Unfit? || v.depth >= MAX_DEPTH then Unfit else Fit(v.depth + 1, v.records, Wrapped(w, v.desc))
  }

  function JudgeName(ctx: Ctx, name: string, fuel: nat): NestedVerdict
    decreases fuel, 1, 0
  {
    if |name| >= 256 then Unfit
    else
      var r := Find(ctx.sc, name);
      if r < |Records(ctx.sc)| then
        var v := Judge(ctx, r, fuel);
        if v.Refused? || !Owns(ctx, r) then Unfit
        else Fit(if ctx.lifecycle then v.depth + 1 else Height(v.desc), v.depth + 1, v.desc)
      else if BuiltIn(ctx.sc, name) || name == "uuid" || NativeEnum(ctx.sc, name) then Fit(1, 0, LEAF)
      else Unfit
  }

  // ---- the reference agrees with the table --------------------------------------------------------------

  /** d is a descriptor that the container makes. */
  predicate Fits(w: Wrap, d: Desc) {
    match w
    case Bare => true
    case InSequence => |d.parts| == 1
    case InMap => |d.parts| == 2 && d.parts[0] == LEAF
  }

  /** What is inside the container. */
  function Unwrapped(w: Wrap, d: Desc): Desc {
    match w
    case Bare => d
    case InSequence => if |d.parts| == 1 then d.parts[0] else d
    case InMap => if |d.parts| == 2 then d.parts[1] else d
  }

  lemma Unwraps(w: Wrap, d: Desc)
    ensures forall e :: d == Wrapped(w, e) <==> Fits(w, d) && e == Unwrapped(w, d)
  {
    if w == InSequence && |d.parts| == 1 { assert d == Desc([d.parts[0]]); }
    if w == InMap && |d.parts| == 2 && d.parts[0] == LEAF { assert d == Desc([LEAF, d.parts[1]]); }
  }

  /** What the plan of a field comes to, given what records come to. */
  ghost predicate PlanIs(ctx: Ctx, p: Plan, n: nat, d: Desc) {
    match p
    case Reject => false
    case Plain(w) => n == 0 && Fits(w, d) && Unwrapped(w, d) == LEAF
    case Ref(t, w, owning) =>
      n > 0 && (owning ==> Owns(ctx, t)) && Fits(w, d) && RecordIs(ctx, t, n - 1, Unwrapped(w, d))
    case Nested(t) => exists nest: nat :: nest < MAX_DEPTH && GenericIs(ctx, t, nest, n, d)
  }

  lemma PlanAgrees(ctx: Ctx, f: FieldNote, n: nat, d: Desc)
    ensures FieldIs(ctx, f, n, d) <==> PlanIs(ctx, PlanOf(ctx, f), n, d)
  {
    hide RecordIs, GenericIs, Find, Records, MapPlan, ListPlan, FixedArrayPlan;
    if Eligible(ctx, f) {
      match FormOf(f)
      case InlineArray => ArrayAgrees(ctx, f, n, d);
      case Sequence => ListAgrees(ctx, f, n, d);
      case Mapping => MapAgrees(ctx, f, n, d);
      case Generic => GenericAgrees(ctx, f, n, d);
      case _ =>
    }
  }

  lemma GenericAgrees(ctx: Ctx, f: FieldNote, n: nat, d: Desc)
    requires FormOf(f) == Generic && Eligible(ctx, f)
    ensures FieldIs(ctx, f, n, d) <==> PlanIs(ctx, Nested(f.logical), n, d)
  {
  }

  lemma ArrayAgrees(ctx: Ctx, f: FieldNote, n: nat, d: Desc)
    requires FormOf(f) == InlineArray && Eligible(ctx, f)
    ensures FieldIs(ctx, f, n, d) <==> PlanIs(ctx, FixedArrayPlan(ctx, f), n, d)
  {
    hide GenericIs, Find, Records;
  }

  lemma ListAgrees(ctx: Ctx, f: FieldNote, n: nat, d: Desc)
    requires FormOf(f) == Sequence && Eligible(ctx, f)
    ensures FieldIs(ctx, f, n, d) <==> PlanIs(ctx, ListPlan(ctx, f), n, d)
  {
    hide RecordIs, GenericIs, Find, Records;
  }

  lemma MapAgrees(ctx: Ctx, f: FieldNote, n: nat, d: Desc)
    requires FormOf(f) == Mapping && Eligible(ctx, f)
    ensures FieldIs(ctx, f, n, d) <==> PlanIs(ctx, MapPlan(ctx, f), n, d)
  {
    hide RecordIs, GenericIs, Find, Records;
  }

  /** With fuel, the reference grants exactly what the table says, as deep as the fuel allows. */
  lemma {:induction false} RecordAgrees(ctx: Ctx, i: nat, fuel: nat, n: nat, d: Desc)
    requires i < |Records(ctx.sc)|
    ensures Judge(ctx, i, fuel) == Granted(n, d) <==> RecordIs(ctx, i, n, d) && n < fuel
    decreases fuel, 0, 0
  {
    hide FieldIs, JudgeFields, Find;
    if fuel > 0 && Records(ctx.sc)[i].fields.Some? {
      var fs := Records(ctx.sc)[i].fields.value;
      if Judge(ctx, i, fuel) == Granted(n, d) {
        var ns := GrantedParts(ctx, fs, |fs|, fuel - 1);
      }
      if RecordIs(ctx, i, n, d) && n < fuel {
        var ns: seq<nat> :| |ns| == |fs| && Deepest(ns, n) &&
          forall j :: 0 <= j < |fs| ==> FieldIs(ctx, fs[j], ns[j], d.parts[j]);
        PartsGranted(ctx, fs, |fs|, fuel - 1, ns, n, d.parts);
      }
    }
  }

  lemma {:induction false} GrantedParts(ctx: Ctx, fs: seq<FieldNote>, k: nat, fuel: nat) returns (ns: seq<nat>)
    requires k <= |fs| && JudgeFields(ctx, fs, k, fuel).Granted?
    ensures var v := JudgeFields(ctx, fs, k, fuel);
      |ns| == k && v.depth <= fuel && Deepest(ns, v.depth) &&
      forall j :: 0 <= j < k ==> FieldIs(ctx, fs[j], ns[j], v.desc.parts[j])
    decreases fuel, 4, k
  {
    hide FieldIs, JudgeField;
    if k == 0 { ns := []; } else {
      ns := GrantedParts(ctx, fs, k - 1, fuel);
      var v := JudgeField(ctx, fs[k - 1], fuel);
      FieldAgrees(ctx, fs[k - 1], fuel, v.depth, v.desc);
      ns := ns + [v.depth];
    }
  }

  lemma {:induction false} PartsGranted(
    ctx: Ctx, fs: seq<FieldNote>, k: nat, fuel: nat, ns: seq<nat>, n: nat, ds: seq<Desc>)
    requires k <= |fs| && |ns| == |ds| == k && n <= fuel && Deepest(ns, n)
    requires forall j :: 0 <= j < k ==> FieldIs(ctx, fs[j], ns[j], ds[j])
    ensures JudgeFields(ctx, fs, k, fuel) == Granted(n, Desc(ds))
    decreases fuel, 4, k
  {
    hide FieldIs, JudgeField;
    if k > 0 {
      var m := Maximum(ns[..k - 1]);
      DeepestAfter(ns, m, n);
      PartsGranted(ctx, fs, k - 1, fuel, ns[..k - 1], m, ds[..k - 1]);
      FieldAgrees(ctx, fs[k - 1], fuel, ns[k - 1], ds[k - 1]);
      assert ds[..k - 1] + [ds[k - 1]] == ds && ns[..k - 1] + [ns[k - 1]] == ns;
    }
  }

  lemma DeepestAfter(ns: seq<nat>, m: nat, n: nat)
    requires |ns| > 0 && Deepest(ns[..|ns| - 1], m) && Deepest(ns, n)
    ensures n == Max(m, ns[|ns| - 1])
  {
    var k := |ns| - 1;
    assert forall j :: 0 <= j < k ==> ns[..k][j] == ns[j];
    if m > 0 { assert m in ns; }
  }

  function Maximum(ns: seq<nat>): (m: nat)
    ensures Deepest(ns, m)
  {
    if ns == [] then 0 else
      var m := Maximum(ns[..|ns| - 1]);
      assert forall k :: 0 <= k < |ns| - 1 ==> ns[k] == ns[..|ns| - 1][k];
      Max(m, ns[|ns| - 1])
  }

  lemma {:induction false} FieldAgrees(ctx: Ctx, f: FieldNote, fuel: nat, n: nat, d: Desc)
    ensures JudgeField(ctx, f, fuel) == Granted(n, d) <==> FieldIs(ctx, f, n, d) && n <= fuel
    decreases fuel, 3, 0
  {
    hide PlanOf, FieldIs, RecordIs;
    PlanAgrees(ctx, f, n, d);
    match PlanOf(ctx, f)
    case Reject =>
    case Plain(w) => Unwraps(w, d);
    case Ref(t, w, _) =>
      PlanTarget(ctx, f);
      var e := Unwrapped(w, d);
      Unwraps(w, d);
      if n > 0 { RecordAgrees(ctx, t, fuel, n - 1, e); }
      var v := Judge(ctx, t, fuel);
      if v.Granted? { RecordAgrees(ctx, t, fuel, v.depth, v.desc); }
    case Nested(t) =>
      var v := JudgeNested(ctx, t, fuel);
      if v.Fit? { NestedAgrees(ctx, t, fuel, v.depth, v.records, v.desc); }
      if nest: nat :| nest < MAX_DEPTH && GenericIs(ctx, t, nest, n, d) { NestedAgrees(ctx, t, fuel, nest, n, d); }
  }

  lemma {:induction false} NestedAgrees(ctx: Ctx, t: TypeExpr, fuel: nat, nest: nat, n: nat, d: Desc)
    ensures JudgeNested(ctx, t, fuel) == Fit(nest, n, d) <==> GenericIs(ctx, t, nest, n, d) && n <= fuel
    decreases fuel, 2, t
  {
    hide RecordIs, Records;
    match t
    case Missing =>
    case Malformed =>
    case Named(name) =>
      var r := Find(ctx.sc, name);
      if r < |Records(ctx.sc)| {
        if n > 0 { RecordAgrees(ctx, r, fuel, n - 1, d); }
        var v := Judge(ctx, r, fuel);
      }
    case Apply(c, args) =>
      if c == ListOf && |args| == 1 {
        if nest > 0 && |d.parts| == 1 { NestedAgrees(ctx, args[0], fuel, nest - 1, n, d.parts[0]); }
      } else if c == MapOf && |args| == 2 && args[0] == Named("string") {
        if nest > 0 && |d.parts| == 2 { NestedAgrees(ctx, args[1], fuel, nest - 1, n, d.parts[1]); }
      }
  }

  /** The table gives a record at most one descriptor. */
  lemma OneDescriptor(ctx: Ctx, i: nat, m: nat, c: Desc, n: nat, d: Desc)
    requires RecordIs(ctx, i, m, c) && RecordIs(ctx, i, n, d)
    ensures m == n && c == d
  {
    hide RecordIs, Judge;
    RecordBelow(ctx, i, m, c);
    RecordAgrees(ctx, i, m + n + 1, m, c);
    RecordAgrees(ctx, i, m + n + 1, n, d);
  }

  lemma RecordBelow(ctx: Ctx, i: nat, n: nat, d: Desc)
    requires RecordIs(ctx, i, n, d)
    ensures i < |Records(ctx.sc)|
  {
  }

  // ---- the reference does not depend on the fuel ---------------------------------------------------

  /** Any fuel above the record depth gives the same verdict. */
  lemma {:induction false} FuelEnough(ctx: Ctx, i: nat, f: nat, g: nat)
    requires i < |Records(ctx.sc)| && Judge(ctx, i, f).Granted? && Judge(ctx, i, f).depth < g
    ensures Judge(ctx, i, g) == Judge(ctx, i, f) && Judge(ctx, i, f).depth < f
    decreases f, 0, 0
  {
    var fs := Records(ctx.sc)[i].fields.value;
    FieldsEnough(ctx, fs, |fs|, f - 1, g - 1);
  }

  lemma {:induction false} FieldsEnough(ctx: Ctx, fs: seq<FieldNote>, n: nat, f: nat, g: nat)
    requires n <= |fs| && JudgeFields(ctx, fs, n, f).Granted? && JudgeFields(ctx, fs, n, f).depth <= g
    ensures JudgeFields(ctx, fs, n, g) == JudgeFields(ctx, fs, n, f) && JudgeFields(ctx, fs, n, f).depth <= f
    decreases f, 4, n
  {
    if n > 0 {
      FieldsEnough(ctx, fs, n - 1, f, g);
      FieldEnough(ctx, fs[n - 1], f, g);
    }
  }

  lemma {:induction false} FieldEnough(ctx: Ctx, x: FieldNote, f: nat, g: nat)
    requires JudgeField(ctx, x, f).Granted? && JudgeField(ctx, x, f).depth <= g
    ensures JudgeField(ctx, x, g) == JudgeField(ctx, x, f) && JudgeField(ctx, x, f).depth <= f
    decreases f, 3, 0
  {
    hide PlanOf;
    match PlanOf(ctx, x)
    case Ref(t, _, _) => FuelEnough(ctx, t, f, g);
    case Nested(t) => NestedEnough(ctx, t, f, g);
    case _ =>
  }

  lemma {:induction false} NestedEnough(ctx: Ctx, t: TypeExpr, f: nat, g: nat)
    requires JudgeNested(ctx, t, f).Fit? && JudgeNested(ctx, t, f).records <= g
    ensures JudgeNested(ctx, t, g) == JudgeNested(ctx, t, f) && JudgeNested(ctx, t, f).records <= f
    decreases f, 2, t
  {
    match t
    case Named(n) =>
      var r := Find(ctx.sc, n);
      if r < |Records(ctx.sc)| { FuelEnough(ctx, r, f, g); }
    case Apply(c, args) => NestedEnough(ctx, args[if c == ListOf then 0 else 1], f, g);
  }

  /** A record that is refused with ample fuel, or is too deep, is refused with less. */
  lemma FuelLess(ctx: Ctx, i: nat)
    requires i < |Records(ctx.sc)|
    ensures var v, w := Judge(ctx, i, MAX_DEPTH + 1), Judge(ctx, i, MAX_DEPTH);
      w == if v.Granted? && v.depth < MAX_DEPTH then v else Refused
  {
    var v, w := Judge(ctx, i, MAX_DEPTH + 1), Judge(ctx, i, MAX_DEPTH);
    if w.Granted? {
      FuelEnough(ctx, i, MAX_DEPTH, w.depth + 1);
      FuelEnough(ctx, i, MAX_DEPTH, MAX_DEPTH + 1);
    } else if v.Granted? && v.depth < MAX_DEPTH {
      FuelEnough(ctx, i, MAX_DEPTH + 1, MAX_DEPTH);
    }
  }

  // ---- which records a record leads to ----------------------------------------------------------------

  /** The name at the core of a nested list or string-keyed map. */
  function Core(t: TypeExpr): Option<string> {
    match t
    case Missing => None
    case Malformed => None
    case Named(n) => if |n| >= 256 then None else Some(n)
    case Apply(c, args) =>
      if c == ListOf && |args| == 1 then Core(args[0])
      else if c == MapOf && |args| == 2 && args[0] == Named("string") then Core(args[1])
      else None
  }

  /** The record a field leads to; the number of records if it leads to none. */
  function Target(ctx: Ctx, f: FieldNote): (t: nat)
    ensures t <= |Records(ctx.sc)|
  {
    match PlanOf(ctx, f)
    case Ref(t, _, _) => t
    case Nested(t) => if Core(t).Some? then Find(ctx.sc, Core(t).value) else |Records(ctx.sc)|
    case _ => |Records(ctx.sc)|
  }

  ghost predicate LeadsTo(ctx: Ctx, i: nat, t: nat) {
    && i < |Records(ctx.sc)| && t < |Records(ctx.sc)| && Records(ctx.sc)[i].fields.Some?
    && exists j :: 0 <= j < |Records(ctx.sc)[i].fields.value| && Target(ctx, Records(ctx.sc)[i].fields.value[j]) == t
  }

  lemma {:induction false} NestedTarget(ctx: Ctx, t: TypeExpr, f: nat)
    requires JudgeNested(ctx, t, f).Fit?
    ensures Core(t).Some?
    ensures var r := Find(ctx.sc, Core(t).value);
      r < |Records(ctx.sc)| ==>
        Judge(ctx, r, f).Granted? && Judge(ctx, r, f).depth + 1 == JudgeNested(ctx, t, f).records &&
        Size(Judge(ctx, r, f).desc) <= Size(JudgeNested(ctx, t, f).desc)
    decreases t
  {
    if t.Apply? {
      var arg := t.args[if t.ctor == ListOf then 0 else 1];
      NestedTarget(ctx, arg, f);
      WrappedMeasures(if t.ctor == ListOf then InSequence else InMap, JudgeNested(ctx, arg, f).desc);
    }
  }

  /** A granted field leads to a granted record that is less deep and no larger. */
  lemma FieldTarget(ctx: Ctx, x: FieldNote, f: nat)
    requires JudgeField(ctx, x, f).Granted? && Target(ctx, x) < |Records(ctx.sc)|
    ensures var v := Judge(ctx, Target(ctx, x), f);
      v.Granted? && v.depth + 1 == JudgeField(ctx, x, f).depth && Size(v.desc) <= Size(JudgeField(ctx, x, f).desc)
  {
    hide PlanOf;
    match PlanOf(ctx, x)
    case Ref(t, w, _) => WrappedMeasures(w, Judge(ctx, t, f).desc);
    case Nested(t) => NestedTarget(ctx, t, f);
    case _ =>
  }

  /** What is granted for n fields is granted for fewer, with no more depth or size. */
  lemma {:induction false} PrefixGranted(ctx: Ctx, fs: seq<FieldNote>, k: nat, n: nat, f: nat)
    requires k <= n <= |fs| && JudgeFields(ctx, fs, n, f).Granted?
    ensures var v, w := JudgeFields(ctx, fs, k, f), JudgeFields(ctx, fs, n, f);
      v.Granted? && v.depth <= w.depth && Size(v.desc) <= Size(w.desc)
    decreases n
  {
    if k < n {
      PrefixGranted(ctx, fs, k, n - 1, f);
      Appended(JudgeFields(ctx, fs, n - 1, f).desc.parts, JudgeField(ctx, fs[n - 1], f).desc);
    }
  }

  lemma TargetGranted(ctx: Ctx, i: nat, t: nat, f: nat)
    requires LeadsTo(ctx, i, t) && Judge(ctx, i, f).Granted?
    ensures f > 0 && Judge(ctx, t, f - 1).Granted?
    ensures Judge(ctx, t, f - 1).depth < Judge(ctx, i, f).depth
  {
    hide PlanOf, JudgeField, Size;
    var fs := Records(ctx.sc)[i].fields.value;
    var j :| 0 <= j < |fs| && Target(ctx, fs[j]) == t;
    PrefixGranted(ctx, fs, j + 1, |fs|, f - 1);
    FieldTarget(ctx, fs[j], f - 1);
  }

  // ---- cycles ----------------------------------------------------------------------------------------------

  /** Each record of the chain leads to the next. */
  ghost predicate LinkedBy(ctx: Ctx, p: seq<nat>) {
    (forall k :: 0 <= k < |p| ==> p[k] < |Records(ctx.sc)|) &&
    forall k :: 0 <= k < |p| - 1 ==> LeadsTo(ctx, p[k], p[k + 1])
  }

  lemma {:induction false} ChainDescends(ctx: Ctx, p: seq<nat>, f: nat) returns (g: nat)
    requires |p| > 0 && LinkedBy(ctx, p) && Judge(ctx, p[0], f).Granted?
    ensures Judge(ctx, p[|p| - 1], g).Granted?
    ensures Judge(ctx, p[|p| - 1], g).depth + |p| - 1 <= Judge(ctx, p[0], f).depth
    decreases |p|
  {
    if |p| == 1 { g := f; } else {
      assert LeadsTo(ctx, p[0], p[0 + 1]);
      TargetGranted(ctx, p[0], p[1], f);
      g := ChainDescends(ctx, p[1..], f - 1);
    }
  }

  /** No record from which a cycle can be reached is ever granted, whatever the fuel. */
  lemma CycleRefused(ctx: Ctx, p: seq<nat>, f: nat)
    requires |p| > 1 && LinkedBy(ctx, p) && p[|p| - 1] in p[..|p| - 1]
    ensures Judge(ctx, p[0], f).Refused?
  {
    hide PlanOf, JudgeFields, Judge, LeadsTo;
    if Judge(ctx, p[0], f).Granted? {
      var k :| 0 <= k < |p| - 1 && p[k] == p[|p| - 1];
      var g := ChainDescends(ctx, p[..k + 1], f);
      var h := ChainDescends(ctx, p[k..], g);
      FuelEnough(ctx, p[k], g, Judge(ctx, p[k], g).depth + 1);
      FuelEnough(ctx, p[k], h, Judge(ctx, p[k], g).depth + 1);
      assert false;
    }
  }

  // ---- bounds that keep the native numbers in range ---------------------------------------------------------

  /** Descriptors cannot get much deeper than their records, so depths never wrap around. */
  lemma {:induction false} HeightBound(ctx: Ctx, i: nat, f: nat)
    requires i < |Records(ctx.sc)| && !ctx.lifecycle && Judge(ctx, i, f).Granted?
    ensures Height(Judge(ctx, i, f).desc) <= 33 + 2 * Judge(ctx, i, f).depth
    decreases f, 0, 0
  {
    var fs := Records(ctx.sc)[i].fields.value;
    FieldsHeight(ctx, fs, |fs|, f - 1);
  }

  lemma {:induction false} FieldsHeight(ctx: Ctx, fs: seq<FieldNote>, n: nat, f: nat)
    requires n <= |fs| && !ctx.lifecycle && JudgeFields(ctx, fs, n, f).Granted?
    ensures Height(JudgeFields(ctx, fs, n, f).desc) <= 33 + 2 * JudgeFields(ctx, fs, n, f).depth
    decreases f, 4, n
  {
    if n > 0 {
      FieldsHeight(ctx, fs, n - 1, f);
      FieldHeight(ctx, fs[n - 1], f);
      Appended(JudgeFields(ctx, fs, n - 1, f).desc.parts, JudgeField(ctx, fs[n - 1], f).desc);
    }
  }

  lemma {:induction false} FieldHeight(ctx: Ctx, x: FieldNote, f: nat)
    requires !ctx.lifecycle && JudgeField(ctx, x, f).Granted?
    ensures 1 + Height(JudgeField(ctx, x, f).desc) <= 33 + 2 * JudgeField(ctx, x, f).depth
    decreases f, 3, 0
  {
    hide PlanOf;
    match PlanOf(ctx, x)
    case Plain(w) => WrappedMeasures(w, LEAF);
    case Ref(t, w, _) =>
      HeightBound(ctx, t, f);
      WrappedMeasures(w, Judge(ctx, t, f).desc);
    case Nested(t) => NestedHeight(ctx, t, f);
    case _ =>
  }

  /** In the graph pass the nesting depth of a generic type is the height of its descriptor. */
  lemma {:induction false} NestedHeight(ctx: Ctx, t: TypeExpr, f: nat)
    requires !ctx.lifecycle && JudgeNested(ctx, t, f).Fit?
    ensures Height(JudgeNested(ctx, t, f).desc) == JudgeNested(ctx, t, f).depth
    decreases t
  {
    if t.Apply? {
      var arg := t.args[if t.ctor == ListOf then 0 else 1];
      NestedHeight(ctx, arg, f);
      WrappedMeasures(if t.ctor == ListOf then InSequence else InMap, JudgeNested(ctx, arg, f).desc);
    }
  }

  // ---- the memoised search ------------------------------------------------------------------------------------

  datatype State = Unvisited | Visiting | Supported | Unsupported

  /** The memo of one record; height and nodes are kept by the graph pass only. */
  datatype Slot = Slot(state: State, depth: nat, height: nat, nodes: nat)

  /** The reference for one record: granted when unfolded 33 records deep, and not too large. */
  ghost predicate Accepted(ctx: Ctx, v: Verdict) {
    v.Granted? && (!ctx.lifecycle ==> Size(v.desc) <= SIZE_MAX)
  }

  ghost function Reference(ctx: Ctx, i: nat): Verdict
    requires i < |Records(ctx.sc)|
  {
    Judge(ctx, i, MAX_DEPTH + 1)
  }

  /** The numbers are those of the descriptor. */
  ghost predicate Measures(ctx: Ctx, v: Verdict, depth: nat, height: nat, nodes: nat)
    requires v.Granted?
  {
    v.depth == depth && (!ctx.lifecycle ==> height == Height(v.desc) && nodes == Size(v.desc))
  }

  ghost predicate SlotTrue(ctx: Ctx, i: nat, s: Slot)
    requires i < |Records(ctx.sc)|
  {
    var v := Reference(ctx, i);
    && (s.state.Supported? ==> Accepted(ctx, v) && Measures(ctx, v, s.depth, s.height, s.nodes))
    && (s.state.Unsupported? ==> !Accepted(ctx, v))
  }

  /** Every decided record is decided as the reference says, and the records being visited
      form a chain of distinct records, each leading to the next. */
  ghost predicate Known(ctx: Ctx, slots: seq<Slot>, stack: seq<nat>) {
    && |slots| == |Records(ctx.sc)| && LinkedBy(ctx, stack) && Distinct(stack)
    && (forall i :: 0 <= i < |slots| ==> SlotTrue(ctx, i, slots[i]))
    && (forall i :: 0 <= i < |slots| ==> (slots[i].state.Visiting? <==> i in stack))
  }

  /** What is decided stays decided. */
  ghost predicate Decided(before: seq<Slot>, after: seq<Slot>) {
    |before| == |after| &&
    forall i :: 0 <= i < |before| && !before[i].state.Unvisited? ==> after[i] == before[i]
  }

  lemma Push(ctx: Ctx, slots: seq<Slot>, stack: seq<nat>, i: nat)
    requires Known(ctx, slots, stack) && i < |slots| && slots[i].state.Unvisited?
    requires stack != [] ==> LeadsTo(ctx, stack[|stack| - 1], i)
    ensures Known(ctx, slots[i := Slot(Visiting, 0, 0, 0)], stack + [i]) && |stack| < |slots|
  {
    hide LeadsTo, Accepted, Judge, Measures;
    DistinctBelow(stack + [i], |slots|);
  }

  lemma Pop(ctx: Ctx, slots: seq<Slot>, stack: seq<nat>, i: nat, s: Slot)
    requires Known(ctx, slots, stack + [i]) && i < |slots| && SlotTrue(ctx, i, s)
    requires s.state.Supported? || s.state.Unsupported?
    ensures Known(ctx, slots[i := s], stack)
  {
    hide LeadsTo, Accepted, Judge, Measures;
    var p := stack + [i];
    assert p[|stack|] == i && forall k :: 0 <= k < |stack| ==> p[k] == stack[k];
    assert LinkedBy(ctx, stack) by {
      forall k | 0 <= k < |stack| - 1 ensures LeadsTo(ctx, stack[k], stack[k + 1]) {
        assert LeadsTo(ctx, p[k], p[k + 1]);
      }
    }
    assert i !in stack;
    forall v | 0 <= v < |slots| ensures slots[i := s][v].state.Visiting? <==> v in stack {
      assert v in p <==> v in stack || v == i;
    }
  }

  /** A record met again while it is being visited lies on a cycle. */
  lemma MetAgain(ctx: Ctx, slots: seq<Slot>, stack: seq<nat>, i: nat)
    requires Known(ctx, slots, stack) && i in stack && LeadsTo(ctx, stack[|stack| - 1], i)
    ensures !Accepted(ctx, Reference(ctx, i))
  {
    hide LeadsTo;
    var k :| 0 <= k < |stack| && stack[k] == i;
    var p := stack[k..] + [i];
    assert LinkedBy(ctx, p);
    CycleRefused(ctx, p, MAX_DEPTH + 1);
  }

  /** What the memo says of a record, in terms of the fuel its owner has left for it. */
  lemma LookedUp(ctx: Ctx, t: nat)
    requires t < |Records(ctx.sc)|
    ensures var v, w := Reference(ctx, t), Judge(ctx, t, MAX_DEPTH);
      && (!Accepted(ctx, v) ==> !Accepted(ctx, w))
      && (v.Granted? ==> if v.depth < MAX_DEPTH then w == v else w.Refused?)
  {
    FuelLess(ctx, t);
  }

  /** What one field contributes: record depth, descriptor height, and extra + nodes nodes. */
  datatype Outcome = Rejected | Admitted(depth: nat, height: nat, extra: nat, nodes: nat)

  ghost predicate OutcomeTrue(ctx: Ctx, f: FieldNote, r: Outcome) {
    var v := JudgeField(ctx, f, MAX_DEPTH);
    match r
    case Rejected => !Accepted(ctx, v)
    case Admitted(d, h, x, n) => v.Granted? && Measures(ctx, v, d, h, x + n)
  }

  datatype Budget = Over | Within(depth: nat, records: nat, nodes: nat)

  ghost predicate BudgetTrue(ctx: Ctx, t: TypeExpr, b: Budget) {
    var v := JudgeNested(ctx, t, MAX_DEPTH);
    match b
    case Over => v.Fit? ==> !ctx.lifecycle && Size(v.desc) > SIZE_MAX
    case Within(d, r, n) =>
      && v.Fit? && v.depth == d && v.records == r
      && if ctx.lifecycle then n <= 2 * d else n == Size(v.desc) && n <= SIZE_MAX
  }

  class Search {
    const ctx: Ctx
    const slots: array<Slot>

    constructor (ctx: Ctx)
      ensures this.ctx == ctx && fresh(slots) && Known(ctx, slots[..], [])
    {
      this.ctx := ctx;
      slots := new Slot[|Records(ctx.sc)|](_ => Slot(Unvisited, 0, 0, 0));
    }

    /** Classifies a record that the top of the stack leads to. */
    method Classify(index: nat, ghost stack: seq<nat>) returns (ok: bool)
      requires Known(ctx, slots[..], stack) && index < slots.Length
      requires stack != [] ==> LeadsTo(ctx, stack[|stack| - 1], index)
      requires stack == [] ==> !slots[index].state.Visiting?
      modifies slots
      ensures Known(ctx, slots[..], stack) && Decided(old(slots[..]), slots[..])
      ensures (ok <==> slots[index].state.Supported?) && !slots[index].state.Unvisited?
      ensures !ok ==> !Accepted(ctx, Reference(ctx, index))
      decreases slots.Length - |stack|, 1, 0
    {
      hide LeadsTo, Judge, Accepted, Measures, Distinct, LinkedBy;
      ghost var before := slots[..];
      if slots[index].state.Supported? { return true; }
      if slots[index].state.Unsupported? { return false; }
      if slots[index].state.Visiting? {
        MetAgain(ctx, before, stack, index);
        return false;
      }
      Push(ctx, before, stack, index);
      slots[index] := Slot(Visiting, 0, 0, 0);
      assert slots[..] == before[index := Slot(Visiting, 0, 0, 0)];
      var found := ClassifyFields(index, stack);
      Pop(ctx, slots[..], stack, index, found);
      ghost var after := slots[..];
      slots[index] := found;
      assert slots[..] == after[index := found];
      ok := found.state.Supported?;
    }

    /** Adds up the fields of the record on top of the stack. */
    method ClassifyFields(index: nat, ghost stack: seq<nat>) returns (found: Slot)
      requires Known(ctx, slots[..], stack + [index]) && index < slots.Length && |stack| < slots.Length
      modifies slots
      ensures Known(ctx, slots[..], stack + [index]) && Decided(old(slots[..]), slots[..])
      ensures SlotTrue(ctx, index, found) && (found.state.Supported? || found.state.Unsupported?)
      decreases slots.Length - |stack|, 0, 3
    {
      hide LeadsTo, Accepted, Measures, Distinct, LinkedBy, Judge, JudgeFields, JudgeField, Known;
      KnownLength(ctx, slots[..], stack + [index]);
      var record := Records(ctx.sc)[index];
      if record.fields.None? {
        NoFields(ctx, index);
        return Slot(Unsupported, 0, 0, 0);
      }
      var fs := record.fields.value;
      var depth: nat, height: nat, nodes: nat := 0, 1, 1;
      var j := 0;
      StartFields(ctx, fs);
      while j < |fs|
        invariant 0 <= j <= |fs|
        invariant Known(ctx, slots[..], stack + [index]) && Decided(old(slots[..]), slots[..])
        invariant SumTrue(ctx, fs, j, depth, height, nodes)
      {
        var r := ClassifyField(index, j, stack);
        if r.Rejected? || (!ctx.lifecycle && (nodes > SIZE_MAX - r.extra || nodes + r.extra > SIZE_MAX - r.nodes)) {
          OneFails(ctx, index, fs, j, r, depth, height, nodes);
          return Slot(Unsupported, 0, 0, 0);
        }
        OneMore(ctx, fs, j, r, depth, height, nodes);
        depth := Max(depth, r.depth);
        if !ctx.lifecycle {
          nodes := nodes + r.extra + r.nodes;
          height := Max(height, r.height + 1);
        }
        j := j + 1;
      }
      AllFields(ctx, index, fs, depth, height, nodes);
      return Slot(Supported, depth, height, nodes);
    }

    /** Classifies field j of the record on top of the stack. */
    method ClassifyField(index: nat, j: nat, ghost stack: seq<nat>) returns (r: Outcome)
      requires Known(ctx, slots[..], stack + [index]) && index < slots.Length && |stack| < slots.Length
      requires Records(ctx.sc)[index].fields.Some? && j < |Records(ctx.sc)[index].fields.value|
      modifies slots
      ensures Known(ctx, slots[..], stack + [index]) && Decided(old(slots[..]), slots[..])
      ensures OutcomeTrue(ctx, Records(ctx.sc)[index].fields.value[j], r)
      ensures r.Admitted? ==> r.extra <= 2
      decreases slots.Length - |stack|, 0, 2
    {
      hide Known, Distinct, LinkedBy, Judge, PlanOf;
      KnownLength(ctx, slots[..], stack + [index]);
      var f := Records(ctx.sc)[index].fields.value[j];
      match PlanOf(ctx, f) {
        case Reject => return Rejected;
        case Plain(w) =>
          LeafMeasures();
          WrappedMeasures(w, LEAF);
          return Admitted(0, if w.Bare? then 1 else 2, 0, 1 + Extra(w));
        case Ref(t, w, owning) =>
          FieldLeads(ctx, index, j);
          var ok := Classify(t, stack + [index]);
          SlotKnown(ctx, slots[..], stack + [index], t);
          LookedUp(ctx, t);
          var s := slots[t];
          if ok { NeverTooHigh(ctx, t, w, s); }
          if !ok || (owning && !Owns(ctx, t)) || s.depth >= MAX_DEPTH || (!ctx.lifecycle && TooHigh(w, s.height)) {
            RefRejected(ctx, f, t, w, owning);
            return Rejected;
          }
          RefAdmitted(ctx, f, t, w, owning, s);
          return Admitted(s.depth + 1, if w.Bare? then s.height else s.height + 1, Extra(w), s.nodes);
        case Nested(t) =>
          var b := ClassifyGeneric(index, j, t, stack);
          NestedOutcome(ctx, f, t, b);
          if b.Over? || b.depth >= MAX_DEPTH { return Rejected; }
          return Admitted(b.records, b.depth, 0, b.nodes);
      }
    }

    /** Classifies a nested generic type, or a part of it. */
    method ClassifyGeneric(index: nat, j: nat, t: TypeExpr, ghost stack: seq<nat>) returns (b: Budget)
      requires Known(ctx, slots[..], stack + [index]) && index < slots.Length && |stack| < slots.Length
      requires Records(ctx.sc)[index].fields.Some? && j < |Records(ctx.sc)[index].fields.value|
      requires var p := PlanOf(ctx, Records(ctx.sc)[index].fields.value[j]);
        p.Nested? && Core(p.logical) == Core(t)
      modifies slots
      ensures Known(ctx, slots[..], stack + [index]) && Decided(old(slots[..]), slots[..])
      ensures BudgetTrue(ctx, t, b)
      decreases slots.Length - |stack|, 0, 1, t
    {
      hide Known, Distinct, LinkedBy, Judge, PlanOf;
      match t {
        case Missing => return Over;
        case Malformed => return Over;
        case Named(n) =>
          b := ClassifyName(index, j, n, stack);
        case Apply(c, args) =>
          if !(c == ListOf && |args| == 1) && !(c == MapOf && |args| == 2 && args[0] == Named("string")) {
            return Over;
          }
          var arg, w := args[if c == ListOf then 0 else 1], if c == ListOf then InSequence else InMap;
          var inner := ClassifyGeneric(index, j, arg, stack);
          DeeperBudget(ctx, t, w, arg, inner);
          if inner.Over? || inner.depth >= MAX_DEPTH || inner.nodes > SIZE_MAX - Extra(w) { return Over; }
          return Within(inner.depth + 1, inner.records, inner.nodes + Extra(w));
      }
    }

    /** The named core of a generic type. */
    method ClassifyName(index: nat, j: nat, n: string, ghost stack: seq<nat>) returns (b: Budget)
      requires Known(ctx, slots[..], stack + [index]) && index < slots.Length && |stack| < slots.Length
      requires Records(ctx.sc)[index].fields.Some? && j < |Records(ctx.sc)[index].fields.value|
      requires var p := PlanOf(ctx, Records(ctx.sc)[index].fields.value[j]);
        p.Nested? && Core(p.logical) == Core(Named(n))
      modifies slots
      ensures Known(ctx, slots[..], stack + [index]) && Decided(old(slots[..]), slots[..])
      ensures BudgetTrue(ctx, Named(n), b)
      decreases slots.Length - |stack|, 0, 0
    {
      hide Known, Distinct, LinkedBy, Judge, PlanOf;
      if |n| >= 256 {
        BuiltInBudget(ctx, n);
        return Over;
      }
      KnownLength(ctx, slots[..], stack + [index]);
      var r := Find(ctx.sc, n);
      if r >= |Records(ctx.sc)| {
        BuiltInBudget(ctx, n);
        if BuiltIn(ctx.sc, n) || n == "uuid" || NativeEnum(ctx.sc, n) { return Within(1, 0, 1); }
        return Over;
      }
      FieldLeads(ctx, index, j);
      var ok := Classify(r, stack + [index]);
      SlotKnown(ctx, slots[..], stack + [index], r);
      var s := slots[r];
      RecordBudget(ctx, n, r, s, ok);
      if !ok || !Owns(ctx, r) || s.depth >= MAX_DEPTH { return Over; }
      return Within(if ctx.lifecycle then s.depth + 1 else s.height, s.depth + 1, if ctx.lifecycle then 1 else s.nodes);
    }

    /** Classifies all records, whatever their order. */
    method ClassifyAll()
      requires Known(ctx, slots[..], [])
      modifies slots
      ensures slots.Length == |Records(ctx.sc)|
      ensures forall i :: 0 <= i < slots.Length ==>
        Classified(ctx, i, slots[i]) && AsTable(ctx, i, slots[i])
    {
      hide AsTable, Judge, LeadsTo, Accepted, Measures;
      var i := 0;
      while i < slots.Length
        invariant 0 <= i <= slots.Length && Known(ctx, slots[..], [])
        invariant forall k :: 0 <= k < i ==> !slots[k].state.Unvisited?
      {
        var ok := Classify(i, []);
        i := i + 1;
      }
      forall i | 0 <= i < slots.Length ensures Classified(ctx, i, slots[i]) && AsTable(ctx, i, slots[i]) {
        SlotKnown(ctx, slots[..], [], i);
        NotVisiting(ctx, slots[..], i);
        TableAgrees(ctx, i, slots[i]);
      }
    }
  }

  /** The memo of a classified record is exactly what the reference says. */
  ghost predicate Classified(ctx: Ctx, i: nat, s: Slot)
    requires i < |Records(ctx.sc)|
  {
    var v := Reference(ctx, i);
    && (s.state.Supported? <==> Accepted(ctx, v))
    && (s.state.Supported? ==> Measures(ctx, v, s.depth, s.height, s.nodes))
    && (s.state.Supported? || s.state.Unsupported?)
  }

  /** A record is supported exactly when the table gives it a descriptor with at most 32 records
      below it, and in the graph pass no larger than the largest size. The memo has its numbers. */
  ghost predicate AsTable(ctx: Ctx, i: nat, s: Slot) {
    && (s.state.Supported? || s.state.Unsupported?)
    && (s.state.Supported? <==>
          exists n: nat, d :: RecordIs(ctx, i, n, d) && n <= MAX_DEPTH && (!ctx.lifecycle ==> Size(d) <= SIZE_MAX))
    && (s.state.Supported? ==>
          forall n: nat, d :: RecordIs(ctx, i, n, d) ==>
            s.depth == n && (!ctx.lifecycle ==> s.height == Height(d) && s.nodes == Size(d)))
  }

  lemma TableAgrees(ctx: Ctx, i: nat, s: Slot)
    requires i < |Records(ctx.sc)| && Classified(ctx, i, s)
    ensures AsTable(ctx, i, s)
  {
    hide RecordIs, Judge;
    var v := Reference(ctx, i);
    if v.Granted? { RecordAgrees(ctx, i, MAX_DEPTH + 1, v.depth, v.desc); }
    forall n: nat, d | RecordIs(ctx, i, n, d)
      ensures n <= MAX_DEPTH ==> v == Granted(n, d)
      ensures v.Granted? ==> v == Granted(n, d)
    {
      RecordAgrees(ctx, i, MAX_DEPTH + 1, n, d);
      if v.Granted? { OneDescriptor(ctx, i, v.depth, v.desc, n, d); }
    }
  }

  /** A record of n projected scalars is supported with no record below it, a descriptor one
      node high, or two for n > 0, and 1 + n nodes. */
  lemma ScalarRecordSupported(ctx: Ctx, i: nat, s: Slot)
    requires i < |Records(ctx.sc)| && Records(ctx.sc)[i].fields.Some? && AsTable(ctx, i, s)
    requires forall j :: 0 <= j < |Records(ctx.sc)[i].fields.value| ==>
      ProjectedScalar(ctx, Records(ctx.sc)[i].fields.value[j])
    ensures var n := |Records(ctx.sc)[i].fields.value|;
      && (s.state.Supported? <==> ctx.lifecycle || 1 + n <= SIZE_MAX)
      && (s.state.Supported? ==>
            s.depth == 0 && (!ctx.lifecycle ==> s.nodes == 1 + n && s.height == if n > 0 then 2 else 1))
  {
    hide RecordIs, Size, Height;
    var n := |Records(ctx.sc)[i].fields.value|;
    ScalarRecordIs(ctx, i);
    LeavesMeasure(n);
    forall m: nat, d | RecordIs(ctx, i, m, d) ensures m == 0 && d == Desc(Leaves(n)) {
      OneDescriptor(ctx, i, 0, Desc(Leaves(n)), m, d);
    }
  }

  lemma NotVisiting(ctx: Ctx, slots: seq<Slot>, i: nat)
    requires Known(ctx, slots, []) && i < |slots| && !slots[i].state.Unvisited?
    ensures i < |Records(ctx.sc)| && Classified(ctx, i, slots[i])
  {
    hide Judge;
  }

  // ---- steps of the search ----------------------------------------------------------------------------------

  lemma NoFields(ctx: Ctx, i: nat)
    requires i < |Records(ctx.sc)| && Records(ctx.sc)[i].fields.None?
    ensures SlotTrue(ctx, i, Slot(Unsupported, 0, 0, 0))
  {
  }

  /** The running totals over the first n fields. */
  ghost predicate SumTrue(ctx: Ctx, fs: seq<FieldNote>, n: nat, depth: nat, height: nat, nodes: nat)
    requires n <= |fs|
  {
    var v := JudgeFields(ctx, fs, n, MAX_DEPTH);
    Accepted(ctx, v) && Measures(ctx, v, depth, height, nodes)
  }

  lemma StartFields(ctx: Ctx, fs: seq<FieldNote>)
    ensures SumTrue(ctx, fs, 0, 0, 1, 1)
  {
  }

  lemma OneMore(ctx: Ctx, fs: seq<FieldNote>, j: nat, r: Outcome, depth: nat, height: nat, nodes: nat)
    requires j < |fs| && SumTrue(ctx, fs, j, depth, height, nodes)
    requires r.Admitted? && OutcomeTrue(ctx, fs[j], r)
    requires !ctx.lifecycle ==> nodes + r.extra + r.nodes <= SIZE_MAX
    ensures if ctx.lifecycle then SumTrue(ctx, fs, j + 1, Max(depth, r.depth), height, nodes)
      else SumTrue(ctx, fs, j + 1, Max(depth, r.depth), Max(height, r.height + 1), nodes + r.extra + r.nodes)
  {
    hide JudgeField, Size, Height;
    Appended(JudgeFields(ctx, fs, j, MAX_DEPTH).desc.parts, JudgeField(ctx, fs[j], MAX_DEPTH).desc);
  }

  /** A field that is rejected, or makes the descriptor too large, decides the record. */
  lemma OneFails(ctx: Ctx, i: nat, fs: seq<FieldNote>, j: nat, r: Outcome, depth: nat, height: nat, nodes: nat)
    requires i < |Records(ctx.sc)| && Records(ctx.sc)[i].fields == Some(fs) && j < |fs|
    requires SumTrue(ctx, fs, j, depth, height, nodes) && OutcomeTrue(ctx, fs[j], r)
    requires r.Rejected? || (!ctx.lifecycle && nodes + r.extra + r.nodes > SIZE_MAX)
    ensures SlotTrue(ctx, i, Slot(Unsupported, 0, 0, 0))
  {
    hide JudgeField, Size, Height;
    var v := Reference(ctx, i);
    if v.Granted? {
      PrefixGranted(ctx, fs, j + 1, |fs|, MAX_DEPTH);
      Appended(JudgeFields(ctx, fs, j, MAX_DEPTH).desc.parts, JudgeField(ctx, fs[j], MAX_DEPTH).desc);
    }
  }

  lemma AllFields(ctx: Ctx, i: nat, fs: seq<FieldNote>, depth: nat, height: nat, nodes: nat)
    requires i < |Records(ctx.sc)| && Records(ctx.sc)[i].fields == Some(fs)
    requires SumTrue(ctx, fs, |fs|, depth, height, nodes)
    ensures SlotTrue(ctx, i, Slot(Supported, depth, height, nodes))
  {
  }

  lemma FieldLeads(ctx: Ctx, i: nat, j: nat)
    requires i < |Records(ctx.sc)| && Records(ctx.sc)[i].fields.Some? && j < |Records(ctx.sc)[i].fields.value|
    ensures var t := Target(ctx, Records(ctx.sc)[i].fields.value[j]); t < |Records(ctx.sc)| ==> LeadsTo(ctx, i, t)
  {
  }

  lemma KnownLength(ctx: Ctx, slots: seq<Slot>, stack: seq<nat>)
    requires Known(ctx, slots, stack)
    ensures |slots| == |Records(ctx.sc)|
  {
  }

  lemma SlotKnown(ctx: Ctx, slots: seq<Slot>, stack: seq<nat>, t: nat)
    requires Known(ctx, slots, stack) && t < |slots|
    ensures |slots| == |Records(ctx.sc)| && SlotTrue(ctx, t, slots[t])
  {
  }

  predicate TooHigh(w: Wrap, height: nat) {
    if w.Bare? then height >= SIZE_MAX else height > SIZE_MAX - 2
  }

  /** The guards against wrap-around of descriptor heights never fire. */
  lemma NeverTooHigh(ctx: Ctx, t: nat, w: Wrap, s: Slot)
    requires t < |Records(ctx.sc)| && s.state.Supported? && SlotTrue(ctx, t, s)
    ensures !ctx.lifecycle ==> !TooHigh(w, s.height)
  {
    hide Judge;
    if !ctx.lifecycle {
      HeightBound(ctx, t, MAX_DEPTH + 1);
      FuelEnough(ctx, t, MAX_DEPTH + 1, Reference(ctx, t).depth + 1);
    }
  }

  lemma RefRejected(ctx: Ctx, f: FieldNote, t: nat, w: Wrap, owning: bool)
    requires PlanOf(ctx, f) == Ref(t, w, owning)
    requires !Accepted(ctx, Judge(ctx, t, MAX_DEPTH)) || (owning && !Owns(ctx, t))
    ensures OutcomeTrue(ctx, f, Rejected)
  {
    hide PlanOf, Judge;
    var v := Judge(ctx, t, MAX_DEPTH);
    if v.Granted? { WrappedMeasures(w, v.desc); }
  }

  lemma RefAdmitted(ctx: Ctx, f: FieldNote, t: nat, w: Wrap, owning: bool, s: Slot)
    requires PlanOf(ctx, f) == Ref(t, w, owning) && (owning ==> Owns(ctx, t))
    requires var v := Judge(ctx, t, MAX_DEPTH); v.Granted? && Measures(ctx, v, s.depth, s.height, s.nodes)
    ensures OutcomeTrue(ctx, f,
      Admitted(s.depth + 1, if w.Bare? then s.height else s.height + 1, Extra(w), s.nodes))
  {
    hide PlanOf, Judge;
    WrappedMeasures(w, Judge(ctx, t, MAX_DEPTH).desc);
  }

  lemma LeafMeasures()
    ensures Size(LEAF) == 1 && Height(LEAF) == 1
  {
  }

  lemma NestedOutcome(ctx: Ctx, f: FieldNote, t: TypeExpr, b: Budget)
    requires PlanOf(ctx, f) == Nested(t) && BudgetTrue(ctx, t, b)
    ensures OutcomeTrue(ctx, f,
      if b.Over? || b.depth >= MAX_DEPTH then Rejected else Admitted(b.records, b.depth, 0, b.nodes))
  {
    hide PlanOf, JudgeNested;
    if b.Within? && !ctx.lifecycle { NestedHeight(ctx, t, MAX_DEPTH); }
  }

  /** One more container around a generic type. */
  lemma DeeperBudget(ctx: Ctx, t: TypeExpr, w: Wrap, arg: TypeExpr, b: Budget)
    requires t.Apply? && BudgetTrue(ctx, arg, b)
    requires (w.InSequence? && t.ctor == ListOf && t.args == [arg]) ||
             (w.InMap? && t.ctor == MapOf && t.args == [Named("string"), arg])
    ensures BudgetTrue(ctx, t,
      if b.Over? || b.depth >= MAX_DEPTH || b.nodes > SIZE_MAX - Extra(w) then Over
      else Within(b.depth + 1, b.records, b.nodes + Extra(w)))
  {
    var v := JudgeNested(ctx, arg, MAX_DEPTH);
    assert JudgeNested(ctx, t, MAX_DEPTH) == Deeper(w, v);
    hide JudgeNested;
    if v.Fit? { WrappedMeasures(w, v.desc); }
  }

  lemma BuiltInBudget(ctx: Ctx, n: string)
    requires |n| >= 256 || Find(ctx.sc, n) == |Records(ctx.sc)|
    ensures var plain := |n| < 256 && (BuiltIn(ctx.sc, n) || n == "uuid" || NativeEnum(ctx.sc, n));
      BudgetTrue(ctx, Named(n), if plain then Within(1, 0, 1) else Over)
  {
    LeafMeasures();
    assert JudgeNested(ctx, Named(n), MAX_DEPTH) == JudgeName(ctx, n, MAX_DEPTH);
  }

  lemma RecordBudget(ctx: Ctx, n: string, r: nat, s: Slot, ok: bool)
    requires |n| < 256 && r == Find(ctx.sc, n) < |Records(ctx.sc)|
    requires SlotTrue(ctx, r, s) && ok == s.state.Supported? && (!ok ==> !Accepted(ctx, Reference(ctx, r)))
    ensures BudgetTrue(ctx, Named(n),
      if !ok || !Owns(ctx, r) || s.depth >= MAX_DEPTH then Over
      else Within(if ctx.lifecycle then s.depth + 1 else s.height, s.depth + 1, if ctx.lifecycle then 1 else s.nodes))
  {
    LookedUp(ctx, r);
    assert JudgeNested(ctx, Named(n), MAX_DEPTH) == JudgeName(ctx, n, MAX_DEPTH);
    hide Judge, JudgeNested;
  }

  // ---- what the reference means ---------------------------------------------------------------------------

  /** Fuel 33 is the depth limit 32 and nothing else: with any other fuel that grants the
      record, it is granted here exactly when its longest chain is at most 32 long. */
  lemma DepthLimit(ctx: Ctx, i: nat, f: nat)
    requires i < |Records(ctx.sc)| && Judge(ctx, i, f).Granted?
    ensures Reference(ctx, i).Granted? <==> Judge(ctx, i, f).depth <= MAX_DEPTH
    ensures Reference(ctx, i).Granted? ==> Reference(ctx, i) == Judge(ctx, i, f)
  {
    var v := Reference(ctx, i);
    if Judge(ctx, i, f).depth <= MAX_DEPTH {
      FuelEnough(ctx, i, f, MAX_DEPTH + 1);
    } else if v.Granted? {
      FuelEnough(ctx, i, MAX_DEPTH + 1, v.depth + 1);
      FuelEnough(ctx, i, MAX_DEPTH + 1, Judge(ctx, i, f).depth + 1);
      FuelEnough(ctx, i, f, Judge(ctx, i, f).depth + 1);
    }
  }

  /** A field of positive depth leads to a record one less deep. */
  lemma {:induction false} DeepField(ctx: Ctx, fs: seq<FieldNote>, n: nat, f: nat) returns (j: nat)
    requires n <= |fs| && JudgeFields(ctx, fs, n, f).Granted? && JudgeFields(ctx, fs, n, f).depth > 0
    ensures j < n && JudgeField(ctx, fs[j], f).Granted?
    ensures JudgeField(ctx, fs[j], f).depth == JudgeFields(ctx, fs, n, f).depth
    decreases n
  {
    if JudgeField(ctx, fs[n - 1], f).depth == JudgeFields(ctx, fs, n, f).depth { j := n - 1; }
    else { j := DeepField(ctx, fs, n - 1, f); }
  }

  lemma {:induction false} NestedRecord(ctx: Ctx, t: TypeExpr, f: nat)
    requires JudgeNested(ctx, t, f).Fit? && JudgeNested(ctx, t, f).records > 0
    ensures Core(t).Some? && Find(ctx.sc, Core(t).value) < |Records(ctx.sc)|
    decreases t
  {
    if t.Apply? { NestedRecord(ctx, t.args[if t.ctor == ListOf then 0 else 1], f); }
  }

  lemma DeepTarget(ctx: Ctx, x: FieldNote, f: nat)
    requires JudgeField(ctx, x, f).Granted? && JudgeField(ctx, x, f).depth > 0
    ensures Target(ctx, x) < |Records(ctx.sc)|
  {
    hide PlanOf;
    match PlanOf(ctx, x)
    case Nested(t) => NestedRecord(ctx, t, f);
    case Ref(t, _, _) => PlanTarget(ctx, x);
    case _ =>
  }

  lemma PlanTarget(ctx: Ctx, x: FieldNote)
    ensures PlanOf(ctx, x).Ref? ==> PlanOf(ctx, x).target < |Records(ctx.sc)|
  {
  }

  /** The depth of a granted record is attained by a chain of records. */
  lemma {:induction false} DeepestChain(ctx: Ctx, i: nat, f: nat) returns (p: seq<nat>)
    requires i < |Records(ctx.sc)| && Judge(ctx, i, f).Granted?
    ensures LinkedBy(ctx, p) && |p| == Judge(ctx, i, f).depth + 1 && p[0] == i
    decreases f
  {
    if Judge(ctx, i, f).depth == 0 { p := [i]; } else {
      var fs := Records(ctx.sc)[i].fields.value;
      var j := DeepField(ctx, fs, |fs|, f - 1);
      DeepTarget(ctx, fs[j], f - 1);
      FieldTarget(ctx, fs[j], f - 1);
      var t := Target(ctx, fs[j]);
      var q := DeepestChain(ctx, t, f - 1);
      assert LeadsTo(ctx, i, t);
      p := [i] + q;
    }
  }

  /** The published depth is the length of the longest chain of records, at most 32. */
  lemma LongestChain(ctx: Ctx, i: nat)
    requires i < |Records(ctx.sc)| && Reference(ctx, i).Granted?
    ensures Reference(ctx, i).depth <= MAX_DEPTH
    ensures exists p :: LinkedBy(ctx, p) && |p| == Reference(ctx, i).depth + 1 && p[0] == i
    ensures forall p :: LinkedBy(ctx, p) && |p| > 0 && p[0] == i ==> |p| <= Reference(ctx, i).depth + 1
  {
    hide LinkedBy, Judge;
    FuelEnough(ctx, i, MAX_DEPTH + 1, Reference(ctx, i).depth + 1);
    var p := DeepestChain(ctx, i, MAX_DEPTH + 1);
    forall p | LinkedBy(ctx, p) && |p| > 0 && p[0] == i ensures |p| <= Reference(ctx, i).depth + 1 {
      var g := ChainDescends(ctx, p, MAX_DEPTH + 1);
    }
  }

  // ---- support without fuel ----------------------------------------------------------------------------------

  /** A field that is refused although the record it leads to, if any, is granted. */
  ghost predicate BadField(ctx: Ctx, x: FieldNote, g: nat) {
    JudgeField(ctx, x, g).Refused? &&
    (Target(ctx, x) < |Records(ctx.sc)| ==> Judge(ctx, Target(ctx, x), g).Granted?)
  }

  /** A record without a field list, or with a field that is bad in itself. */
  ghost predicate Inadmissible(ctx: Ctx, i: nat) {
    i < |Records(ctx.sc)| &&
    (Records(ctx.sc)[i].fields.None? ||
     exists j, g :: 0 <= j < |Records(ctx.sc)[i].fields.value| && BadField(ctx, Records(ctx.sc)[i].fields.value[j], g))
  }

  /** A chain from record i that comes back to one of its records or ends at an inadmissible one. */
  ghost predicate FlawedChain(ctx: Ctx, i: nat, p: seq<nat>) {
    LinkedBy(ctx, p) && |p| > 0 && p[0] == i && (!Distinct(p) || Inadmissible(ctx, p[|p| - 1]))
  }

  lemma {:induction false} RefusedField(ctx: Ctx, fs: seq<FieldNote>, n: nat, f: nat) returns (j: nat)
    requires n <= |fs| && JudgeFields(ctx, fs, n, f).Refused?
    ensures j < n && JudgeField(ctx, fs[j], f).Refused?
    decreases n
  {
    if JudgeField(ctx, fs[n - 1], f).Refused? { j := n - 1; } else { j := RefusedField(ctx, fs, n - 1, f); }
  }

  /** Why a record is refused: a chain as long as the fuel, or one that ends badly. */
  lemma {:induction false} RefusedWhy(ctx: Ctx, i: nat, f: nat) returns (p: seq<nat>)
    requires i < |Records(ctx.sc)| && Judge(ctx, i, f).Refused?
    ensures LinkedBy(ctx, p) && |p| > 0 && p[0] == i
    ensures |p| == f + 1 || Inadmissible(ctx, p[|p| - 1])
    decreases f
  {
    hide JudgeField, JudgeFields, Target;
    p := [i];
    if f > 0 && Records(ctx.sc)[i].fields.Some? {
      var fs := Records(ctx.sc)[i].fields.value;
      var j := RefusedField(ctx, fs, |fs|, f - 1);
      var t := Target(ctx, fs[j]);
      if t < |Records(ctx.sc)| && Judge(ctx, t, f - 1).Refused? {
        var q := RefusedWhy(ctx, t, f - 1);
        assert LeadsTo(ctx, i, t);
        p := [i] + q;
      } else {
        assert BadField(ctx, fs[j], f - 1);
      }
    }
  }

  /** A granted record is admissible. */
  lemma GrantedAdmissible(ctx: Ctx, i: nat, f: nat)
    requires i < |Records(ctx.sc)| && Judge(ctx, i, f).Granted?
    ensures !Inadmissible(ctx, i)
  {
    hide JudgeField, PlanOf, Target;
    var fs := Records(ctx.sc)[i].fields.value;
    forall j, g: nat | 0 <= j < |fs| ensures !BadField(ctx, fs[j], g) {
      PrefixGranted(ctx, fs, j + 1, |fs|, f - 1);
      NotBad(ctx, fs[j], f - 1, g);
    }
  }

  lemma NotBad(ctx: Ctx, x: FieldNote, f: nat, g: nat)
    requires JudgeField(ctx, x, f).Granted?
    ensures !BadField(ctx, x, g)
  {
    hide PlanOf, JudgeField, Judge, Target;
    var t := Target(ctx, x);
    if t < |Records(ctx.sc)| {
      FieldTarget(ctx, x, f);
      if Judge(ctx, t, g).Granted? {
        FuelEnough(ctx, t, g, Judge(ctx, t, g).depth + 1);
        FuelEnough(ctx, t, g, Judge(ctx, t, f).depth + Judge(ctx, t, g).depth + 1);
        FuelEnough(ctx, t, f, Judge(ctx, t, f).depth + Judge(ctx, t, g).depth + 1);
        FieldEnough(ctx, x, f, g);
      }
    } else {
      if JudgeField(ctx, x, f).depth > 0 { DeepTarget(ctx, x, f); }
      FieldEnough(ctx, x, f, g);
    }
  }

  /** A granted record has no flawed chain. */
  lemma GrantedSound(ctx: Ctx, i: nat, f: nat, p: seq<nat>)
    requires i < |Records(ctx.sc)| && Judge(ctx, i, f).Granted?
    ensures !FlawedChain(ctx, i, p)
  {
    hide Judge, Inadmissible;
    if FlawedChain(ctx, i, p) {
      if Distinct(p) {
        var g := ChainDescends(ctx, p, f);
        GrantedAdmissible(ctx, p[|p| - 1], g);
      } else {
        var a, b :| 0 <= a < b < |p| && p[a] == p[b];
        var q := p[..b + 1];
        assert q[|q| - 1] == q[..|q| - 1][a];
        CycleRefused(ctx, q, f);
      }
    }
  }

  /** The reference grants a record exactly when no chain from it runs in a circle or ends at
      an inadmissible record, and every chain from it has at most 33 records. */
  lemma ExactSupport(ctx: Ctx, i: nat)
    requires i < |Records(ctx.sc)|
    ensures Reference(ctx, i).Granted? <==>
      && (forall p :: !FlawedChain(ctx, i, p))
      && (forall p :: LinkedBy(ctx, p) && |p| > 0 && p[0] == i ==> |p| <= MAX_DEPTH + 1)
  {
    hide Judge, Inadmissible, LinkedBy, Distinct;
    if Reference(ctx, i).Granted? {
      LongestChain(ctx, i);
      forall p ensures !FlawedChain(ctx, i, p) { GrantedSound(ctx, i, MAX_DEPTH + 1, p); }
    } else if forall p :: !FlawedChain(ctx, i, p) {
      var f := |Records(ctx.sc)| + 1;
      UnflawedGranted(ctx, i);
      var p := DeepestChain(ctx, i, f);
      DepthLimit(ctx, i, f);
    }
  }

  lemma UnflawedGranted(ctx: Ctx, i: nat)
    requires i < |Records(ctx.sc)| && forall p :: !FlawedChain(ctx, i, p)
    ensures Judge(ctx, i, |Records(ctx.sc)| + 1).Granted?
  {
    hide Judge, Inadmissible;
    var f := |Records(ctx.sc)| + 1;
    if Judge(ctx, i, f).Refused? {
      var p := RefusedWhy(ctx, i, f);
      assert LinkedBy(ctx, p) && !FlawedChain(ctx, i, p);
      DistinctBelow(p, |Records(ctx.sc)|);
      assert false;
    }
  }
}
