/** The two closure loops that decide which records get generated init and clear code. */
module Lifecycles {
  import opened Wrappers
  import opened RecordOrder
  import opened Schemas

  // ---- least fixpoints -------------------------------------------------------------------------

  /** admits(marks, i): record i qualifies when exactly the records in marks already do. */
  type Rule = (set<nat>, nat) -> bool

  ghost predicate Monotone(admits: Rule) {
    forall a: set<nat>, b: set<nat>, i: nat :: a <= b && admits(a, i) ==> admits(b, i)
  }

  /** Nothing from first up to n qualifies that is not marked. */
  ghost predicate Closed(first: nat, n: nat, admits: Rule, marks: set<nat>) {
    forall i: nat :: first <= i < n && admits(marks, i) ==> i in marks
  }

  /** The smallest closed set of marks. */
  ghost predicate Least(first: nat, n: nat, admits: Rule, marks: set<nat>) {
    && Closed(first, n, admits, marks)
    && forall x: set<nat> :: Closed(first, n, admits, x) ==> marks <= x
  }

  /** Passes over the records until a pass changes nothing. */
  method Close(first: nat, n: nat, admits: Rule) returns (marks: set<nat>, passes: nat)
    requires first <= n && Monotone(admits)
    ensures Least(first, n, admits, marks)
    ensures passes <= n - first + 1
  {
    marks, passes := {}, 0;
    var changed := true;
    ghost var room := Range(first, n);
    while changed
      invariant marks <= room && |room| == n - first
      invariant forall x: set<nat> :: Closed(first, n, admits, x) ==> marks <= x
      invariant !changed ==> Closed(first, n, admits, marks)
      invariant passes <= |marks| + if changed then 0 else 1
      decreases n - first - |marks|, changed
    {
      Fits(marks, room);
      var before := marks;
      marks := OnePass(first, n, admits, before);
      changed := marks != before;
      passes := passes + 1;
      if changed { Grows(before, marks); }
      Fits(marks, room);
    }
    Fits(marks, room);
  }

  /** One pass: marks every record that qualifies at the moment it is looked at. */
  method OnePass(first: nat, n: nat, admits: Rule, before: set<nat>) returns (marks: set<nat>)
    requires first <= n && Monotone(admits)
    requires forall x: set<nat> :: Closed(first, n, admits, x) ==> before <= x
    ensures before <= marks
    ensures forall i :: i in marks && i !in before ==> first <= i < n
    ensures forall x: set<nat> :: Closed(first, n, admits, x) ==> marks <= x
    ensures marks == before ==> Closed(first, n, admits, marks)
  {
    marks := before;
    var i := first;
    while i < n
      invariant first <= i <= n && before <= marks
      invariant forall k :: k in marks && k !in before ==> first <= k < n
      invariant forall x: set<nat> :: Closed(first, n, admits, x) ==> marks <= x
      invariant marks == before ==> forall k: nat :: first <= k < i && admits(before, k) ==> k in before
    {
      if i !in marks && admits(marks, i) { marks := marks + {i}; }
      i := i + 1;
    }
  }

  lemma {:induction false} Range(first: nat, n: nat) returns (s: set<nat>)
    requires first <= n
    ensures |s| == n - first && forall i :: i in s <==> first <= i < n
    decreases n
  {
    if first == n { s := {}; } else {
      var r := Range(first, n - 1);
      s := r + {n - 1};
    }
  }

  lemma {:induction false} Fits(a: set<nat>, b: set<nat>)
    requires a <= b
    ensures |a| <= |b|
  {
    if a != {} {
      var x :| x in a;
      Fits(a - {x}, b - {x});
    }
  }

  lemma Grows(a: set<nat>, b: set<nat>)
    requires a <= b && a != b
    ensures |a| < |b|
  {
    var x :| x in b && x !in a;
    Fits(a, b - {x});
  }

  /** The result does not depend on the visiting order: there is only one least set. */
  lemma OnlyOneLeast(first: nat, n: nat, admits: Rule, a: set<nat>, b: set<nat>)
    requires Least(first, n, admits, a) && Least(first, n, admits, b)
    ensures a == b
  {
  }

  /** The least set is a fixpoint: a record is marked exactly when it qualifies by the marks. */
  lemma LeastIsFixpoint(first: nat, n: nat, admits: Rule, marks: set<nat>, i: nat)
    requires Monotone(admits) && Least(first, n, admits, marks)
    ensures i in marks <==> first <= i < n && admits(marks, i)
  {
    if i in marks && !(first <= i < n && admits(marks, i)) {
      var rest := marks - {i};
      assert rest <= marks;
      assert Closed(first, n, admits, rest);
      assert false;
    }
  }

  /** Records that qualify only with one another's help are never marked. */
  lemma NoSelfSupport(first: nat, n: nat, admits: Rule, marks: set<nat>, circle: set<nat>)
    requires first <= n && Monotone(admits) && Least(first, n, admits, marks)
    requires forall i: nat :: i in circle && first <= i < n ==> !admits(marks - circle, i)
    ensures marks * circle == {}
  {
    var rest := marks - circle;
    assert Closed(first, n, admits, rest) by {
      forall i: nat | first <= i < n && admits(rest, i) ensures i in rest {
        assert admits(marks, i);
      }
    }
  }

  // ---- local overlay lifecycle --------------------------------------------------------------------

  /** What the earlier classification passes have found out. */
  datatype Support = Support(graph: set<nat>, lifecycle: set<nat>)

  predicate Is(a: Option<string>, b: string) { a == Some(b) }

  /** Storage that the field owns by itself. */
  predicate OwnedStorage(f: FieldNote) {
    && f.typ.Some? && f.requirement.Some? && f.nativeData.Some?
    && f.requirement.value in {"owned_lifecycle", "overlay_presence", "overlay_null", "overlay_presence_null"}
    && ((Is(f.typ, "string") && Is(f.nativeData, "cmeta_tstr_cmeta_data")) ||
        (Is(f.typ, "bytes") && Is(f.nativeData, "stl_byte_buffer_cmeta_data")))
  }

  predicate FieldOverlay(sc: Schema, su: Support, marks: set<nat>, f: FieldNote) {
    var bound := f.nativeData.Some? && f.nativeType.Some?;
    var ownedGroup := f.isGroup && f.cstlSequence && bound;
    var fixedArray := f.fixedArray && bound;
    && f.typ.Some?
    && (f.isCollection ==> fixedArray)
    && (f.isGroup ==> ownedGroup)
    && (|| IsScalar(sc, f.typ.value)
        || OwnedStorage(f)
        || (Is(f.typ, "bytes") && f.isFixedSize && f.fixedBytes && bound)
        || NamesOneOf(sc, f.typ, su.lifecycle)
        || NamesOneOf(sc, f.typ, marks)
        || (NativeEnum(sc, f.typ.value) && bound)
        || (Is(f.typ, "uuid") && Is(f.nativeData, "cmeta_uuid_cmeta_data") && Is(f.nativeType, "cmeta_uuid_cmeta_type"))
        || ownedGroup
        || fixedArray)
  }

  /** The field carries presence state, directly or in a nested overlay record. */
  predicate HasState(sc: Schema, marks: set<nat>, f: FieldNote) {
    f.isOptional || f.isNullable || NamesOneOf(sc, f.typ, marks)
  }

  /** A field that is neither a collection nor a group, by what it holds. */
  lemma OverlayOfPlain(sc: Schema, su: Support, marks: set<nat>, f: FieldNote)
    requires f.typ.Some? && !f.isCollection && !f.isGroup && !f.fixedArray
    ensures IsScalar(sc, f.typ.value) ==> FieldOverlay(sc, su, marks, f)
    ensures (!IsScalar(sc, f.typ.value) && f.typ.value !in {"string", "bytes", "uuid"}) ==>
      (FieldOverlay(sc, su, marks, f) <==>
        ((NamesRecord(sc, f.typ) && Find(sc, f.typ.value) in su.lifecycle + marks) ||
         (NativeEnum(sc, f.typ.value) && f.nativeData.Some? && f.nativeType.Some?)))
  {
  }

  /** A collection needs a bound fixed array, a group a bound sequence. */
  lemma OverlayOfContainer(sc: Schema, su: Support, marks: set<nat>, f: FieldNote)
    requires f.isCollection != f.isGroup && f.typ.Some? && (f.isGroup ==> !f.fixedArray)
    ensures FieldOverlay(sc, su, marks, f) <==>
      f.nativeData.Some? && f.nativeType.Some? && if f.isGroup then f.cstlSequence else f.fixedArray
  {
  }

  function OverlayAdmits(sc: Schema, su: Support, marks: set<nat>, i: nat): bool {
    && i < |Records(sc)| && i in su.graph && i !in su.lifecycle && Records(sc)[i].fields.Some?
    && var fs := Records(sc)[i].fields.value;
       (forall j :: 0 <= j < |fs| ==> FieldOverlay(sc, su, marks, fs[j])) &&
       exists j :: 0 <= j < |fs| && HasState(sc, marks, fs[j])
  }

  function OverlayRule(sc: Schema, su: Support): Rule {
    (marks: set<nat>, i: nat) => OverlayAdmits(sc, su, marks, i)
  }

  lemma OverlayMonotone(sc: Schema, su: Support)
    ensures Monotone(OverlayRule(sc, su))
  {
    forall a: set<nat>, b: set<nat>, i: nat | a <= b && OverlayAdmits(sc, su, a, i)
      ensures OverlayAdmits(sc, su, b, i)
    {
      var fs := Records(sc)[i].fields.value;
      var j :| 0 <= j < |fs| && HasState(sc, a, fs[j]);
      assert HasState(sc, b, fs[j]);
      forall k | 0 <= k < |fs| ensures FieldOverlay(sc, su, b, fs[k]) {
        assert FieldOverlay(sc, su, a, fs[k]);
      }
    }
  }

  /** Messages whose presence state allows only local init and clear. */
  method AnnotateLocalOverlay(sc: Schema, su: Support) returns (marks: set<nat>, passes: nat)
    ensures Least(|sc.composites| + |sc.groups|, |Records(sc)|, OverlayRule(sc, su), marks)
    ensures passes <= |sc.messages| + 1
    ensures forall i: nat :: i in marks <==>
      |sc.composites| + |sc.groups| <= i < |Records(sc)| && OverlayAdmits(sc, su, marks, i)
  {
    OverlayMonotone(sc, su);
    marks, passes := Close(|sc.composites| + |sc.groups|, |Records(sc)|, OverlayRule(sc, su));
    forall i: nat {
      LeastIsFixpoint(|sc.composites| + |sc.groups|, |Records(sc)|, OverlayRule(sc, su), marks, i);
    }
  }

  /** A message that the graph pass alone supports, with a scalar in every field and one of them
      optional, gets an overlay lifecycle, and so does a message that adds a field of that type. */
  lemma OptionalScalars(sc: Schema, su: Support, marks: set<nat>, i: nat)
    requires Least(|sc.composites| + |sc.groups|, |Records(sc)|, OverlayRule(sc, su), marks)
    requires |sc.composites| + |sc.groups| <= i < |Records(sc)| && Records(sc)[i].fields.Some?
    requires i in su.graph && i !in su.lifecycle
    requires var fs := Records(sc)[i].fields.value;
      && (forall j :: 0 <= j < |fs| ==>
            fs[j].typ.Some? && !fs[j].isCollection && !fs[j].isGroup &&
            (IsScalar(sc, fs[j].typ.value) || NamesOneOf(sc, fs[j].typ, marks)))
      && exists j :: 0 <= j < |fs| && fs[j].isOptional
    ensures i in marks
  {
    OverlayMonotone(sc, su);
    var fs := Records(sc)[i].fields.value;
    var j :| 0 <= j < |fs| && fs[j].isOptional;
    assert HasState(sc, marks, fs[j]);
    assert OverlayAdmits(sc, su, marks, i);
    LeastIsFixpoint(|sc.composites| + |sc.groups|, |Records(sc)|, OverlayRule(sc, su), marks, i);
  }

  // ---- member lifecycle -----------------------------------------------------------------------------

  /** The innermost element of a nested generic owns its values. */
  predicate GenericLifecycle(sc: Schema, su: Support, t: TypeExpr) {
    match t
    case Missing => false
    case Malformed => false
    case Named(n) =>
      if |n| >= 256 then false
      else if Find(sc, n) < |Records(sc)| then Find(sc, n) in su.lifecycle
      else ScalarData(sc, n) || n == "string" || n == "uuid"
    case Apply(c, args) =>
      if c == ListOf && |args| == 1 then GenericLifecycle(sc, su, args[0])
      else c == MapOf && |args| == 2 && args[0] == Named("string") && GenericLifecycle(sc, su, args[1])
  }

  predicate FixedStorageOk(sc: Schema, su: Support, f: FieldNote) {
    (f.fixedArray || f.fixedBytes ==> f.fixedCount.Some? && f.fixedCount.value != 0) &&
    (f.fixedArray ==>
       && f.inner.Some? && f.elementType && f.elementData
       && (NamesRecord(sc, f.inner) ==> NamesOneOf(sc, f.inner, su.lifecycle)))
  }

  predicate FieldMember(sc: Schema, su: Support, overlay: set<nat>, marks: set<nat>, f: FieldNote) {
    var bound := f.nativeData.Some? && f.nativeType.Some?;
    && f.typ.Some?
    && (f.nestedGeneric ==> GenericLifecycle(sc, su, f.logical))
    && FixedStorageOk(sc, su, f)
    && if f.cstlSequence || f.cstlSet || f.cstlMap || f.fixedArray then bound
       else if f.isCollection || f.isGroup then false
       else if NamesRecord(sc, f.typ) then
         NamesOneOf(sc, f.typ, su.lifecycle) || NamesOneOf(sc, f.typ, overlay) || NamesOneOf(sc, f.typ, marks)
       else
         bound &&
         (IsScalar(sc, f.typ.value) || NativeEnum(sc, f.typ.value) || Is(f.typ, "string") || Is(f.typ, "uuid") ||
          (Is(f.typ, "bytes") && (f.isFixedSize ==> f.fixedBytes)))
  }

  /** A field without nested generics and fixed storage, by what it holds. */
  lemma MemberOfPlain(sc: Schema, su: Support, overlay: set<nat>, marks: set<nat>, f: FieldNote)
    requires f.typ.Some? && !f.nestedGeneric && !f.fixedArray && !f.fixedBytes
    ensures
      var bound, t, i := f.nativeData.Some? && f.nativeType.Some?, f.typ.value, Find(sc, f.typ.value);
      var provided := f.cstlSequence || f.cstlSet || f.cstlMap;
      var named := i < |Records(sc)|;
      FieldMember(sc, su, overlay, marks, f) <==>
        ((provided && bound) ||
         (!provided && !f.isCollection && !f.isGroup && named && i in su.lifecycle + overlay + marks) ||
         (!provided && !f.isCollection && !f.isGroup && !named && bound &&
          (t in sc.scalars || (t in sc.native && sc.native[t]) || t == "string" || t == "uuid" ||
           (t == "bytes" && !f.isFixedSize))))
  {
  }

  /** A fixed array of bound elements with a count, whose element owns its values. */
  lemma MemberOfFixedArray(sc: Schema, su: Support, overlay: set<nat>, marks: set<nat>, f: FieldNote)
    requires f.typ.Some? && !f.nestedGeneric && f.fixedArray
    ensures FieldMember(sc, su, overlay, marks, f) <==>
      && f.nativeData.Some? && f.nativeType.Some? && f.fixedCount.Some? && f.fixedCount.value > 0
      && f.elementType && f.elementData && f.inner.Some?
      && (Find(sc, f.inner.value) < |Records(sc)| ==> Find(sc, f.inner.value) in su.lifecycle)
  {
  }

  /** The field needs generated calls even though the record's graph is published. */
  predicate NeedsMember(sc: Schema, marks: set<nat>, f: FieldNote) {
    f.fixedBytes || f.fixedArray || NamesOneOf(sc, f.typ, marks)
  }

  function MemberAdmits(sc: Schema, su: Support, overlay: set<nat>, marks: set<nat>, i: nat): bool {
    && i < |Records(sc)| && Records(sc)[i].fields.Some?
    && var fs := Records(sc)[i].fields.value;
       (i in su.graph ==> exists j :: 0 <= j < |fs| && NeedsMember(sc, marks, fs[j])) &&
       forall j :: 0 <= j < |fs| ==> FieldMember(sc, su, overlay, marks, fs[j])
  }

  function MemberRule(sc: Schema, su: Support, overlay: set<nat>): Rule {
    (marks: set<nat>, i: nat) => MemberAdmits(sc, su, overlay, marks, i)
  }

  lemma MemberMonotone(sc: Schema, su: Support, overlay: set<nat>)
    ensures Monotone(MemberRule(sc, su, overlay))
  {
    forall a: set<nat>, b: set<nat>, i: nat | a <= b && MemberAdmits(sc, su, overlay, a, i)
      ensures MemberAdmits(sc, su, overlay, b, i)
    {
      var fs := Records(sc)[i].fields.value;
      if i in su.graph {
        var j :| 0 <= j < |fs| && NeedsMember(sc, a, fs[j]);
        assert NeedsMember(sc, b, fs[j]);
      }
      forall k | 0 <= k < |fs| ensures FieldMember(sc, su, overlay, b, fs[k]) {
        assert FieldMember(sc, su, overlay, a, fs[k]);
      }
    }
  }

  /** Records that get init and clear code calling into their members. */
  method AnnotateMember(sc: Schema, su: Support, overlay: set<nat>) returns (marks: set<nat>, passes: nat)
    ensures Least(0, |Records(sc)|, MemberRule(sc, su, overlay), marks)
    ensures passes <= |Records(sc)| + 1
    ensures forall i: nat :: i in marks <==> i < |Records(sc)| && MemberAdmits(sc, su, overlay, marks, i)
  {
    MemberMonotone(sc, su, overlay);
    marks, passes := Close(0, |Records(sc)|, MemberRule(sc, su, overlay));
    forall i: nat { LeastIsFixpoint(0, |Records(sc)|, MemberRule(sc, su, overlay), marks, i); }
  }

  /** A record that the graph pass does not support and that holds bound scalars, and records
      already marked, gets a member lifecycle. */
  lemma BoundScalars(sc: Schema, su: Support, overlay: set<nat>, marks: set<nat>, i: nat)
    requires Least(0, |Records(sc)|, MemberRule(sc, su, overlay), marks)
    requires i < |Records(sc)| && Records(sc)[i].fields.Some? && i !in su.graph
    requires forall j :: 0 <= j < |Records(sc)[i].fields.value| ==>
      var f := Records(sc)[i].fields.value[j];
      && f.typ.Some? && !f.nestedGeneric && !f.fixedArray && !f.fixedBytes && !f.isCollection && !f.isGroup
      && !f.cstlSequence && !f.cstlSet && !f.cstlMap
      && if Find(sc, f.typ.value) < |Records(sc)| then Find(sc, f.typ.value) in marks
         else f.typ.value in sc.scalars && f.nativeData.Some? && f.nativeType.Some?
    ensures i in marks
  {
    MemberMonotone(sc, su, overlay);
    var fs := Records(sc)[i].fields.value;
    forall j | 0 <= j < |fs| ensures FieldMember(sc, su, overlay, marks, fs[j]) {
      MemberOfPlain(sc, su, overlay, marks, fs[j]);
    }
    LeastIsFixpoint(0, |Records(sc)|, MemberRule(sc, su, overlay), marks, i);
  }

  /** A field that can only be admitted through a member lifecycle of a record in the circle. */
  predicate LeansOn(sc: Schema, su: Support, overlay: set<nat>, circle: set<nat>, f: FieldNote) {
    && !f.cstlSequence && !f.cstlSet && !f.cstlMap && !f.fixedArray
    && NamesOneOf(sc, f.typ, circle) && !NamesOneOf(sc, f.typ, su.lifecycle) && !NamesOneOf(sc, f.typ, overlay)
  }

  /** Records that hold one another in a circle never acquire a member lifecycle. */
  lemma NoMemberCircle(sc: Schema, su: Support, overlay: set<nat>, marks: set<nat>, circle: set<nat>)
    requires Least(0, |Records(sc)|, MemberRule(sc, su, overlay), marks)
    requires forall i: nat :: i in circle && i < |Records(sc)| && Records(sc)[i].fields.Some? ==>
      exists j :: 0 <= j < |Records(sc)[i].fields.value| &&
                  LeansOn(sc, su, overlay, circle, Records(sc)[i].fields.value[j])
    ensures marks * circle == {}
  {
    MemberMonotone(sc, su, overlay);
    var rest := marks - circle;
    forall i: nat | i in circle && i < |Records(sc)| ensures !MemberAdmits(sc, su, overlay, rest, i) {
      if Records(sc)[i].fields.Some? {
        var fs := Records(sc)[i].fields.value;
        var j :| 0 <= j < |fs| && LeansOn(sc, su, overlay, circle, fs[j]);
        assert !FieldMember(sc, su, overlay, rest, fs[j]);
      }
    }
    NoSelfSupport(0, |Records(sc)|, MemberRule(sc, su, overlay), marks, circle);
  }
}
