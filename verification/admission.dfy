/** Which records get a native descriptor or a native lifecycle, and what their descriptors are:
    a table over the attributes of the fields. The classification is proved against it. */
module Admission {
  import opened Wrappers
  import opened RecordOrder
  import opened Schemas

  const SIZE_MAX: nat := 0xFFFF_FFFF_FFFF_FFFF
  const MAX_DEPTH: nat := 32

  // ---- descriptors --------------------------------------------------------------------------------

  /** An unfolded native descriptor: a node and the descriptors it refers to. */
  datatype Desc = Desc(parts: seq<Desc>)

  const LEAF := Desc([])

  function Size(d: Desc): (n: nat)
    ensures n >= 1
  {
    1 + Sizes(d.parts)
  }

  function Sizes(ds: seq<Desc>): nat {
    if ds == [] then 0 else Sizes(ds[..|ds| - 1]) + Size(ds[|ds| - 1])
  }

  function Height(d: Desc): (n: nat)
    ensures n >= 1
  {
    1 + Tallest(d.parts)
  }

  function Tallest(ds: seq<Desc>): nat {
    if ds == [] then 0 else Max(Tallest(ds[..|ds| - 1]), Height(ds[|ds| - 1]))
  }

  function Max(a: nat, b: nat): nat { if a < b then b else a }

  lemma Appended(ds: seq<Desc>, d: Desc)
    ensures Size(Desc(ds + [d])) == Size(Desc(ds)) + Size(d)
    ensures Height(Desc(ds + [d])) == Max(Height(Desc(ds)), 1 + Height(d))
  {
    var all := ds + [d];
    assert all[..|all| - 1] == ds;
  }

  /** The schema, the kind of pass, and the records an earlier pass gave a lifecycle. */
  datatype Ctx = Ctx(sc: Schema, lifecycle: bool, marked: set<nat>)

  predicate BuiltIn(sc: Schema, name: string) { ScalarData(sc, name) || name == "string" }

  /** The target may be an element that its container copies and destroys. In the lifecycle
      pass itself every supported record may. */
  predicate Owns(ctx: Ctx, t: nat) { ctx.lifecycle || t in ctx.marked }

  // ---- the table --------------------------------------------------------------------------------------

  datatype Form = Generic | InlineArray | Sequence | UniqueSet | Mapping | Single | NoForm

  function FormOf(f: FieldNote): Form {
    if f.nestedGeneric then Generic
    else if f.fixedArray then InlineArray
    else if f.isList || f.isGroup then Sequence
    else if f.isSet then UniqueSet
    else if f.isMap then Mapping
    else if f.isCollection then NoForm
    else Single
  }

  predicate Bound(f: FieldNote) { f.nativeData.Some? && f.nativeType.Some? }

  predicate Names(sc: Schema, name: string) { Find(sc, name) < |Records(sc)| }

  /** The provider of a field without a scalar type owns its values: lifecycle pass only. */
  predicate OwnedByProvider(ctx: Ctx, f: FieldNote) {
    ctx.lifecycle && Bound(f) && f.requirement in {Some("fixed_value"), Some("owned_lifecycle")}
  }

  /** Asked of every field. The lifecycle pass takes no field that may be absent or null, and a
      set or a group needs its generated container. */
  predicate Eligible(ctx: Ctx, f: FieldNote) {
    && f.typ.Some?
    && (ctx.lifecycle ==> !f.isOptional && !f.isNullable)
    && (f.isSet ==> f.cstlSet)
    && (f.isGroup ==> f.cstlSequence)
  }

  /** Record i has descriptor d, with one part for each field, and `depth` records below it on
      the longest chain. */
  ghost predicate RecordIs(ctx: Ctx, i: nat, depth: nat, d: Desc)
    decreases d, 0
  {
    && i < |Records(ctx.sc)| && Records(ctx.sc)[i].fields.Some?
    && var fs := Records(ctx.sc)[i].fields.value;
       |d.parts| == |fs| &&
       exists ns: seq<nat> :: |ns| == |fs| && Deepest(ns, depth) &&
         forall j :: 0 <= j < |fs| ==> FieldIs(ctx, fs[j], ns[j], d.parts[j])
  }

  ghost predicate Deepest(ns: seq<nat>, depth: nat) {
    (forall j :: 0 <= j < |ns| ==> ns[j] <= depth) && (depth > 0 ==> depth in ns)
  }

  /** The record of this name, one deeper. */
  ghost predicate BelowIs(ctx: Ctx, name: string, n: nat, d: Desc)
    decreases d, 1
  {
    Names(ctx.sc, name) && n > 0 && RecordIs(ctx, Find(ctx.sc, name), n - 1, d)
  }

  /** Field f contributes the part d, and n is 0 or the number of records on the longest chain
      from here. */
  ghost predicate FieldIs(ctx: Ctx, f: FieldNote, n: nat, d: Desc)
    decreases d, 3
  {
    Eligible(ctx, f) &&
    match FormOf(f)
    case Generic => exists nest: nat :: nest < MAX_DEPTH && GenericIs(ctx, f.logical, nest, n, d)
    case InlineArray =>
      && Bound(f) && f.elementData && f.inner.Some? && f.fixedCount.Some? && f.fixedCount.value > 0
      && |d.parts| == 1
      && ((Owns(ctx, Find(ctx.sc, f.inner.value)) && BelowIs(ctx, f.inner.value, n, d.parts[0])) ||
          (!Names(ctx.sc, f.inner.value) && n == 0 && d.parts[0] == LEAF &&
           (BuiltIn(ctx.sc, f.inner.value) || f.inner.value == "uuid" || NativeEnum(ctx.sc, f.inner.value))))
    case Sequence =>
      && Bound(f) && f.elementData && f.elementType && f.inner.Some? && f.requirement == Some("sequence_provider")
      && |d.parts| == 1
      && ((f.cstlSequence && BuiltIn(ctx.sc, f.inner.value) && n == 0 && d.parts[0] == LEAF) ||
          (!BuiltIn(ctx.sc, f.inner.value) && BelowIs(ctx, f.inner.value, n, d.parts[0]) &&
           (f.cstlSequence || (f.inner.value != "uuid" && !IsEnum(ctx.sc, f.inner.value)))))
    case UniqueSet =>
      && Bound(f) && f.elementData && f.elementType && f.inner.Some? && f.requirement == Some("set_provider")
      && BuiltIn(ctx.sc, f.inner.value) && n == 0 && |d.parts| == 1 && d.parts[0] == LEAF
    case Mapping =>
      && Bound(f) && f.key == Some("string") && f.value.Some? && f.mapValueSymbol
      && (if f.cstlMap then f.mapKeyType && f.mapKeyData && f.mapValueType && f.mapValueData else !ctx.lifecycle)
      && |d.parts| == 2 && d.parts[0] == LEAF
      && var plain := BuiltIn(ctx.sc, f.value.value);
         var other := !f.cstlMap && !plain && (f.value.value == "uuid" || IsEnum(ctx.sc, f.value.value));
         ((plain || (other && (f.value.value == "uuid" || NativeEnum(ctx.sc, f.value.value)))) &&
          n == 0 && d.parts[1] == LEAF) ||
         (!plain && !other && BelowIs(ctx, f.value.value, n, d.parts[1]))
    case NoForm => false
    case Single =>
      var scalar, enum, provided := IsScalar(ctx.sc, f.typ.value), IsEnum(ctx.sc, f.typ.value), OwnedByProvider(ctx, f);
      (scalar && ctx.sc.scalars[f.typ.value] == Scalar(true, true) && n == 0 && d == LEAF) ||
      (!scalar && provided && n == 0 && d == LEAF) ||
      (!scalar && !provided && NativeEnum(ctx.sc, f.typ.value) && n == 0 && d == LEAF) ||
      (!scalar && !provided && !enum && BelowIs(ctx, f.typ.value, n, d)) ||
      (!scalar && !provided && !enum && !Names(ctx.sc, f.typ.value) && !ctx.lifecycle && Bound(f) &&
       n == 0 && d == LEAF)
  }

  /** A nested generic type: lists and string-keyed maps around one named element. `nest` is
      the depth it is limited in: in the graph pass the height of the descriptor. */
  ghost predicate GenericIs(ctx: Ctx, t: TypeExpr, nest: nat, n: nat, d: Desc)
    decreases d, 2
  {
    match t
    case Missing => false
    case Malformed => false
    case Named(name) =>
      && |name| < 256
      && if Names(ctx.sc, name) then
           Owns(ctx, Find(ctx.sc, name)) && BelowIs(ctx, name, n, d) && nest == if ctx.lifecycle then n else Height(d)
         else
           (BuiltIn(ctx.sc, name) || name == "uuid" || NativeEnum(ctx.sc, name)) && n == 0 && nest == 1 && d == LEAF
    case Apply(c, args) =>
      && 0 < nest <= MAX_DEPTH
      && ((c == ListOf && |args| == 1 && |d.parts| == 1 && GenericIs(ctx, args[0], nest - 1, n, d.parts[0])) ||
          (c == MapOf && |args| == 2 && args[0] == Named("string") && |d.parts| == 2 && d.parts[0] == LEAF &&
           GenericIs(ctx, args[1], nest - 1, n, d.parts[1])))
  }

  // ---- what it comes to for plain records ---------------------------------------------------------------

  /** A field that is one scalar value with a projected data and type symbol. */
  predicate ProjectedScalar(ctx: Ctx, f: FieldNote) {
    && f.typ.Some? && f.typ.value in ctx.sc.scalars && ctx.sc.scalars[f.typ.value] == Scalar(true, true)
    && !f.nestedGeneric && !f.fixedArray && !f.isList && !f.isGroup && !f.isSet && !f.isMap && !f.isCollection
    && (ctx.lifecycle ==> !f.isOptional && !f.isNullable)
  }

  function Leaves(n: nat): (ds: seq<Desc>)
    ensures |ds| == n && forall k :: 0 <= k < n ==> ds[k] == LEAF
  {
    seq(n, _ => LEAF)
  }

  lemma {:induction false} LeavesMeasure(n: nat)
    ensures Size(Desc(Leaves(n))) == 1 + n && Height(Desc(Leaves(n))) == if n == 0 then 1 else 2
  {
    if n > 0 {
      LeavesMeasure(n - 1);
      Appended(Leaves(n - 1), LEAF);
      assert Leaves(n) == Leaves(n - 1) + [LEAF];
      assert LEAF.parts == [];
    }
  }

  /** A record of n projected scalars is a node with n leaves and leads to no other record. */
  lemma ScalarRecordIs(ctx: Ctx, i: nat)
    requires i < |Records(ctx.sc)| && Records(ctx.sc)[i].fields.Some?
    requires forall j :: 0 <= j < |Records(ctx.sc)[i].fields.value| ==>
      ProjectedScalar(ctx, Records(ctx.sc)[i].fields.value[j])
    ensures RecordIs(ctx, i, 0, Desc(Leaves(|Records(ctx.sc)[i].fields.value|)))
  {
    var fs := Records(ctx.sc)[i].fields.value;
    var ns, ds := seq(|fs|, _ => 0), Leaves(|fs|);
    forall j | 0 <= j < |fs| ensures FieldIs(ctx, fs[j], ns[j], Desc(ds).parts[j]) {
      assert ProjectedScalar(ctx, fs[j]) && FormOf(fs[j]) == Single;
    }
    assert Deepest(ns, 0);
  }
}
