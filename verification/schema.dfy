/** The annotated schema that the native-code analyses of the compiler read. Attributes whose
    text does not matter are booleans: whether they are present. */
module Schemas {
  import opened Wrappers
  import opened RecordOrder

  datatype FieldNote = FieldNote(
    typ: Option<string>, requirement: Option<string>, nativeData: Option<string>, nativeType: Option<string>,
    inner: Option<string>, key: Option<string>, value: Option<string>,
    isOptional: bool, isNullable: bool, isFixedSize: bool, isCollection: bool, isGroup: bool,
    isList: bool, isMap: bool, isSet: bool,
    nestedGeneric: bool, logical: TypeExpr,
    fixedArray: bool, fixedBytes: bool, fixedCount: Option<nat>,
    elementType: bool, elementData: bool,
    cstlSequence: bool, cstlSet: bool, cstlMap: bool,
    mapKeyType: bool, mapKeyData: bool, mapValueType: bool, mapValueData: bool, mapValueSymbol: bool)

  /** `fields` is None when the record has no field list. */
  datatype Record = Record(name: string, fields: Option<seq<FieldNote>>)

  /** What the projection of a scalar type provides. */
  datatype Scalar = Scalar(data: bool, typ: bool)

  /** `native` tells of each enum whether it is supported natively. */
  datatype Schema = Schema(
    composites: seq<Record>, groups: seq<Record>, messages: seq<Record>,
    scalars: map<string, Scalar>, native: map<string, bool>)

  /** All records: composites, then groups, then messages. */
  function Records(sc: Schema): seq<Record> {
    sc.composites + sc.groups + sc.messages
  }

  /** The first record with this name, in that order; the number of records if there is none. */
  function Find(sc: Schema, name: string): (i: nat)
    ensures i <= |Records(sc)| && (i < |Records(sc)| ==> Records(sc)[i].name == name)
    ensures forall k :: 0 <= k < i ==> Records(sc)[k].name != name
  {
    FindRecord(Records(sc), name, 0)
  }

  function FindRecord(rs: seq<Record>, name: string, from: nat): (i: nat)
    requires from <= |rs|
    ensures from <= i <= |rs| && (i < |rs| ==> rs[i].name == name)
    ensures forall k :: from <= k < i ==> rs[k].name != name
    decreases |rs| - from
  {
    if from == |rs| || rs[from].name == name then from else FindRecord(rs, name, from + 1)
  }

  predicate IsScalar(sc: Schema, name: string) { name in sc.scalars }

  predicate ScalarData(sc: Schema, name: string) { name in sc.scalars && sc.scalars[name].data }

  predicate IsEnum(sc: Schema, name: string) { name in sc.native }

  predicate NativeEnum(sc: Schema, name: string) { name in sc.native && sc.native[name] }

  /** The record a name refers to is in the set. */
  predicate NamesOneOf(sc: Schema, name: Option<string>, marks: set<nat>) {
    name.Some? && Find(sc, name.value) < |Records(sc)| && Find(sc, name.value) in marks
  }

  predicate NamesRecord(sc: Schema, name: Option<string>) {
    name.Some? && Find(sc, name.value) < |Records(sc)|
  }
}
