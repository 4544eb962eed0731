/** Two uses of the by-value dependencies between records: the order in which C++ record
    definitions are emitted, and the check that Rust records have a finite size. */
module RecordOrder {
  import opened Graphs

  /** A parsed type expression; Missing is a null string, Malformed one that does not parse. */
  datatype TypeExpr = Missing | Malformed | Named(name: string) | Apply(ctor: Ctor, args: seq<TypeExpr>)

  datatype Ctor = ListOf | SetOf | MapOf

  datatype Collection = NoCollection | FixedArray | ListField | SetField | MapField | GroupField | Unknown

  datatype Field = Field(collection: Collection, typeName: TypeExpr, inner: TypeExpr, key: TypeExpr, value: TypeExpr)

  datatype DeclKind = Message | Composite | Group | Enum | Union

  datatype Decl = Decl(name: string, kind: DeclKind, fields: seq<Field>)

  type Contract = seq<Decl>

  /** Bad: the expression cannot be read. */
  datatype Dep = Bad | No | Yes

  // ---- C++ dependencies ----------------------------------------------------------------------

  function TypeDep(t: TypeExpr, target: string): Dep {
    match t
    case Missing => Bad
    case Malformed => Bad
    case Named(n) => if n == target then Yes else No
    case Apply(c, args) => if c == ListOf then No else ArgsDep(args, target)
  }

  /** The first argument that says anything but No decides. */
  function ArgsDep(args: seq<TypeExpr>, target: string): Dep {
    if args == [] then No
    else
      var d := TypeDep(args[0], target);
      if d != No then d else ArgsDep(args[1..], target)
  }

  function FieldDep(f: Field, target: string): Dep {
    match f.collection
    case NoCollection => TypeDep(f.typeName, target)
    case FixedArray => TypeDep(f.inner, target)
    case SetField => TypeDep(f.inner, target)
    case MapField =>
      var d := TypeDep(f.key, target);
      if d == No then TypeDep(f.value, target) else d
    case ListField =>
      if f.inner.Missing? then No
      else if f.inner.Malformed? then Bad
      else if f.inner.Apply? && f.inner.ctor != ListOf then TypeDep(f.inner, target)
      else No
    case GroupField => No
    case Unknown => Bad
  }

  /** All of the expression that a dependency query looks at can be read. */
  predicate ReadableType(t: TypeExpr) {
    match t
    case Missing => false
    case Malformed => false
    case Named(_) => true
    case Apply(c, args) => c == ListOf || forall i :: 0 <= i < |args| ==> ReadableType(args[i])
  }

  predicate ReadableField(f: Field) {
    match f.collection
    case NoCollection => ReadableType(f.typeName)
    case FixedArray => ReadableType(f.inner)
    case SetField => ReadableType(f.inner)
    case MapField => ReadableType(f.key) && ReadableType(f.value)
    case ListField =>
      f.inner.Missing? ||
      (!f.inner.Malformed? && (f.inner.Apply? && f.inner.ctor != ListOf ==> ReadableType(f.inner)))
    case GroupField => true
    case Unknown => false
  }

  lemma {:induction false} ReadableTypeDep(t: TypeExpr, target: string)
    ensures TypeDep(t, target) == Bad ==> !ReadableType(t)
    ensures TypeDep(t, target) == No ==> ReadableType(t)
    decreases t
  {
    if t.Apply? && t.ctor != ListOf { ReadableArgsDep(t.args, target); }
  }

  lemma {:induction false} ReadableArgsDep(args: seq<TypeExpr>, target: string)
    ensures ArgsDep(args, target) == Bad ==> exists i :: 0 <= i < |args| && !ReadableType(args[i])
    ensures ArgsDep(args, target) == No ==> forall i :: 0 <= i < |args| ==> ReadableType(args[i])
    decreases args
  {
    if args != [] {
      ReadableTypeDep(args[0], target);
      ReadableArgsDep(args[1..], target);
      if TypeDep(args[0], target) == No && ArgsDep(args[1..], target) == Bad {
        var i :| 0 <= i < |args[1..]| && !ReadableType(args[1..][i]);
        assert !ReadableType(args[i + 1]);
      }
      if ArgsDep(args, target) == No {
        forall i | 0 <= i < |args| ensures ReadableType(args[i]) {
          if i > 0 { assert args[i] == args[1..][i - 1]; }
        }
      }
    }
  }

  /** Only an unreadable field answers Bad, and a field that answers No is readable. */
  lemma ReadableFieldDep(f: Field, target: string)
    ensures FieldDep(f, target) == Bad ==> !ReadableField(f)
    ensures FieldDep(f, target) == No ==> ReadableField(f)
  {
    ReadableTypeDep(f.typeName, target);
    ReadableTypeDep(f.inner, target);
    ReadableTypeDep(f.key, target);
    ReadableTypeDep(f.value, target);
  }

  predicate IsRecord(c: Contract, i: nat) {
    i < |c| && c[i].kind != Enum
  }

  ghost predicate Readable(c: Contract) {
    forall i, j :: 0 <= i < |c| && IsRecord(c, i) && 0 <= j < |c[i].fields| ==> ReadableField(c[i].fields[j])
  }

  /** Record i must come after record j. */
  ghost predicate Needs(c: Contract, i: nat, j: nat) {
    IsRecord(c, i) && IsRecord(c, j) &&
    exists f :: 0 <= f < |c[i].fields| && FieldDep(c[i].fields[f], c[j].name) == Yes
  }

  // ---- the same dependencies, read off the declarations -----------------------------------------

  /** Following the arguments of t along the path one arrives at the name n, and no list is crossed. */
  ghost predicate NamedAt(t: TypeExpr, path: seq<nat>, n: string)
    decreases |path|
  {
    if path == [] then t == Named(n)
    else t.Apply? && t.ctor != ListOf && path[0] < |t.args| && NamedAt(t.args[path[0]], path[1..], n)
  }

  /** Following the arguments of t along the path, without crossing a list, one arrives at
      something that cannot be read. */
  ghost predicate BrokenAt(t: TypeExpr, path: seq<nat>)
    decreases |path|
  {
    if path == [] then t.Missing? || t.Malformed?
    else t.Apply? && t.ctor != ListOf && path[0] < |t.args| && BrokenAt(t.args[path[0]], path[1..])
  }

  ghost predicate HoldsBreak(t: TypeExpr) {
    exists path :: BrokenAt(t, path)
  }

  /** Readable is: nothing unreadable outside lists. */
  lemma {:induction false} ReadableMeans(t: TypeExpr)
    ensures ReadableType(t) <==> !HoldsBreak(t)
    decreases t
  {
    var here: seq<nat> := [];
    assert BrokenAt(t, here) <==> t.Missing? || t.Malformed?;
    if t.Apply? && t.ctor != ListOf {
      forall i | 0 <= i < |t.args| ensures HoldsBreak(t.args[i]) ==> HoldsBreak(t) {
        if HoldsBreak(t.args[i]) {
          var path :| BrokenAt(t.args[i], path);
          assert ([i] + path)[1..] == path && BrokenAt(t, [i] + path);
        }
      }
      forall i | 0 <= i < |t.args| ensures ReadableType(t.args[i]) <==> !HoldsBreak(t.args[i]) {
        ReadableMeans(t.args[i]);
      }
      if HoldsBreak(t) {
        var path :| BrokenAt(t, path);
        assert BrokenAt(t.args[path[0]], path[1..]) && HoldsBreak(t.args[path[0]]);
      }
    }
  }

  ghost predicate Mentions(t: TypeExpr, n: string) {
    exists path :: NamedAt(t, path, n)
  }

  /** A record of this name must be complete before the field's type can be instantiated: it is
      the type itself, an array or set element, a key or value of a map, or inside a map or set
      that a list holds; an element of a list alone may be incomplete. */
  ghost predicate FieldMentions(f: Field, n: string) {
    || (f.collection == NoCollection && Mentions(f.typeName, n))
    || ((f.collection == FixedArray || f.collection == SetField) && Mentions(f.inner, n))
    || (f.collection == MapField && (Mentions(f.key, n) || Mentions(f.value, n)))
    || (f.collection == ListField && f.inner.Apply? && Mentions(f.inner, n))
  }

  ghost predicate MentionsRecord(c: Contract, i: nat, j: nat) {
    IsRecord(c, i) && IsRecord(c, j) &&
    exists f :: 0 <= f < |c[i].fields| && FieldMentions(c[i].fields[f], c[j].name)
  }

  ghost function MentionGraph(c: Contract): Graph {
    Graph(|c|, (i: nat, j: nat) => MentionsRecord(c, i, j))
  }

  /** In a readable type the query finds exactly the mentions. */
  lemma {:induction false} TypeDepMentions(t: TypeExpr, n: string)
    requires ReadableType(t)
    ensures TypeDep(t, n) == Yes <==> Mentions(t, n)
    decreases t
  {
    match t
    case Named(x) =>
      if x == n { assert NamedAt(t, [], n); }
      forall path | NamedAt(t, path, n) ensures x == n {}
    case Apply(c, args) =>
      if c != ListOf {
        ArgsDepMentions(args, n);
        if TypeDep(t, n) == Yes {
          var i :| 0 <= i < |args| && Mentions(args[i], n);
          var path :| NamedAt(args[i], path, n);
          assert ([i] + path)[1..] == path && NamedAt(t, [i] + path, n);
        }
        if Mentions(t, n) {
          var path :| NamedAt(t, path, n);
          assert NamedAt(args[path[0]], path[1..], n) && Mentions(args[path[0]], n);
        }
      }
  }

  lemma {:induction false} ArgsDepMentions(args: seq<TypeExpr>, n: string)
    requires forall i :: 0 <= i < |args| ==> ReadableType(args[i])
    ensures ArgsDep(args, n) == Yes <==> exists i :: 0 <= i < |args| && Mentions(args[i], n)
    ensures ArgsDep(args, n) != Bad
    decreases args
  {
    hide Mentions;
    if args != [] {
      TypeDepMentions(args[0], n);
      ReadableTypeDep(args[0], n);
      var rest := args[1..];
      ArgsDepMentions(rest, n);
      if i :| 0 <= i < |rest| && Mentions(rest[i], n) { assert args[i + 1] == rest[i]; }
      if i :| 0 <= i < |args| && Mentions(args[i], n) && i > 0 { assert rest[i - 1] == args[i]; }
    }
  }

  lemma FieldDepMentions(f: Field, n: string)
    requires ReadableField(f)
    ensures FieldDep(f, n) == Yes <==> FieldMentions(f, n)
  {
    hide Mentions;
    match f.collection
    case NoCollection => TypeDepMentions(f.typeName, n);
    case FixedArray => TypeDepMentions(f.inner, n);
    case SetField => TypeDepMentions(f.inner, n);
    case MapField =>
      TypeDepMentions(f.key, n);
      TypeDepMentions(f.value, n);
      ReadableTypeDep(f.key, n);
    case ListField => ListFieldMentions(f, n);
    case _ =>
  }

  lemma ListFieldMentions(f: Field, n: string)
    requires ReadableField(f) && f.collection == ListField
    ensures FieldDep(f, n) == Yes <==> FieldMentions(f, n)
  {
    if f.inner.Apply? {
      if f.inner.ctor == ListOf {
        forall path | NamedAt(f.inner, path, n) ensures false {}
      } else {
        TypeDepMentions(f.inner, n);
      }
    }
  }

  /** Needs and mentions are the same relation on a readable contract. */
  lemma NeedsIsMentions(c: Contract, i: nat, j: nat)
    requires Readable(c)
    ensures Needs(c, i, j) <==> MentionsRecord(c, i, j)
  {
    if IsRecord(c, i) && IsRecord(c, j) {
      forall f | 0 <= f < |c[i].fields|
        ensures FieldDep(c[i].fields[f], c[j].name) == Yes <==> FieldMentions(c[i].fields[f], c[j].name)
      {
        FieldDepMentions(c[i].fields[f], c[j].name);
      }
    }
  }

  lemma SameCycles(c: Contract)
    requires Readable(c)
    ensures Acyclic(NeedsGraph(c)) <==> Acyclic(MentionGraph(c))
  {
    forall p ensures Cycle(NeedsGraph(c), p) <==> Cycle(MentionGraph(c), p) {
      forall k: nat | k < |p| - 1 ensures NeedsGraph(c).edge(p[k], p[k + 1]) <==> MentionGraph(c).edge(p[k], p[k + 1]) {
        NeedsIsMentions(c, p[k], p[k + 1]);
      }
    }
  }

  /** Whatever a record mentions stands before it. */
  ghost predicate MentionedFirst(c: Contract, order: seq<nat>) {
    forall i: nat, j: nat :: MentionsRecord(c, i, j) ==>
      exists a, b :: 0 <= a < b < |order| && order[a] == j && order[b] == i
  }

  lemma OrderMentions(c: Contract, order: seq<nat>)
    requires Readable(c) && EmittedOrder(c, order)
    ensures MentionedFirst(c, order)
  {
    forall i: nat, j: nat | MentionsRecord(c, i, j)
      ensures exists a, b :: 0 <= a < b < |order| && order[a] == j && order[b] == i
    {
      NeedsIsMentions(c, i, j);
      var b: nat :| b < |order| && order[b] == i;
      assert NeedsGraph(c).edge(order[b], j);
      var a :| 0 <= a < b && order[..b][a] == j;
      assert order[a] == j;
    }
  }

  ghost function NeedsGraph(c: Contract): Graph {
    Graph(|c|, (i: nat, j: nat) => Needs(c, i, j))
  }

  /** Each record once, and after everything it needs complete. */
  ghost predicate EmittedOrder(c: Contract, order: seq<nat>) {
    && Layered(NeedsGraph(c), order)
    && forall i :: 0 <= i < |c| ==> (i in order <==> IsRecord(c, i))
  }

  /** The scan of one record against the records not yet emitted. */
  datatype Scan = Ready | Waits(on: nat) | Broken

  method ScanRecord(c: Contract, i: nat, emitted: array<bool>) returns (r: Scan)
    requires emitted.Length == |c| && IsRecord(c, i) && !emitted[i]
    ensures r.Ready? ==> forall f, j :: 0 <= f < |c[i].fields| && 0 <= j < |c| && IsRecord(c, j) && !emitted[j] ==>
      FieldDep(c[i].fields[f], c[j].name) == No
    ensures r.Waits? ==> IsRecord(c, r.on) && !emitted[r.on] && Needs(c, i, r.on)
    ensures r.Broken? ==> !Readable(c)
  {
    var f := 0;
    while f < |c[i].fields|
      invariant 0 <= f <= |c[i].fields|
      invariant forall g, j :: 0 <= g < f && 0 <= j < |c| && IsRecord(c, j) && !emitted[j] ==>
        FieldDep(c[i].fields[g], c[j].name) == No
    {
      var candidate := 0;
      while candidate < |c|
        invariant 0 <= candidate <= |c|
        invariant forall j :: 0 <= j < candidate && IsRecord(c, j) && !emitted[j] ==>
          FieldDep(c[i].fields[f], c[j].name) == No
      {
        if c[candidate].kind != Enum && !emitted[candidate] {
          var result := FieldDep(c[i].fields[f], c[candidate].name);
          if result == Bad {
            ReadableFieldDep(c[i].fields[f], c[candidate].name);
            return Broken;
          }
          if result == Yes { return Waits(candidate); }
        }
        candidate := candidate + 1;
      }
      f := f + 1;
    }
    return Ready;
  }

  /** Records not yet emitted. */
  ghost function Pending(c: Contract, order: seq<nat>): set<nat> {
    set i | 0 <= i < |c| && IsRecord(c, i) && i !in order
  }

  ghost predicate EmittedSoFar(c: Contract, order: seq<nat>) {
    && Layered(NeedsGraph(c), order)
    && forall i :: i in order ==> IsRecord(c, i) && forall f :: 0 <= f < |c[i].fields| ==> ReadableField(c[i].fields[f])
  }

  /** A record all of whose unmet needs have been ruled out can be emitted next. */
  lemma EmitNext(c: Contract, order: seq<nat>, i: nat)
    requires EmittedSoFar(c, order) && i in Pending(c, order)
    requires forall f, j :: 0 <= f < |c[i].fields| && j in Pending(c, order) ==>
                              FieldDep(c[i].fields[f], c[j].name) == No
    ensures EmittedSoFar(c, order + [i]) && Pending(c, order + [i]) == Pending(c, order) - {i}
  {
    forall f | 0 <= f < |c[i].fields| ensures ReadableField(c[i].fields[f]) {
      ReadableFieldDep(c[i].fields[f], c[i].name);
    }
    var g, next := NeedsGraph(c), order + [i];
    forall k: nat, w: nat | k < |next| && w < g.n && g.edge(next[k], w) ensures w in next[..k] {
      if k < |order| {
        assert next[..k] == order[..k];
      } else {
        assert next[..k] == order && Needs(c, i, w);
        assert w !in Pending(c, order);
      }
    }
  }

  lemma AllEmitted(c: Contract, order: seq<nat>)
    requires EmittedSoFar(c, order) && Pending(c, order) == {}
    ensures Readable(c) && Acyclic(NeedsGraph(c)) && EmittedOrder(c, order)
  {
    forall i | 0 <= i < |c| ensures i in order <==> IsRecord(c, i) {
      assert i !in Pending(c, order);
    }
    LayeredAcyclic(NeedsGraph(c), order);
  }

  /** No record could be emitted in a whole pass: the pending ones wait for each other. */
  lemma Stuck(c: Contract, order: seq<nat>)
    requires Pending(c, order) != {}
    requires forall i :: i in Pending(c, order) ==> Continues(NeedsGraph(c), Pending(c, order), i)
    ensures !Acyclic(NeedsGraph(c))
  {
    StuckHasCycle(NeedsGraph(c), Pending(c, order));
  }

  /** The emitted marks and the counter say what the order emitted so far is. */
  ghost predicate Marks(c: Contract, emitted: seq<bool>, order: seq<nat>, remaining: nat) {
    && |emitted| == |c| && EmittedSoFar(c, order) && remaining == |Pending(c, order)|
    && forall k :: 0 <= k < |c| ==> (emitted[k] <==> k in order)
  }

  /** The order in which record definitions are emitted. It exists exactly when every type
      can be read and no record needs itself complete, directly or through others. */
  method OrderRecords(c: Contract) returns (r: Result)
    ensures r.Order? <==> Readable(c) && Acyclic(NeedsGraph(c))
    ensures r.Order? ==> EmittedOrder(c, r.ids) && MentionedFirst(c, r.ids)
    ensures Readable(c) ==> (r.Order? <==> Acyclic(MentionGraph(c)))
  {
    if Readable(c) { SameCycles(c); }
    hide Acyclic, Readable, EmittedSoFar, Needs, Layered, NeedsGraph, MentionGraph, MentionedFirst, EmittedOrder;
    var emitted := new bool[|c|](_ => false);
    var order: seq<nat> := [];
    var remaining := CountRecords(c);
    NothingEmitted(c);
    while remaining != 0
      invariant Marks(c, emitted[..], order, remaining)
      decreases remaining
    {
      var left, order', broken := EmitPass(c, emitted, order, remaining);
      if broken { return Impossible; }
      if left == remaining {
        Stuck(c, order);
        return Impossible;
      }
      order, remaining := order', left;
    }
    AllEmitted(c, order);
    OrderMentions(c, order);
    return Order(order);
  }

  /** One pass over all records. A pass that emits nothing has seen every pending record wait
      for a pending one. */
  method EmitPass(c: Contract, emitted: array<bool>, before: seq<nat>, remaining: nat)
    returns (left: nat, order: seq<nat>, broken: bool)
    requires Marks(c, emitted[..], before, remaining) && remaining > 0
    modifies emitted
    ensures broken ==> !Readable(c)
    ensures !broken ==> Marks(c, emitted[..], order, left) && left <= remaining
    ensures !broken && left == remaining ==> Pending(c, before) != {}
    ensures !broken && left == remaining ==>
      forall k :: k in Pending(c, before) ==> Continues(NeedsGraph(c), Pending(c, before), k)
  {
    hide Acyclic, Readable, EmittedSoFar, Needs, Layered, NeedsGraph, Continues;
    left, order, broken := remaining, before, false;
    var i := 0;
    while i < |c|
      invariant 0 <= i <= |c| && Marks(c, emitted[..], order, left) && left <= remaining
      invariant left == remaining ==> order == before
      invariant left == remaining ==>
        forall k :: 0 <= k < i && k in Pending(c, before) ==> Continues(NeedsGraph(c), Pending(c, before), k)
    {
      if c[i].kind != Enum && !emitted[i] {
        var scan := ScanRecord(c, i, emitted);
        if scan.Broken? { return left, order, true; }
        if scan.Ready? {
          EmitNext(c, order, i);
          emitted[i] := true;
          order, left := order + [i], left - 1;
        } else {
          WaitsOn(c, order, i, scan.on);
        }
      }
      i := i + 1;
    }
  }

  lemma WaitsOn(c: Contract, order: seq<nat>, i: nat, j: nat)
    requires Needs(c, i, j) && j in Pending(c, order)
    ensures Continues(NeedsGraph(c), Pending(c, order), i)
  {
    assert NeedsGraph(c).edge(i, j);
  }

  datatype Result = Order(ids: seq<nat>) | Impossible

  lemma NothingEmitted(c: Contract)
    ensures EmittedSoFar(c, [])
  {
  }

  method CountRecords(c: Contract) returns (n: nat)
    ensures n == |Pending(c, [])|
  {
    n := 0;
    var i := 0;
    ghost var seen: set<nat> := {};
    while i < |c|
      invariant 0 <= i <= |c| && n == |seen|
      invariant forall k :: k in seen <==> 0 <= k < i && IsRecord(c, k)
    {
      if c[i].kind != Enum {
        seen := seen + {i};
        n := n + 1;
      }
      i := i + 1;
    }
    assert seen == Pending(c, []);
  }

  // ---- Rust: records held by value ------------------------------------------------------------

  /** The first declaration with this name. */
  function FindData(c: Contract, name: string): (i: nat)
    ensures i <= |c| && (i < |c| ==> c[i].name == name)
    ensures forall k :: 0 <= k < i ==> c[k].name != name
  {
    FindFrom(c, name, 0)
  }

  function FindFrom(c: Contract, name: string, from: nat): (i: nat)
    requires from <= |c|
    ensures from <= i <= |c| && (i < |c| ==> c[i].name == name)
    ensures forall k :: from <= k < i ==> c[k].name != name
    decreases |c| - from
  {
    if from == |c| || c[from].name == name then from else FindFrom(c, name, from + 1)
  }

  /** The record that a field holds inside its own record; |c| if there is none. Only plain
      and fixed-array fields do; vectors and maps put their elements elsewhere. */
  function Held(c: Contract, f: Field): (j: nat)
    ensures j <= |c| && (j < |c| ==> IsRecord(c, j))
  {
    var t := match f.collection
             case NoCollection => f.typeName
             case FixedArray => f.inner
             case _ => Missing;
    if !t.Named? then |c|
    else
      var j := FindData(c, t.name);
      if j < |c| && c[j].kind != Enum then j else |c|
  }

  ghost predicate Holds(c: Contract, i: nat, j: nat) {
    IsRecord(c, i) && j < |c| && exists f :: 0 <= f < |c[i].fields| && Held(c, c[i].fields[f]) == j
  }

  ghost function HoldsGraph(c: Contract): Graph {
    Graph(|c|, (i: nat, j: nat) => Holds(c, i, j))
  }

  /** A record is held by value: a plain field or an array field names it, directly. */
  ghost predicate HeldByValue(c: Contract, i: nat, j: nat) {
    IsRecord(c, i) && IsRecord(c, j) && (forall k :: 0 <= k < j ==> c[k].name != c[j].name) &&
    exists f :: 0 <= f < |c[i].fields| &&
      ((c[i].fields[f].collection == NoCollection && c[i].fields[f].typeName == Named(c[j].name)) ||
       (c[i].fields[f].collection == FixedArray && c[i].fields[f].inner == Named(c[j].name)))
  }

  ghost function ByValueGraph(c: Contract): Graph {
    Graph(|c|, (i: nat, j: nat) => HeldByValue(c, i, j))
  }

  lemma HoldsIsByValue(c: Contract, i: nat, j: nat)
    ensures Holds(c, i, j) <==> HeldByValue(c, i, j)
  {
    if Holds(c, i, j) {
      var f :| 0 <= f < |c[i].fields| && Held(c, c[i].fields[f]) == j;
      assert c[i].fields[f].collection == NoCollection || c[i].fields[f].collection == FixedArray;
    }
    if HeldByValue(c, i, j) {
      var f :| 0 <= f < |c[i].fields| &&
        ((c[i].fields[f].collection == NoCollection && c[i].fields[f].typeName == Named(c[j].name)) ||
         (c[i].fields[f].collection == FixedArray && c[i].fields[f].inner == Named(c[j].name)));
      assert FindData(c, c[j].name) == j;
      assert Held(c, c[i].fields[f]) == j;
    }
  }

  lemma SameHolding(c: Contract)
    ensures Acyclic(HoldsGraph(c)) <==> Acyclic(ByValueGraph(c))
  {
    forall p ensures Cycle(HoldsGraph(c), p) <==> Cycle(ByValueGraph(c), p) {
      forall k: nat | k < |p| - 1 ensures HoldsGraph(c).edge(p[k], p[k + 1]) <==> ByValueGraph(c).edge(p[k], p[k + 1]) {
        HoldsIsByValue(c, p[k], p[k + 1]);
      }
    }
  }

  /** States of the depth-first search: 0 unvisited, 1 on the stack, 2 done. `stack` is the
      path to the record being visited, `done` lists the finished records, innermost first. */
  ghost predicate Search(c: Contract, states: seq<nat>, stack: seq<nat>, done: seq<nat>) {
    && |states| == |c| && Layered(HoldsGraph(c), done) && Distinct(stack)
    && (stack != [] ==> Path(HoldsGraph(c), stack))
    && (forall v :: 0 <= v < |c| ==> (states[v] == 1 <==> v in stack) && (states[v] == 2 <==> v in done))
    && (forall v :: v in stack ==> IsRecord(c, v))
    && (forall v :: v in done ==> v < |c|)
    && (forall v :: 0 <= v < |c| ==> states[v] <= 2)
  }

  /** Visits a record that the top of the stack holds. */
  method RecordVisit(c: Contract, index: nat, states: array<nat>, ghost stack: seq<nat>, ghost done: seq<nat>)
    returns (ok: bool, ghost done': seq<nat>)
    requires Search(c, states[..], stack, done) && IsRecord(c, index) && states[index] == 0
    requires stack != [] ==> Holds(c, stack[|stack| - 1], index)
    modifies states
    ensures ok ==> Search(c, states[..], stack, done') && done <= done' && index in done'
    ensures !ok ==> !Acyclic(HoldsGraph(c))
    decreases |c| - |stack|
  {
    hide Layered, Path, Holds, Acyclic;
    ghost var g, s := HoldsGraph(c), stack + [index];
    Pushed(c, states[..], stack, done, index);
    states[index] := 1;
    done' := done;
    var f := 0;
    while f < |c[index].fields|
      invariant 0 <= f <= |c[index].fields|
      invariant Search(c, states[..], s, done') && done <= done'
      invariant forall k :: 0 <= k < f && Held(c, c[index].fields[k]) < |c| ==> Held(c, c[index].fields[k]) in done'
    {
      var next := Held(c, c[index].fields[f]);
      if next < |c| {
        HeldEdge(c, index, f);
        if states[next] == 1 {
          PathCloses(g, s, next);
          return false, done';
        }
        if states[next] == 0 {
          var sub;
          sub, done' := RecordVisit(c, next, states, s, done');
          if !sub { return false, done'; }
        }
      }
      f := f + 1;
    }
    Popped(c, states[..], stack, done', index);
    states[index] := 2;
    done' := done' + [index];
    ok := true;
  }

  lemma HeldEdge(c: Contract, i: nat, f: nat)
    requires IsRecord(c, i) && f < |c[i].fields| && Held(c, c[i].fields[f]) < |c|
    ensures Holds(c, i, Held(c, c[i].fields[f])) && HoldsGraph(c).edge(i, Held(c, c[i].fields[f]))
  {
  }

  lemma Pushed(c: Contract, states: seq<nat>, stack: seq<nat>, done: seq<nat>, i: nat)
    requires Search(c, states, stack, done) && IsRecord(c, i) && states[i] == 0
    requires stack != [] ==> Holds(c, stack[|stack| - 1], i)
    ensures Search(c, states[i := 1], stack + [i], done) && |stack| < |c|
  {
    hide Layered, Holds;
    var s := stack + [i];
    if stack != [] { PathGrows(HoldsGraph(c), stack, i); }
    DistinctBelow(s, |c|);
  }

  lemma Popped(c: Contract, states: seq<nat>, stack: seq<nat>, done: seq<nat>, i: nat)
    requires IsRecord(c, i) && Search(c, states, stack + [i], done)
    requires forall k :: 0 <= k < |c[i].fields| && Held(c, c[i].fields[k]) < |c| ==> Held(c, c[i].fields[k]) in done
    ensures Search(c, states[i := 2], stack, done + [i])
  {
    var s, next, g := stack + [i], done + [i], HoldsGraph(c);
    assert i in s && i !in done && forall k :: 0 <= k < |stack| ==> s[k] == stack[k];
    assert stack != [] ==> Path(g, stack);
    assert s[|stack|] == i && i !in stack;
    forall v | 0 <= v < |c|
      ensures (states[i := 2][v] == 1 <==> v in stack) && (states[i := 2][v] == 2 <==> v in next)
    {
      assert v in s <==> v in stack || v == i;
    }
    forall k: nat, w: nat | k < |next| && w < g.n && g.edge(next[k], w) ensures w in next[..k] {
      if k < |done| { assert next[..k] == done[..k]; } else { assert next[..k] == done; }
    }
  }

  /** Rust records are accepted exactly when no record holds itself by value, directly or
      through others. */
  method ValidateSized(c: Contract) returns (ok: bool)
    ensures ok <==> Acyclic(HoldsGraph(c))
    ensures ok <==> Acyclic(ByValueGraph(c))
  {
    SameHolding(c);
    hide Path, Holds, Acyclic;
    var states := new nat[|c|](_ => 0);
    ghost var done: seq<nat> := [];
    var i := 0;
    while i < |c|
      invariant 0 <= i <= |c| && Search(c, states[..], [], done)
      invariant forall k :: 0 <= k < i && IsRecord(c, k) ==> k in done
    {
      if c[i].kind != Enum && states[i] == 0 {
        var sub;
        sub, done := RecordVisit(c, i, states, [], done);
        if !sub { return false; }
      }
      i := i + 1;
    }
    EdgesFromRecords(c);
    LayeredAcyclic(HoldsGraph(c), done);
    return true;
  }

  lemma EdgesFromRecords(c: Contract)
    ensures forall u: nat, v: nat :: HoldsGraph(c).edge(u, v) ==> IsRecord(c, u)
  {
  }
}
