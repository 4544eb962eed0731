/** How the node table grows, and how its tree value follows. */
module BtLinks {
  import opened Wrappers
  import opened BtTypes
  import opened BtSemantics
  import opened BtArena
  import opened BtRuns

  /** The bookkeeping of one node: child count, last child, depth, and its place among
      the children of its parent. Node 1 is the root. */
  ghost predicate BookkeptAt(ns: seq<Entry>, id: nat)
    requires Linked(ns) && 1 <= id < |ns|
  {
    var l, kids := ns[id].link, KidsOf(ns, id);
    && l.childCount == |kids|
    && l.lastChild == (if kids == [] then 0 else kids[|kids| - 1])
    && l.depth == |Lineage(ns, id)|
    && (id == 1 <==> l.parent == 0)
    && (id > 1 ==> assert LinkedAt(ns, id); id in KidsOf(ns, l.parent))
  }

  /** The table is a finite ordered tree with correct bookkeeping. */
  ghost predicate Bookkept(ns: seq<Entry>) {
    Linked(ns) && forall id :: 1 <= id < |ns| ==> BookkeptAt(ns, id)
  }

  lemma BookkeptLinked(ns: seq<Entry>)
    requires Bookkept(ns)
    ensures Linked(ns)
  {
  }

  /** A child is one deeper than its parent, and comes after it. */
  lemma DepthOfChild(ns: seq<Entry>, id: nat)
    requires Bookkept(ns) && 1 < id < |ns|
    ensures 1 <= ns[id].link.parent < id && ns[id].link.depth == ns[ns[id].link.parent].link.depth + 1
  {
    assert LinkedAt(ns, id) && BookkeptAt(ns, id) && BookkeptAt(ns, ns[id].link.parent);
  }

  lemma BookkeptSame(ns: seq<Entry>, ms: seq<Entry>)
    requires Bookkept(ns) && SameLinks(ns, ms)
    ensures Bookkept(ms)
  {
    LinkedSame(ns, ms);
    forall id | 1 <= id < |ms| ensures BookkeptAt(ms, id) {
      assert BookkeptAt(ns, id) && LinkedAt(ns, id);
      KidsSame(ns, ms, id);
      LineageSame(ns, ms, id);
      if id > 1 { KidsSame(ns, ms, ns[id].link.parent); }
    }
  }

  // ---- paths and subtrees ---------------------------------------------------------------------

  /** A node lies below another exactly when its path extends the other's. */
  lemma {:induction false} PathsNest(ns: seq<Entry>, a: nat, j: nat)
    requires Linked(ns) && 1 <= a < |ns| && j < |ns|
    ensures Under(ns, a, j) <==> Lineage(ns, a) <= Lineage(ns, j)
    decreases j
  {
    assert LinkedAt(ns, a);
    if j > 0 {
      assert LinkedAt(ns, j);
      var up, la := Lineage(ns, ns[j].link.parent), Lineage(ns, a);
      var lj := Lineage(ns, j);
      assert lj == up + [j] && la[|la| - 1] == a;
      PathsNest(ns, a, ns[j].link.parent);
      if la <= lj && |la| == |lj| { assert la == lj; assert a == j; }
      if la <= lj && |la| < |lj| { assert la == lj[..|la|] == up[..|la|]; }
      if Under(ns, a, ns[j].link.parent) { UnderGoesUp(ns, a, ns[j].link.parent); }
    }
  }

  lemma UnderGoesUp(ns: seq<Entry>, a: nat, j: nat)
    requires Linked(ns) && j < |ns| && Under(ns, a, j)
    ensures a <= j
  {
  }

  lemma {:induction false} UnderTrans(ns: seq<Entry>, a: nat, b: nat, j: nat)
    requires Linked(ns) && 1 <= a < |ns| && 1 <= b < |ns| && j < |ns| && Under(ns, a, b) && Under(ns, b, j)
    ensures Under(ns, a, j)
  {
    PathsNest(ns, a, b);
    PathsNest(ns, b, j);
    PathsNest(ns, a, j);
  }

  /** The child of `id` on the way down to p. */
  lemma {:induction false} StepToward(ns: seq<Entry>, id: nat, p: nat) returns (i: nat)
    requires Bookkept(ns) && 1 <= id < |ns| && p < |ns| && Under(ns, id, p) && p != id
    ensures i < |KidsOf(ns, id)| && Under(ns, KidsOf(ns, id)[i], p)
    decreases p
  {
    assert LinkedAt(ns, p) && BookkeptAt(ns, p);
    var up := ns[p].link.parent;
    if up == id {
      i :| 0 <= i < |KidsOf(ns, id)| && KidsOf(ns, id)[i] == p;
    } else {
      i := StepToward(ns, id, up);
      UnderGoesUp(ns, KidsOf(ns, id)[i], up);
    }
  }

  lemma {:induction false} KidTowardFinds(kids: seq<Tree>, p: Path, i: nat)
    requires i < |kids| && kids[i].cfg.path <= p
    requires forall j :: 0 <= j < |kids| && j != i ==> !(kids[j].cfg.path <= p)
    ensures KidToward(kids, p) == i
  {
    var n := |kids| - 1;
    if i < n { KidTowardFinds(kids[..n], p, i); }
  }

  /** Searching by path goes down to the right child. */
  lemma TowardIs(ns: seq<Entry>, id: nat, p: nat, i: nat)
    requires Linked(ns) && 1 <= id < |ns| && 1 <= p < |ns| && i < |KidsOf(ns, id)| && Under(ns, KidsOf(ns, id)[i], p)
    ensures KidToward(TreeOf(ns, id).kids, Lineage(ns, p)) == i && Lineage(ns, id) != Lineage(ns, p)
  {
    var kids, t := KidsOf(ns, id), TreeOf(ns, id);
    PathsNest(ns, kids[i], p);
    UnderGoesUp(ns, kids[i], p);
    forall j | 0 <= j < |kids| && j != i ensures !(t.kids[j].cfg.path <= Lineage(ns, p)) {
      SiblingsApart(ns, kids[i], kids[j], p);
      PathsNest(ns, kids[j], p);
    }
    KidTowardFinds(t.kids, Lineage(ns, p), i);
    LastOfLineage(ns, id);
    LastOfLineage(ns, p);
  }

  lemma LastOfLineage(ns: seq<Entry>, id: nat)
    requires Linked(ns) && 1 <= id < |ns|
    ensures |Lineage(ns, id)| > 0 && Lineage(ns, id)[|Lineage(ns, id)| - 1] == id
  {
    assert LinkedAt(ns, id);
  }

  lemma {:induction false} AllUnderRoot(ns: seq<Entry>, id: nat)
    requires Bookkept(ns) && 1 <= id < |ns|
    ensures Under(ns, 1, id)
  {
    assert LinkedAt(ns, id) && BookkeptAt(ns, id);
    if id > 1 { AllUnderRoot(ns, ns[id].link.parent); }
  }

  /** Looking a node up by its path finds it. */
  lemma {:induction false} LookupFinds(ns: seq<Entry>, id: nat, p: nat)
    requires Bookkept(ns) && 1 <= id < |ns| && 1 <= p < |ns| && Under(ns, id, p)
    ensures Lookup(TreeOf(ns, id), Lineage(ns, p)) == Some(TreeOf(ns, p))
    decreases |ns| - id
  {
    if id != p {
      var i := StepToward(ns, id, p);
      TowardIs(ns, id, p, i);
      KidTree(ns, id, i);
      LookupFinds(ns, KidsOf(ns, id)[i], p);
    }
  }

  // ---- adding a node ----------------------------------------------------------------------------

  /** The table after adding a node below `parent` (0 for none). */
  ghost function Grown(ns: seq<Entry>, parent: nat, c: Fixed): (r: seq<Entry>)
    requires Bookkept(ns) && |ns| > 0 && parent < |ns|
    ensures |r| == |ns| + 1
  {
    var depth := if parent == 0 then 1 else ns[parent].link.depth + 1;
    var newcomer := Entry(c, Link(parent, 0, 0, 0, depth, 0), ZeroRun(c));
    Hung(ns + [newcomer], parent)
  }

  /** The last entry of the table, hung below `parent`. */
  ghost function Hung(ns: seq<Entry>, parent: nat): (r: seq<Entry>)
    requires parent < |ns|
    ensures |r| == |ns|
  {
    if parent == 0 then ns
    else
      var l, id := ns[parent].link, |ns| - 1;
      if l.firstChild == 0 then
        Relink(ns, parent, l.(firstChild := id, lastChild := id, childCount := l.childCount + 1))
      else
        var linked := if l.lastChild < |ns|
                      then Relink(ns, l.lastChild, ns[l.lastChild].link.(nextSibling := id)) else ns;
        Relink(linked, parent, l.(lastChild := id, childCount := l.childCount + 1))
  }

  ghost function Relink(ns: seq<Entry>, id: nat, l: Link): seq<Entry>
    requires id < |ns|
  {
    ns[id := ns[id].(link := l)]
  }

  /** Run state of a new entry; the cursor is an id here. */
  function ZeroRun(c: Fixed): Run {
    Run(Failure, 0, 0, c.limit, c.duration, 0, 0, false, false, false, false, false, false, false, false)
  }

  /** What growing does to the links: ms has one more node, appended to parent's chain. */
  ghost predicate Appended(ns: seq<Entry>, ms: seq<Entry>, parent: nat) {
    && Bookkept(ns) && |ns| > 0 && parent < |ns| && |ms| == |ns| + 1
    && (parent == 0 ==> |ns| == 1)
    && ms[|ns|].link == Link(parent, 0, 0, 0, if parent == 0 then 1 else ns[parent].link.depth + 1, 0)
    && (forall j :: 1 <= j < |ns| ==> AppendedAt(ns, ms, parent, j))
  }

  ghost predicate AppendedAt(ns: seq<Entry>, ms: seq<Entry>, parent: nat, j: nat)
    requires Linked(ns) && 1 <= j < |ns| < |ms| && parent < |ns|
  {
    var l, k := ns[j].link, ms[j].link;
    && k.parent == l.parent
    && k.firstChild == (if j == parent && l.firstChild == 0 then |ns| else l.firstChild)
    && k.nextSibling == (if j == LastOf(ns, parent) then |ns| else l.nextSibling)
    && k.lastChild == (if j == parent then |ns| else l.lastChild)
    && k.childCount == (if j == parent then l.childCount + 1 else l.childCount)
    && k.depth == l.depth
    && ms[j].run == ns[j].run && ms[j].cfg == ns[j].cfg
  }

  /** The last child of a node; 0 when it has none or there is no such node. */
  ghost function LastOf(ns: seq<Entry>, id: nat): nat
    requires Linked(ns) && id < |ns|
  {
    if id == 0 || KidsOf(ns, id) == [] then 0 else KidsOf(ns, id)[|KidsOf(ns, id)| - 1]
  }

  lemma GrownAppends(ns: seq<Entry>, parent: nat, c: Fixed)
    requires Bookkept(ns) && |ns| > 0 && parent < |ns| && (parent == 0 ==> |ns| == 1)
    ensures Appended(ns, Grown(ns, parent, c), parent)
  {
    hide Lineage;
    var ms := Grown(ns, parent, c);
    if parent != 0 {
      assert BookkeptAt(ns, parent);
      FirstKid(ns, parent);
      assert LastOf(ns, parent) != parent;
    }
    forall j | 1 <= j < |ns| ensures AppendedAt(ns, ms, parent, j) {}
  }

  lemma GrownLinked(ns: seq<Entry>, ms: seq<Entry>, parent: nat)
    requires Appended(ns, ms, parent)
    ensures Linked(ms)
  {
    hide Lineage;
    forall id | 1 <= id < |ms| ensures LinkedAt(ms, id) {
      if id < |ns| {
        assert LinkedAt(ns, id) && AppendedAt(ns, ms, parent, id);
        var f, n := ns[id].link.firstChild, ns[id].link.nextSibling;
        if f != 0 { assert AppendedAt(ns, ms, parent, f); }
        if n != 0 { assert AppendedAt(ns, ms, parent, n); }
      }
    }
  }

  /** A sibling chain is unchanged, unless it is the one that was extended. */
  lemma {:induction false} ChainGrows(ns: seq<Entry>, ms: seq<Entry>, parent: nat, c: nat)
    requires Appended(ns, ms, parent) && Linked(ms) && c < |ns|
    ensures Chain(ms, c) == if LastOf(ns, parent) in Chain(ns, c) then Chain(ns, c) + [|ns|] else Chain(ns, c)
    decreases if c == 0 then 0 else |ns| - c
  {
    if c != 0 {
      assert AppendedAt(ns, ms, parent, c) && LinkedAt(ns, c);
      var n := ns[c].link.nextSibling;
      ChainGrows(ns, ms, parent, n);
      if c == LastOf(ns, parent) {
        KidStep(ns, parent, |KidsOf(ns, parent)| - 1);
        assert Chain(ns, 0) == [];
        assert Chain(ms, |ns|) == [|ns|] + Chain(ms, 0);
      }
    }
  }

  lemma LastIsChild(ns: seq<Entry>, id: nat)
    requires Linked(ns) && id < |ns|
    ensures LastOf(ns, id) != 0 ==> LastOf(ns, id) < |ns| && ns[LastOf(ns, id)].link.parent == id
    ensures id != 0 && KidsOf(ns, id) != [] ==> LastOf(ns, id) in KidsOf(ns, id) && LastOf(ns, id) > 0
  {
  }

  /** Only the parent gets a new child, at the end. */
  lemma KidsGrow(ns: seq<Entry>, ms: seq<Entry>, parent: nat, id: nat)
    requires Appended(ns, ms, parent) && Linked(ms) && 1 <= id < |ns|
    ensures KidsOf(ms, id) == if id == parent then KidsOf(ns, id) + [|ns|] else KidsOf(ns, id)
  {
    hide Lineage;
    assert AppendedAt(ns, ms, parent, id) && LinkedAt(ns, id);
    FirstKid(ns, id);
    LastIsChild(ns, parent);
    var f := ns[id].link.firstChild;
    ChainGrows(ns, ms, parent, f);
    if id == parent && f == 0 {
      assert Chain(ms, |ns|) == [|ns|] + Chain(ms, 0);
    }
  }

  lemma {:induction false} LineageGrows(ns: seq<Entry>, ms: seq<Entry>, parent: nat, id: nat)
    requires Appended(ns, ms, parent) && Linked(ms) && id < |ns|
    ensures Lineage(ms, id) == Lineage(ns, id)
    decreases id
  {
    if id != 0 {
      assert AppendedAt(ns, ms, parent, id) && LinkedAt(ns, id);
      LineageGrows(ns, ms, parent, ns[id].link.parent);
    }
  }

  /** Growing keeps the table a finite ordered tree with correct bookkeeping. */
  lemma GrownBookkept(ns: seq<Entry>, parent: nat, c: Fixed)
    requires Bookkept(ns) && |ns| > 0 && parent < |ns| && (parent == 0 ==> |ns| == 1)
    ensures Bookkept(Grown(ns, parent, c))
  {
    var ms := Grown(ns, parent, c);
    GrownAppends(ns, parent, c);
    AppendedBookkept(ns, ms, parent);
  }

  lemma AppendedBookkept(ns: seq<Entry>, ms: seq<Entry>, parent: nat)
    requires Appended(ns, ms, parent)
    ensures Bookkept(ms)
  {
    GrownLinked(ns, ms, parent);
    forall id | 1 <= id < |ms| ensures BookkeptAt(ms, id) {
      if id < |ns| { OldBookkept(ns, ms, parent, id); } else { NewBookkept(ns, ms, parent); }
    }
  }

  lemma OldBookkept(ns: seq<Entry>, ms: seq<Entry>, parent: nat, id: nat)
    requires Appended(ns, ms, parent) && Linked(ms) && 1 <= id < |ns|
    ensures BookkeptAt(ms, id)
  {
    hide Lineage, KidsOf;
    assert BookkeptAt(ns, id) && LinkedAt(ns, id);
    assert AppendedAt(ns, ms, parent, id);
    KidsGrow(ns, ms, parent, id);
    LineageGrows(ns, ms, parent, id);
    if id > 1 { KidsGrow(ns, ms, parent, ns[id].link.parent); }
  }

  lemma NewBookkept(ns: seq<Entry>, ms: seq<Entry>, parent: nat)
    requires Appended(ns, ms, parent) && Linked(ms)
    ensures BookkeptAt(ms, |ns|)
  {
    assert LinkedAt(ms, |ns|) && KidsOf(ms, |ns|) == [];
    assert Lineage(ms, |ns|) == Lineage(ms, parent) + [|ns|];
    if parent != 0 {
      assert BookkeptAt(ns, parent);
      KidsGrow(ns, ms, parent, parent);
      LineageGrows(ns, ms, parent, parent);
    }
  }

  // ---- the tree value of a grown table --------------------------------------------------------------

  lemma {:induction false} IndexGrows(kids: seq<nat>, n: nat, c: nat)
    requires c != n
    ensures IndexOf(kids + [n], c) == IndexOf(kids, c)
  {
    var k := kids + [n];
    assert k[..|k| - 1] == kids;
  }

  /** An old node keeps its configuration and run state. */
  lemma NodeGrows(ns: seq<Entry>, ms: seq<Entry>, parent: nat, id: nat)
    requires Appended(ns, ms, parent) && Linked(ms) && CursorsOk(ns) && 1 <= id < |ns|
    ensures CursorOk(ms, id)
    ensures TreeOf(ms, id).cfg == TreeOf(ns, id).cfg && TreeOf(ms, id).run == TreeOf(ns, id).run
  {
    hide KidsOf, TreeOf, Lineage;
    assert CursorOk(ns, id) && AppendedAt(ns, ms, parent, id);
    KidsGrow(ns, ms, parent, id);
    LineageGrows(ns, ms, parent, id);
    if id == parent && ns[id].run.cursor >= 0 { IndexGrows(KidsOf(ns, id), |ns|, ns[id].run.cursor); }
  }

  /** The tree value after adding a node: the new node is the last child of its parent. */
  ghost function AddedTree(ns: seq<Entry>, ms: seq<Entry>, parent: nat, id: nat): Tree
    requires Linked(ns) && Linked(ms) && 1 <= id < |ns| < |ms| && parent < |ns|
  {
    if parent != 0 && Under(ns, id, parent)
    then AddAt(TreeOf(ns, id), Lineage(ns, parent), TreeOf(ms, |ns|)) else TreeOf(ns, id)
  }

  lemma {:induction false} TreeGrows(ns: seq<Entry>, ms: seq<Entry>, parent: nat, id: nat)
    requires Appended(ns, ms, parent) && Linked(ms) && CursorsOk(ns) && 1 <= id < |ns|
    ensures TreeOf(ms, id) == AddedTree(ns, ms, parent, id)
    decreases |ns| - id
  {
    hide Lineage, Appended, CursorsOk, KidsOf, AddAt;
    AppendedParts(ns, ms, parent);
    KidsGrow(ns, ms, parent, id);
    NodeGrows(ns, ms, parent, id);
    var kids := KidsOf(ns, id);
    forall i | 0 <= i < |kids| ensures TreeOf(ms, kids[i]) == AddedTree(ns, ms, parent, kids[i]) {
      TreeGrows(ns, ms, parent, kids[i]);
    }
    if parent == id {
      AddedHere(ns, ms, id);
    } else if parent != 0 && Under(ns, id, parent) {
      var i := StepToward(ns, id, parent);
      AddedBelow(ns, ms, parent, id, i);
    } else {
      AddedElsewhere(ns, ms, parent, id);
    }
  }

  lemma AppendedParts(ns: seq<Entry>, ms: seq<Entry>, parent: nat)
    requires Appended(ns, ms, parent)
    ensures Bookkept(ns) && parent < |ns| && |ms| == |ns| + 1
  {
  }

  lemma AddedHere(ns: seq<Entry>, ms: seq<Entry>, id: nat)
    requires Linked(ns) && Linked(ms) && 1 <= id < |ns| < |ms|
    requires TreeOf(ms, id).cfg == TreeOf(ns, id).cfg && TreeOf(ms, id).run == TreeOf(ns, id).run
    requires KidsOf(ms, id) == KidsOf(ns, id) + [|ns|]
    requires forall i :: 0 <= i < |KidsOf(ns, id)| ==>
      TreeOf(ms, KidsOf(ns, id)[i]) == AddedTree(ns, ms, id, KidsOf(ns, id)[i])
    ensures TreeOf(ms, id) == AddedTree(ns, ms, id, id)
  {
    hide Lineage, KidsOf;
    var kids := KidsOf(ns, id);
    forall i | 0 <= i < |kids| ensures TreeOf(ms, kids[i]) == TreeOf(ns, kids[i]) {
      if Under(ns, kids[i], id) { UnderGoesUp(ns, kids[i], id); }
    }
    assert TreeOf(ms, id).kids == TreeOf(ns, id).kids + [TreeOf(ms, |ns|)];
  }

  lemma AddedBelow(ns: seq<Entry>, ms: seq<Entry>, parent: nat, id: nat, k: nat)
    requires Linked(ns) && Linked(ms) && 1 <= id < |ns| < |ms| && 1 <= parent < |ns| && parent != id
    requires TreeOf(ms, id).cfg == TreeOf(ns, id).cfg && TreeOf(ms, id).run == TreeOf(ns, id).run
    requires KidsOf(ms, id) == KidsOf(ns, id)
    requires forall i :: 0 <= i < |KidsOf(ns, id)| ==>
      TreeOf(ms, KidsOf(ns, id)[i]) == AddedTree(ns, ms, parent, KidsOf(ns, id)[i])
    requires Under(ns, id, parent) && k < |KidsOf(ns, id)| && Under(ns, KidsOf(ns, id)[k], parent)
    ensures TreeOf(ms, id) == AddedTree(ns, ms, parent, id)
  {
    hide Lineage, KidsOf;
    var kids := KidsOf(ns, id);
    TowardIs(ns, id, parent, k);
    forall i | 0 <= i < |kids| && i != k ensures TreeOf(ms, kids[i]) == TreeOf(ns, kids[i]) {
      SiblingsApart(ns, kids[k], kids[i], parent);
    }
    assert TreeOf(ms, id).kids == TreeOf(ns, id).kids[k := TreeOf(ms, kids[k])];
  }

  lemma AddedElsewhere(ns: seq<Entry>, ms: seq<Entry>, parent: nat, id: nat)
    requires Linked(ns) && Linked(ms) && 1 <= id < |ns| < |ms| && parent < |ns| && parent != id
    requires TreeOf(ms, id).cfg == TreeOf(ns, id).cfg && TreeOf(ms, id).run == TreeOf(ns, id).run
    requires KidsOf(ms, id) == KidsOf(ns, id)
    requires forall i :: 0 <= i < |KidsOf(ns, id)| ==>
      TreeOf(ms, KidsOf(ns, id)[i]) == AddedTree(ns, ms, parent, KidsOf(ns, id)[i])
    requires parent == 0 || !Under(ns, id, parent)
    ensures TreeOf(ms, id) == AddedTree(ns, ms, parent, id)
  {
    hide Lineage, KidsOf;
    var kids := KidsOf(ns, id);
    forall i | 0 <= i < |kids| ensures TreeOf(ms, kids[i]) == TreeOf(ns, kids[i]) {
      if parent != 0 && Under(ns, kids[i], parent) { UnderKid(ns, id, kids[i], parent); }
    }
    assert TreeOf(ms, id).kids == TreeOf(ns, id).kids;
  }

  // ---- changing one subtree, and checking all nodes ----------------------------------------------------

  /** A resolver set at node p in the table is set at its path in the tree value. */
  lemma {:induction false} ResolverClimbs(
    ns: seq<Entry>, ms: seq<Entry>, id: nat, p: nat, s: State, r: State, res: Resolver)
    requires Bookkept(ns) && Only(ns, ms, p) && 1 <= id < |ns| && 1 <= p < |ns| && Under(ns, id, p)
    requires s.t == TreeOf(ns, id) && r.t == TreeOf(ms, p)
    requires ResolverAt(s.(t := TreeOf(ns, p)), Lineage(ns, p), res) == r
    ensures ResolverAt(s, Lineage(ns, p), res) == r.(t := TreeOf(ms, id))
    decreases |ns| - id
  {
    if id != p {
      var i := StepToward(ns, id, p);
      TowardIs(ns, id, p, i);
      KidTree(ns, id, i);
      var c := KidsOf(ns, id)[i];
      OnlyWider(ns, ms, p, c);
      WriteKid(ns, ms, id, i);
      ResolverClimbs(ns, ms, c, p, s.(t := TreeOf(ns, c)), r, res);
    }
  }

  lemma OnlyWider(ns: seq<Entry>, ms: seq<Entry>, p: nat, a: nat)
    requires Only(ns, ms, p) && 1 <= a < |ns| && 1 <= p < |ns| && Under(ns, a, p)
    ensures Only(ns, ms, a)
  {
    forall j | 0 <= j < |ns| && !Under(ns, a, j) ensures ns[j] == ms[j] {
      if Under(ns, p, j) { UnderTrans(ns, a, p, j); }
    }
  }

  ghost predicate AllValid(m: nat, maxDepth: nat, ns: seq<Entry>)
    requires Linked(ns)
  {
    forall id :: 1 <= id < |ns| ==> ValidNode(m, maxDepth, TreeOf(ns, id))
  }

  lemma {:induction false} ValidBelow(m: nat, maxDepth: nat, ns: seq<Entry>, id: nat)
    requires Linked(ns) && 1 <= id < |ns| && AllValid(m, maxDepth, ns)
    ensures ValidTree(m, maxDepth, TreeOf(ns, id))
    decreases |ns| - id
  {
    hide ValidNode;
    var kids := KidsOf(ns, id);
    forall i | 0 <= i < |kids| ensures ValidTree(m, maxDepth, TreeOf(ns, id).kids[i]) {
      KidTree(ns, id, i);
      ValidBelow(m, maxDepth, ns, kids[i]);
    }
  }

  lemma {:induction false} ValidReaches(m: nat, maxDepth: nat, ns: seq<Entry>, id: nat, p: nat)
    requires Bookkept(ns) && 1 <= id < |ns| && 1 <= p < |ns| && Under(ns, id, p)
    requires ValidTree(m, maxDepth, TreeOf(ns, id))
    ensures ValidNode(m, maxDepth, TreeOf(ns, p))
    decreases |ns| - id
  {
    hide ValidNode;
    if id != p {
      var i := StepToward(ns, id, p);
      KidTree(ns, id, i);
      ValidReaches(m, maxDepth, ns, KidsOf(ns, id)[i], p);
    }
  }

  /** Checking every entry of the table is checking the tree. */
  lemma ValidEverywhere(m: nat, maxDepth: nat, ns: seq<Entry>)
    requires Bookkept(ns) && |ns| > 1
    ensures ValidTree(m, maxDepth, TreeOf(ns, 1)) <==> AllValid(m, maxDepth, ns)
  {
    hide ValidNode, ValidTree;
    if ValidTree(m, maxDepth, TreeOf(ns, 1)) {
      forall id | 1 <= id < |ns| ensures ValidNode(m, maxDepth, TreeOf(ns, id)) {
        AllUnderRoot(ns, id);
        ValidReaches(m, maxDepth, ns, 1, id);
      }
    }
    if AllValid(m, maxDepth, ns) {
      ValidBelow(m, maxDepth, ns, 1);
    }
  }

  // ---- one entry against one node of the tree value ------------------------------------------------------

  /** The checks of the library on one table entry. */
  predicate ValidEntry(m: nat, maxDepth: nat, e: Entry) {
    var k := e.cfg.kind;
    && 0 < e.link.depth <= maxDepth
    && CountValid(k, e.cfg.condition, e.link.childCount)
    && (k == Retry || k == WhileDo || k == KeepRunning ==>
          e.run.limit <= m && (e.run.limit == 0 ==> e.cfg.resolver.LimitResolver?))
    && (k == Repeat ==> e.run.limit <= m)
  }

  lemma EntryIsNode(m: nat, maxDepth: nat, ns: seq<Entry>, id: nat)
    requires Bookkept(ns) && 1 <= id < |ns|
    ensures ValidEntry(m, maxDepth, ns[id]) <==> ValidNode(m, maxDepth, TreeOf(ns, id))
  {
    hide Lineage, KidsOf;
    assert BookkeptAt(ns, id);
  }

  /** Room for one more child, read off the entry. */
  predicate EntryHasRoom(e: Entry) {
    var k, n, c := e.cfg.kind, e.link.childCount, e.cfg.condition;
    && k != Leaf
    && (IsSingleChild(k) ==> n < 1)
    && (k == IfThenElse ==> n < if c then 2 else 3)
    && (k == Precondition || k == WhileDo ==> n < if c then 1 else 2)
  }

  function Build(n: NodeSpec): Fixed {
    Fixed(n.kind, n.halt, n.condition, n.hooks, n.abort, n.limit, n.duration, NoResolver)
  }

  lemma GrownCursors(ns: seq<Entry>, parent: nat, c: Fixed)
    requires Bookkept(ns) && |ns| > 0 && parent < |ns| && (parent == 0 ==> |ns| == 1) && CursorsOk(ns)
    requires Linked(Grown(ns, parent, c))
    ensures CursorsOk(Grown(ns, parent, c))
  {
    hide KidsOf, Lineage;
    var ms := Grown(ns, parent, c);
    GrownAppends(ns, parent, c);
    forall id | 1 <= id < |ms| ensures CursorOk(ms, id) {
      if id < |ns| { NodeGrows(ns, ms, parent, id); }
    }
  }

  lemma NewTree(ns: seq<Entry>, parent: nat, n: NodeSpec)
    requires Bookkept(ns) && |ns| > 0 && parent < |ns| && (parent == 0 ==> |ns| == 1)
    requires Linked(Grown(ns, parent, Build(n)))
    ensures TreeOf(Grown(ns, parent, Build(n)), |ns|) == NewNode(Lineage(ns, parent) + [|ns|], n)
  {
    var ms := Grown(ns, parent, Build(n));
    GrownAppends(ns, parent, Build(n));
    assert LinkedAt(ms, |ns|) && KidsOf(ms, |ns|) == [];
    assert Lineage(ms, |ns|) == Lineage(ms, parent) + [|ns|];
    LineageGrows(ns, ms, parent, parent);
  }

  /** The machine that a table stands for. */
  ghost function Shown(
    m: nat, maxNodes: nat, maxDepth: nat, script: seq<Answer>, trace: seq<Event>, ns: seq<Entry>): Machine
    requires Linked(ns) && |ns| > 0
  {
    Machine(m, maxNodes, maxDepth, |ns| - 1, script, trace, if |ns| == 1 then None else Some(TreeOf(ns, 1)))
  }

  /** The path by which the machine knows node id; unknown ids get a path that no node has. */
  ghost function PathOf(ns: seq<Entry>, id: nat): Path
    requires Linked(ns)
  {
    if 1 <= id < |ns| then Lineage(ns, id) else []
  }

  lemma NoSuchNode(t: Tree)
    requires t.cfg.path != []
    requires forall i :: 0 <= i < |t.kids| ==> t.kids[i].cfg.path != []
    ensures Lookup(t, []) == None
  {
  }

  lemma Found(ns: seq<Entry>, id: nat)
    requires Bookkept(ns) && |ns| > 1
    ensures Lookup(TreeOf(ns, 1), PathOf(ns, id)) == if 1 <= id < |ns| then Some(TreeOf(ns, id)) else None
  {
    hide Lookup;
    if 1 <= id < |ns| {
      AllUnderRoot(ns, id);
      LookupFinds(ns, 1, id);
    } else {
      LastOfLineage(ns, 1);
      var kids := KidsOf(ns, 1);
      forall i | 0 <= i < |kids| ensures TreeOf(ns, 1).kids[i].cfg.path != [] {
        KidTree(ns, 1, i);
        LastOfLineage(ns, kids[i]);
      }
      NoSuchNode(TreeOf(ns, 1));
    }
  }

  /** The outcome of the library's checks, in its order. */
  ghost function EntryAddCode(m: nat, maxNodes: nat, maxDepth: nat, ns: seq<Entry>, parent: nat, n: NodeSpec): Code
    requires |ns| > 0
  {
    if !Proper(n) || !LimitAccepted(m, n) then EInval
    else if parent == 0 && |ns| > 1 then EInval
    else if parent >= |ns| then EInval
    else if parent != 0 && (!EntryHasRoom(ns[parent]) || ns[parent].link.depth + 1 > maxDepth) then EInval
    else if |ns| - 1 >= maxNodes then ENoBufs
    else Ok
  }

  lemma CodeAgrees(x: Machine, ns: seq<Entry>, parent: nat, n: NodeSpec)
    requires Bookkept(ns) && |ns| > 0 && x == Shown(x.m, x.maxNodes, x.maxDepth, x.script, x.trace, ns)
    ensures AddCode(x, if parent == 0 then None else Some(PathOf(ns, parent)), n) ==
      EntryAddCode(x.m, x.maxNodes, x.maxDepth, ns, parent, n)
  {
    hide Lineage, KidsOf, Lookup, Proper, LimitAccepted;
    if |ns| > 1 { Found(ns, parent); }
    if 1 <= parent < |ns| { assert BookkeptAt(ns, parent); }
  }

  /** Adding to the table is adding to the machine. */
  lemma GrownIsAdded(x: Machine, ns: seq<Entry>, parent: nat, n: NodeSpec)
    requires Bookkept(ns) && |ns| > 0 && CursorsOk(ns)
    requires x == Shown(x.m, x.maxNodes, x.maxDepth, x.script, x.trace, ns)
    requires EntryAddCode(x.m, x.maxNodes, x.maxDepth, ns, parent, n).Ok?
    ensures var ms := Grown(ns, parent, Build(n));
      && Bookkept(ms) && CursorsOk(ms)
      && AddNode(x, if parent == 0 then None else Some(PathOf(ns, parent)), n) ==
         Reply(Shown(x.m, x.maxNodes, x.maxDepth, x.script, x.trace, ms), Ok, Failure)
  {
    hide Lookup, Proper, LimitAccepted, Lineage, Grown, AddCode, EntryAddCode, KidsOf, TreeOf, AddAt;
    assert (parent == 0 ==> |ns| == 1) && parent < |ns| by { CodeParts(x.m, x.maxNodes, x.maxDepth, ns, parent, n); }
    var ms := Grown(ns, parent, Build(n));
    CodeAgrees(x, ns, parent, n);
    GrownBookkept(ns, parent, Build(n));
    GrownCursors(ns, parent, Build(n));
    GrownAppends(ns, parent, Build(n));
    NewTree(ns, parent, n);
    if parent != 0 {
      TreeGrows(ns, ms, parent, 1);
      AllUnderRoot(ns, parent);
    } else {
      assert Lineage(ns, 0) + [1] == [1] by { NoLineage(ns); }
    }
  }

  lemma NoLineage(ns: seq<Entry>)
    requires Linked(ns) && |ns| > 0
    ensures Lineage(ns, 0) == []
  {
  }

  lemma CodeParts(m: nat, maxNodes: nat, maxDepth: nat, ns: seq<Entry>, parent: nat, n: NodeSpec)
    requires |ns| > 0 && EntryAddCode(m, maxNodes, maxDepth, ns, parent, n).Ok?
    ensures (parent == 0 ==> |ns| == 1) && parent < |ns| <= maxNodes
  {
  }

  /** The checks before a resolver is installed, read off the table. */
  lemma ResolverChecks(x: Machine, ns: seq<Entry>, id: nat, r: Resolver)
    requires Bookkept(ns) && |ns| > 0 && x == Shown(x.m, x.maxNodes, x.maxDepth, x.script, x.trace, ns)
    ensures !(1 <= id < |ns|) ==> PutResolver(x, PathOf(ns, id), r) == Reply(x, EInval, Failure)
    ensures 1 <= id < |ns| && Unfit(ns[id].cfg.kind, r) ==>
      PutResolver(x, PathOf(ns, id), r) == Reply(x, EInval, Failure)
    ensures 1 <= id < |ns| && !Unfit(ns[id].cfg.kind, r) && ns[id].cfg.resolver == r ==>
      PutResolver(x, PathOf(ns, id), r) == Reply(x, Ok, Failure)
    ensures 1 <= id < |ns| && !Unfit(ns[id].cfg.kind, r) && ns[id].cfg.resolver != r ==>
      var s := ResolverAt(State(x.script, x.trace, TreeOf(ns, 1)), PathOf(ns, id), r);
      PutResolver(x, PathOf(ns, id), r) == Reply(Rooted(x, s), Ok, Failure)
  {
    hide Lookup, ResolverAt, PathOf, Lineage, KidsOf;
    if |ns| > 1 { Found(ns, id); }
  }

  /** A resolver for a parameter that this kind of node does not have. */
  predicate Unfit(k: Kind, r: Resolver) {
    (r.LimitResolver? && !IsLoop(k)) || (r.DurationResolver? && !IsTimed(k))
  }
}
