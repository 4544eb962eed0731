/** The node table of the library: nodes in one buffer, linked by ids, and the tree value
    that such a table stands for. Id 0 means "no node". */
module BtArena {
  import opened BtTypes

  /** Constructor-time part of a node. */
  datatype Fixed = Fixed(
    kind: Kind, halt: bool, condition: bool, hooks: bool, abort: bool,
    limit: nat, duration: nat, resolver: Resolver)

  datatype Link = Link(
    parent: nat, firstChild: nat, lastChild: nat, nextSibling: nat, depth: nat, childCount: nat)

  /** A table entry. `run.cursor` holds a node id here (0 for none). */
  datatype Entry = Entry(cfg: Fixed, link: Link, run: Run)

  // ---- links go forward: parents before children, siblings in order of their ids -------

  ghost predicate LinkedAt(ns: seq<Entry>, id: nat)
    requires id < |ns|
  {
    var l := ns[id].link;
    && l.parent < id
    && (l.firstChild == 0 || (id < l.firstChild < |ns| && ns[l.firstChild].link.parent == id))
    && (l.nextSibling == 0 || (id < l.nextSibling < |ns| && ns[l.nextSibling].link.parent == l.parent))
  }

  ghost predicate Linked(ns: seq<Entry>) {
    forall id :: 1 <= id < |ns| ==> LinkedAt(ns, id)
  }

  /** Ids along a sibling chain. */
  ghost function Chain(ns: seq<Entry>, c: nat): (r: seq<nat>)
    requires Linked(ns) && (c == 0 || c < |ns|)
    ensures forall i :: 0 <= i < |r| ==> c <= r[i] < |ns| && 0 < r[i] && ns[r[i]].link.parent == ns[c].link.parent
    ensures forall i, j :: 0 <= i < j < |r| ==> r[i] < r[j]
    ensures c != 0 ==> |r| > 0 && r[0] == c
    ensures c == 0 ==> r == []
    decreases if c == 0 then 0 else |ns| - c
  {
    if c == 0 then []
    else
      assert LinkedAt(ns, c);
      [c] + Chain(ns, ns[c].link.nextSibling)
  }

  ghost function KidsOf(ns: seq<Entry>, id: nat): (r: seq<nat>)
    requires Linked(ns) && 1 <= id < |ns|
    ensures forall i :: 0 <= i < |r| ==> id < r[i] < |ns| && ns[r[i]].link.parent == id
    ensures forall i, j :: 0 <= i < j < |r| ==> r[i] < r[j]
  {
    assert LinkedAt(ns, id);
    Chain(ns, ns[id].link.firstChild)
  }

  ghost function Lineage(ns: seq<Entry>, id: nat): Path
    requires Linked(ns) && id < |ns|
  {
    if id == 0 then []
    else
      assert LinkedAt(ns, id);
      Lineage(ns, ns[id].link.parent) + [id]
  }

  ghost function CfgOf(ns: seq<Entry>, id: nat): Config
    requires Linked(ns) && id < |ns|
  {
    var c := ns[id].cfg;
    Config(Lineage(ns, id), c.kind, c.halt, c.condition, c.hooks, c.abort, c.limit, c.duration, c.resolver)
  }

  /** Position of an id in a chain, or NO_CHILD. */
  ghost function IndexOf(chain: seq<nat>, c: nat): (i: int)
    ensures -1 <= i < |chain| && (i >= 0 ==> chain[i] == c) && (i < 0 ==> c !in chain)
  {
    if chain == [] then NO_CHILD
    else if chain[|chain| - 1] == c then |chain| - 1
    else IndexOf(chain[..|chain| - 1], c)
  }

  /** The run state as the tree value has it: the cursor becomes a child index. */
  ghost function RunView(ns: seq<Entry>, id: nat, r: Run): Run
    requires Linked(ns) && 1 <= id < |ns|
  {
    r.(cursor := if r.cursor < 0 then NO_CHILD else IndexOf(KidsOf(ns, id), r.cursor))
  }

  ghost function TreeOf(ns: seq<Entry>, id: nat): (t: Tree)
    requires Linked(ns) && 1 <= id < |ns|
    ensures t.cfg == CfgOf(ns, id) && t.run == RunView(ns, id, ns[id].run)
    ensures |t.kids| == |KidsOf(ns, id)|
    decreases |ns| - id
  {
    var kids := KidsOf(ns, id);
    Node(CfgOf(ns, id), RunView(ns, id, ns[id].run),
         seq(|kids|, i requires 0 <= i < |kids| => TreeOf(ns, kids[i])))
  }

  lemma KidTree(ns: seq<Entry>, id: nat, i: nat)
    requires Linked(ns) && 1 <= id < |ns| && i < |KidsOf(ns, id)|
    ensures TreeOf(ns, id).kids[i] == TreeOf(ns, KidsOf(ns, id)[i])
  {
  }

  lemma IndexUnique(chain: seq<nat>, i: nat)
    requires i < |chain| && forall a, b :: 0 <= a < b < |chain| ==> chain[a] < chain[b]
    ensures IndexOf(chain, chain[i]) == i
  {
  }

  /** The next sibling of child i is child i + 1, and the last child has none. */
  lemma {:induction false} ChainStep(ns: seq<Entry>, c: nat, i: nat)
    requires Linked(ns) && 0 < c < |ns| && i < |Chain(ns, c)|
    ensures var r := Chain(ns, c);
      ns[r[i]].link.nextSibling == if i + 1 < |r| then r[i + 1] else 0
    decreases i
  {
    assert LinkedAt(ns, c);
    var next := ns[c].link.nextSibling;
    if i > 0 { ChainStep(ns, next, i - 1); }
  }

  lemma KidStep(ns: seq<Entry>, id: nat, i: nat)
    requires Linked(ns) && 1 <= id < |ns| && i < |KidsOf(ns, id)|
    ensures var r := KidsOf(ns, id);
      ns[r[i]].link.nextSibling == if i + 1 < |r| then r[i + 1] else 0
  {
    assert LinkedAt(ns, id);
    ChainStep(ns, ns[id].link.firstChild, i);
  }

  lemma FirstKid(ns: seq<Entry>, id: nat)
    requires Linked(ns) && 1 <= id < |ns|
    ensures ns[id].link.firstChild == if KidsOf(ns, id) == [] then 0 else KidsOf(ns, id)[0]
  {
    assert LinkedAt(ns, id);
  }

  // ---- subtrees and framing -----------------------------------------------------------------

  /** Node j lies in the subtree of node a. */
  ghost predicate Under(ns: seq<Entry>, a: nat, j: nat)
    requires Linked(ns) && j < |ns|
    decreases j
  {
    a == j || (j > a && (assert LinkedAt(ns, j); Under(ns, a, ns[j].link.parent)))
  }

  lemma {:induction false} UnderKid(ns: seq<Entry>, id: nat, c: nat, j: nat)
    requires Linked(ns) && 1 <= id < |ns| && 1 <= c < |ns| && j < |ns|
    requires ns[c].link.parent == id && Under(ns, c, j)
    ensures Under(ns, id, j) && j != id
    decreases j
  {
    assert LinkedAt(ns, c);
    assert LinkedAt(ns, j);
    if c != j { UnderKid(ns, id, c, ns[j].link.parent); }
  }

  /** Subtrees of different siblings share no node. */
  lemma {:induction false} SiblingsApart(ns: seq<Entry>, c: nat, d: nat, j: nat)
    requires Linked(ns) && 1 <= c < |ns| && 1 <= d < |ns| && j < |ns| && c != d
    requires ns[c].link.parent == ns[d].link.parent && Under(ns, c, j)
    ensures !Under(ns, d, j)
    decreases j
  {
    assert LinkedAt(ns, c);
    assert LinkedAt(ns, d);
    assert LinkedAt(ns, j);
    if c != j && d != j { SiblingsApart(ns, c, d, ns[j].link.parent); }
  }

  /** Two states of the same node structure. */
  ghost predicate SameLinks(ns: seq<Entry>, ms: seq<Entry>) {
    |ns| == |ms| && forall j :: 0 <= j < |ns| ==> ns[j].link == ms[j].link
  }

  lemma LinkedSame(ns: seq<Entry>, ms: seq<Entry>)
    requires Linked(ns) && SameLinks(ns, ms)
    ensures Linked(ms)
  {
    forall id | 1 <= id < |ms| ensures LinkedAt(ms, id) { assert LinkedAt(ns, id); }
  }

  lemma {:induction false} ChainSame(ns: seq<Entry>, ms: seq<Entry>, c: nat)
    requires Linked(ns) && Linked(ms) && SameLinks(ns, ms) && (c == 0 || c < |ns|)
    ensures Chain(ns, c) == Chain(ms, c)
    decreases if c == 0 then 0 else |ns| - c
  {
    if c != 0 {
      assert LinkedAt(ns, c);
      ChainSame(ns, ms, ns[c].link.nextSibling);
    }
  }

  lemma KidsSame(ns: seq<Entry>, ms: seq<Entry>, id: nat)
    requires Linked(ns) && Linked(ms) && SameLinks(ns, ms) && 1 <= id < |ns|
    ensures KidsOf(ns, id) == KidsOf(ms, id)
  {
    assert LinkedAt(ns, id);
    ChainSame(ns, ms, ns[id].link.firstChild);
  }

  lemma {:induction false} LineageSame(ns: seq<Entry>, ms: seq<Entry>, id: nat)
    requires Linked(ns) && Linked(ms) && SameLinks(ns, ms) && id < |ns|
    ensures Lineage(ns, id) == Lineage(ms, id)
    decreases id
  {
    if id != 0 {
      assert LinkedAt(ns, id);
      LineageSame(ns, ms, ns[id].link.parent);
    }
  }

  lemma {:induction false} UnderSame(ns: seq<Entry>, ms: seq<Entry>, a: nat, j: nat)
    requires Linked(ns) && Linked(ms) && SameLinks(ns, ms) && j < |ns|
    ensures Under(ns, a, j) == Under(ms, a, j)
    decreases j
  {
    if j > a {
      assert LinkedAt(ns, j);
      UnderSame(ns, ms, a, ns[j].link.parent);
    }
  }

  /** A tree value depends only on the nodes of its subtree. */
  lemma {:induction false} TreeFrame(ns: seq<Entry>, ms: seq<Entry>, id: nat)
    requires Linked(ns) && Linked(ms) && SameLinks(ns, ms) && 1 <= id < |ns|
    requires forall j :: 0 <= j < |ns| && Under(ns, id, j) ==> ns[j] == ms[j]
    ensures TreeOf(ns, id) == TreeOf(ms, id)
    decreases |ns| - id
  {
    KidsSame(ns, ms, id);
    LineageSame(ns, ms, id);
    assert Under(ns, id, id);
    var kids := KidsOf(ns, id);
    forall i | 0 <= i < |kids| ensures TreeOf(ns, kids[i]) == TreeOf(ms, kids[i]) {
      forall j | 0 <= j < |ns| && Under(ns, kids[i], j) ensures ns[j] == ms[j] {
        UnderKid(ns, id, kids[i], j);
      }
      TreeFrame(ns, ms, kids[i]);
    }
    assert TreeOf(ns, id).kids == TreeOf(ms, id).kids;
  }

  /** Writing a node's own run state changes exactly that in its tree value. */
  lemma WriteRun(ns: seq<Entry>, id: nat, r: Run)
    requires Linked(ns) && 1 <= id < |ns|
    ensures var ms := ns[id := ns[id].(run := r)];
      && Linked(ms) && SameLinks(ns, ms)
      && TreeOf(ms, id) == TreeOf(ns, id).(run := RunView(ns, id, r))
  {
    hide RunView, Under, Lineage;
    var ms := ns[id := ns[id].(run := r)];
    LinkedSame(ns, ms);
    KidsSame(ns, ms, id);
    LineageSame(ns, ms, id);
    KidTreesKept(ns, ms, id);
    RunViewSame(ns, ms, id, r);
  }

  /** Writing a node's entry, links excepted, changes exactly its configuration and run state. */
  lemma WriteEntry(ns: seq<Entry>, id: nat, e: Entry)
    requires Linked(ns) && 1 <= id < |ns| && e.link == ns[id].link
    ensures var ms := ns[id := e];
      && Linked(ms) && SameLinks(ns, ms)
      && TreeOf(ms, id) == Node(CfgOf(ms, id), RunView(ns, id, e.run), TreeOf(ns, id).kids)
      && CfgOf(ms, id).path == CfgOf(ns, id).path
  {
    hide RunView, Under, Lineage;
    var ms := ns[id := e];
    LinkedSame(ns, ms);
    KidsSame(ns, ms, id);
    LineageSame(ns, ms, id);
    KidTreesKept(ns, ms, id);
    RunViewSame(ns, ms, id, e.run);
  }

  lemma RunViewSame(ns: seq<Entry>, ms: seq<Entry>, id: nat, r: Run)
    requires Linked(ns) && Linked(ms) && SameLinks(ns, ms) && 1 <= id < |ns|
    ensures RunView(ns, id, r) == RunView(ms, id, r)
  {
    KidsSame(ns, ms, id);
  }

  lemma KidTreesKept(ns: seq<Entry>, ms: seq<Entry>, id: nat)
    requires Linked(ns) && Linked(ms) && SameLinks(ns, ms) && 1 <= id < |ns|
    requires forall j :: 0 <= j < |ns| && j != id ==> ns[j] == ms[j]
    ensures TreeOf(ms, id).kids == TreeOf(ns, id).kids
  {
    KidsSame(ns, ms, id);
    var kids := KidsOf(ns, id);
    forall i | 0 <= i < |kids| ensures TreeOf(ns, kids[i]) == TreeOf(ms, kids[i]) {
      forall j | 0 <= j < |ns| && Under(ns, kids[i], j) ensures ns[j] == ms[j] {
        UnderKid(ns, id, kids[i], j);
      }
      TreeFrame(ns, ms, kids[i]);
    }
  }

  /** Only the subtree of `id` has changed. */
  ghost predicate Only(ns: seq<Entry>, ms: seq<Entry>, id: nat) {
    Linked(ns) && Linked(ms) && SameLinks(ns, ms) && forall j :: 0 <= j < |ns| && !Under(ns, id, j) ==> ns[j] == ms[j]
  }

  /** A change inside child i replaces that child in the parent's tree value. */
  lemma WriteKid(ns: seq<Entry>, ms: seq<Entry>, id: nat, i: nat)
    requires Linked(ns) && 1 <= id < |ns| && i < |KidsOf(ns, id)|
    requires Only(ns, ms, KidsOf(ns, id)[i])
    ensures Only(ns, ms, id) && KidsOf(ms, id) == KidsOf(ns, id) && ns[id] == ms[id]
    ensures TreeOf(ms, id) ==
      TreeOf(ns, id).(kids := TreeOf(ns, id).kids[i := TreeOf(ms, KidsOf(ns, id)[i])])
  {
    KidsSame(ns, ms, id);
    LineageSame(ns, ms, id);
    var kids := KidsOf(ns, id);
    var c := kids[i];
    forall j | 0 <= j < |ns| && !Under(ns, id, j) ensures ns[j] == ms[j] {
      if Under(ns, c, j) { UnderKid(ns, id, c, j); }
    }
    assert !Under(ns, c, id);
    forall k | 0 <= k < |kids| && k != i ensures TreeOf(ns, kids[k]) == TreeOf(ms, kids[k]) {
      forall j | 0 <= j < |ns| && Under(ns, kids[k], j) ensures ns[j] == ms[j] {
        SiblingsApart(ns, kids[k], c, j);
      }
      TreeFrame(ns, ms, kids[k]);
    }
    assert TreeOf(ms, id).kids == TreeOf(ns, id).kids[i := TreeOf(ms, c)];
  }

  lemma OnlyTrans(ns: seq<Entry>, ms: seq<Entry>, qs: seq<Entry>, id: nat)
    requires Only(ns, ms, id) && Only(ms, qs, id)
    ensures Only(ns, qs, id)
  {
    forall j | 0 <= j < |ns| && !Under(ns, id, j) ensures ns[j] == qs[j] {
      UnderSame(ns, ms, id, j);
    }
  }

  /** Every cursor is 0 or names a child of its node. */
  ghost predicate CursorsOk(ns: seq<Entry>)
    requires Linked(ns)
  {
    forall id :: 1 <= id < |ns| ==> CursorOk(ns, id)
  }

  ghost predicate CursorOk(ns: seq<Entry>, id: nat)
    requires Linked(ns) && 1 <= id < |ns|
  {
    ns[id].run.cursor == 0 || ns[id].run.cursor in KidsOf(ns, id)
  }

  /** The children of a node, as a total function. */
  ghost function Kids(ns: seq<Entry>, id: nat): seq<nat> {
    if Linked(ns) && 1 <= id < |ns| then KidsOf(ns, id) else []
  }

  /** c is child i in the list; "no child" is 0 and NO_CHILD. */
  ghost predicate Nth(kids: seq<nat>, c: nat, i: int) {
    if c == 0 then i == NO_CHILD else 0 <= i < |kids| && kids[i] == c
  }

  /** What reading a table entry tells about the tree value t of the node. */
  ghost predicate Mirrors(e: Entry, t: Tree) {
    && t.cfg == Config(t.cfg.path, e.cfg.kind, e.cfg.halt, e.cfg.condition, e.cfg.hooks, e.cfg.abort,
                       e.cfg.limit, e.cfg.duration, e.cfg.resolver)
    && t.run == e.run.(cursor := t.run.cursor)
    && (e.run.cursor == 0 <==> t.run.cursor == NO_CHILD)
  }

  lemma ReadEntry(ns: seq<Entry>, id: nat)
    requires Linked(ns) && 1 <= id < |ns| && CursorOk(ns, id)
    ensures Mirrors(ns[id], TreeOf(ns, id)) && ns[id].run.cursor >= 0
    ensures Nth(KidsOf(ns, id), ns[id].run.cursor, TreeOf(ns, id).run.cursor)
    ensures Nth(KidsOf(ns, id), ns[id].link.firstChild, if KidsOf(ns, id) == [] then NO_CHILD else 0)
  {
    FirstKid(ns, id);
  }
}
