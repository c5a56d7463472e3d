/**
 * The forest builder over the tree projection: every agent whose parent is null is a root, and
 * the children of a node are found by filtering all agents in map order. Parents may be unknown,
 * and a repeated spawn may close a cycle; the builder never reaches such agents.
 */
module AgentForest {
  import opened Prelude
  import opened Projections

  datatype Node = Node(id: AgentId, entry: TreeEntry, children: seq<Node>)

  // ---- the order of the map ----

  /** Every agent is listed once. */
  ghost predicate Listed(t: Tree) {
    && NoDup(t.order)
    && forall id :: id in t.order <==> id in t.agents
  }

  function IndexOf(order: seq<AgentId>, id: AgentId): (i: nat)
    requires id in order
    ensures i < |order| && order[i] == id
  {
    if order[0] == id then 0 else 1 + IndexOf(order[1..], id)
  }

  lemma IndexOfAt(order: seq<AgentId>, n: nat)
    requires NoDup(order) && n < |order|
    ensures IndexOf(order, order[n]) == n
  {
    var i := IndexOf(order, order[n]);
    assert order[i] == order[n];
  }

  function Rank(t: Tree, id: AgentId): nat
    requires id in t.order
  {
    IndexOf(t.order, id)
  }

  /** `filter((a) => a.parentId === parent)` over the agents in map order. */
  function Filter(t: Tree, order: seq<AgentId>, parent: Option<AgentId>): seq<AgentId>
    requires forall id | id in order :: id in t.agents
  {
    if order == [] then []
    else (if t.agents[order[0]].parent == parent then [order[0]] else []) + Filter(t, order[1..], parent)
  }

  lemma {:induction false} FilterMembers(t: Tree, order: seq<AgentId>, parent: Option<AgentId>)
    requires forall id | id in order :: id in t.agents
    ensures forall id :: id in Filter(t, order, parent) <==> id in order && t.agents[id].parent == parent
  {
    if order == [] {
    } else {
      FilterMembers(t, order[1..], parent);
      assert forall id :: id in order <==> id == order[0] || id in order[1..];
    }
  }

  lemma {:induction false} FilterDistinct(t: Tree, order: seq<AgentId>, parent: Option<AgentId>)
    requires NoDup(order) && forall id | id in order :: id in t.agents
    ensures NoDup(Filter(t, order, parent))
  {
    if order == [] {
    } else {
      FilterDistinct(t, order[1..], parent);
      FilterMembers(t, order[1..], parent);
    }
  }

  function ChildrenOf(t: Tree, parent: Option<AgentId>): seq<AgentId>
    requires forall id :: id in t.order <==> id in t.agents
  {
    Filter(t, t.order, parent)
  }

  // ---- parent chains ----

  /** The parent chain of `x` reaches an agent without a parent in at most n steps. */
  ghost predicate RootedWithin(t: Tree, x: AgentId, n: nat)
    decreases n
  {
    && x in t.agents
    && (t.agents[x].parent.None? || (n > 0 && RootedWithin(t, t.agents[x].parent.value, n - 1)))
  }

  /** The parent chain of `x` ends at an agent without a parent. */
  ghost predicate Rooted(t: Tree, x: AgentId) {
    exists n: nat :: RootedWithin(t, x, n)
  }

  lemma {:induction false} RootedLonger(t: Tree, x: AgentId, m: nat, n: nat)
    requires RootedWithin(t, x, m) && m <= n
    ensures RootedWithin(t, x, n)
    decreases m
  {
    if t.agents[x].parent.None? {
    } else {
      RootedLonger(t, t.agents[x].parent.value, m - 1, n - 1);
    }
  }

  ghost function Shortest(t: Tree, x: AgentId, n: nat): (d: nat)
    requires RootedWithin(t, x, n)
    ensures RootedWithin(t, x, d) && (d > 0 ==> !RootedWithin(t, x, d - 1))
  {
    if n == 0 || !RootedWithin(t, x, n - 1) then n else Shortest(t, x, n - 1)
  }

  /** The length of the parent chain. */
  ghost function Depth(t: Tree, x: AgentId): (d: nat)
    requires Rooted(t, x)
    ensures RootedWithin(t, x, d) && (d > 0 ==> !RootedWithin(t, x, d - 1))
  {
    var n: nat :| RootedWithin(t, x, n);
    Shortest(t, x, n)
  }

  lemma DepthOfRoot(t: Tree, x: AgentId)
    requires x in t.agents && t.agents[x].parent.None?
    ensures Rooted(t, x) && Depth(t, x) == 0
  {
    assert RootedWithin(t, x, 0);
  }

  lemma RootedParent(t: Tree, x: AgentId)
    requires Rooted(t, x) && t.agents[x].parent.Some?
    ensures Rooted(t, t.agents[x].parent.value)
  {
    assert RootedWithin(t, t.agents[x].parent.value, Depth(t, x) - 1);
  }

  /** A child of an agent with a root has one, one step further. */
  lemma DepthOfChild(t: Tree, x: AgentId)
    requires x in t.agents && t.agents[x].parent.Some? && Rooted(t, t.agents[x].parent.value)
    ensures Rooted(t, x) && Depth(t, x) == Depth(t, t.agents[x].parent.value) + 1
  {
    var p := t.agents[x].parent.value;
    var d := Depth(t, p);
    assert RootedWithin(t, x, d + 1);
    var e := Depth(t, x);
    if e < d + 1 {
      RootedLonger(t, p, e - 1, d - 1);
    } else if e > d + 1 {
      RootedLonger(t, x, d + 1, e - 1);
    }
  }

  /** No chain among these agents is longer. */
  ghost function BoundOf(t: Tree, ids: seq<AgentId>): nat {
    if ids == [] then 0
    else Max(if Rooted(t, ids[0]) then Depth(t, ids[0]) else 0, BoundOf(t, ids[1..]))
  }

  lemma {:induction false} BoundOfIs(t: Tree, ids: seq<AgentId>, x: AgentId)
    requires x in ids && Rooted(t, x)
    ensures Depth(t, x) <= BoundOf(t, ids)
  {
    if ids[0] == x {
    } else {
      BoundOfIs(t, ids[1..], x);
    }
  }

  // ---- the builder ----

  lemma ChildrenDeeper(t: Tree, id: AgentId)
    requires Listed(t) && Rooted(t, id)
    ensures Depth(t, id) <= BoundOf(t, t.order)
    ensures forall c | c in ChildrenOf(t, Some(id)) :: Rooted(t, c) && Depth(t, c) == Depth(t, id) + 1
  {
    BoundOfIs(t, t.order, id);
    FilterMembers(t, t.order, Some(id));
    forall c | c in ChildrenOf(t, Some(id)) ensures Rooted(t, c) && Depth(t, c) == Depth(t, id) + 1 {
      DepthOfChild(t, c);
    }
  }

  lemma RootsAtTop(t: Tree)
    requires Listed(t)
    ensures forall c | c in ChildrenOf(t, None) :: Rooted(t, c) && Depth(t, c) == 0
  {
    FilterMembers(t, t.order, None);
    forall c | c in ChildrenOf(t, None) ensures Rooted(t, c) && Depth(t, c) == 0 {
      DepthOfRoot(t, c);
    }
  }

  /** The recursion goes from a node to agents with a longer chain, so it ends. */
  function BuildNode(t: Tree, id: AgentId): Node
    requires Listed(t) && Rooted(t, id)
    decreases BoundOf(t, t.order) + 1 - Depth(t, id), 0
  {
    ChildrenDeeper(t, id);
    Node(id, t.agents[id], BuildNodes(t, ChildrenOf(t, Some(id)), Depth(t, id) + 1))
  }

  /** `map` over agents whose chains have one length. */
  function BuildNodes(t: Tree, ids: seq<AgentId>, ghost depth: nat): seq<Node>
    requires Listed(t) && depth <= BoundOf(t, t.order) + 1
    requires forall id | id in ids :: Rooted(t, id) && Depth(t, id) == depth
    decreases BoundOf(t, t.order) + 1 - depth, 1 + |ids|
  {
    if ids == [] then [] else [BuildNode(t, ids[0])] + BuildNodes(t, ids[1..], depth)
  }

  function BuildForest(t: Tree): seq<Node>
    requires Listed(t)
  {
    RootsAtTop(t);
    BuildNodes(t, ChildrenOf(t, None), 0)
  }

  // ---- every rooted agent exactly once ----

  function CountIn(x: AgentId, node: Node): nat {
    (if node.id == x then 1 else 0) + CountAll(x, node.children)
  }

  function CountAll(x: AgentId, nodes: seq<Node>): nat {
    if nodes == [] then 0 else CountIn(x, nodes[0]) + CountAll(x, nodes[1..])
  }

  /** The agent lies on the chain of `x`, `x` included, and the chain ends at a root. */
  ghost predicate Above(t: Tree, a: AgentId, x: AgentId, n: nat)
    decreases n
  {
    && RootedWithin(t, x, n)
    && (a == x || (t.agents[x].parent.Some? && Above(t, a, t.agents[x].parent.value, n - 1)))
  }

  lemma {:induction false} AboveDepth(t: Tree, a: AgentId, x: AgentId, n: nat)
    requires Above(t, a, x, n)
    ensures Rooted(t, a) && Rooted(t, x) && Depth(t, a) <= Depth(t, x)
    decreases n
  {
    if a == x {
    } else {
      AboveDepth(t, a, t.agents[x].parent.value, n - 1);
      DepthOfChild(t, x);
    }
  }

  /** The agent on the chain of `x` whose parent is `top`; None when the chain has none or does not end. */
  ghost function ChildToward(t: Tree, top: Option<AgentId>, x: AgentId, n: nat): Option<AgentId>
    decreases n
  {
    if !RootedWithin(t, x, n) then None
    else if t.agents[x].parent == top then Some(x)
    else if t.agents[x].parent.None? then None
    else ChildToward(t, top, t.agents[x].parent.value, n - 1)
  }

  /** Among the agents with one parent, at most one is above `x`. */
  lemma {:induction false} OneChildAbove(t: Tree, top: Option<AgentId>, c: AgentId, x: AgentId, n: nat)
    requires Rooted(t, c) && t.agents[c].parent == top
    ensures Above(t, c, x, n) <==> ChildToward(t, top, x, n) == Some(c)
    decreases n
  {
    if !RootedWithin(t, x, n) || t.agents[x].parent.None? {
    } else {
      var p := t.agents[x].parent.value;
      OneChildAbove(t, top, c, p, n - 1);
      if t.agents[x].parent == top && Above(t, c, p, n - 1) {
        AboveDepth(t, c, p, n - 1);
        RootedParent(t, c);
        DepthOfChild(t, c);
      }
    }
  }

  /** A strict ancestor sees `x` through exactly one child. */
  lemma {:induction false} SeenThroughChild(t: Tree, a: AgentId, x: AgentId, n: nat)
    requires Rooted(t, a)
    ensures ChildToward(t, Some(a), x, n).Some? <==> a != x && Above(t, a, x, n)
    ensures ChildToward(t, Some(a), x, n).Some? ==>
      var c := ChildToward(t, Some(a), x, n).value; c in t.agents && t.agents[c].parent == Some(a)
    decreases n
  {
    if !RootedWithin(t, x, n) || t.agents[x].parent.None? {
    } else {
      var p := t.agents[x].parent.value;
      SeenThroughChild(t, a, p, n - 1);
      if a == x && (Above(t, a, p, n - 1) || p == a) {
        RootedParent(t, x);
        DepthOfChild(t, x);
        if Above(t, a, p, n - 1) {
          AboveDepth(t, a, p, n - 1);
        }
      }
    }
  }

  lemma {:induction false} SeenThroughRoot(t: Tree, x: AgentId, n: nat)
    requires RootedWithin(t, x, n)
    ensures ChildToward(t, None, x, n).Some?
    ensures var r := ChildToward(t, None, x, n).value; r in t.agents && t.agents[r].parent.None?
    decreases n
  {
    if t.agents[x].parent.None? {
    } else {
      SeenThroughRoot(t, t.agents[x].parent.value, n - 1);
    }
  }

  /** For any bound on the chain of `x`. */
  lemma {:induction false} CountNode(t: Tree, id: AgentId, x: AgentId, n: nat)
    requires Listed(t) && Rooted(t, id) && (Rooted(t, x) ==> RootedWithin(t, x, n))
    ensures CountIn(x, BuildNode(t, id)) == if Above(t, id, x, n) then 1 else 0
    decreases BoundOf(t, t.order) + 1 - Depth(t, id), 0
  {
    var ids := ChildrenOf(t, Some(id));
    ChildrenDeeper(t, id);
    FilterMembers(t, t.order, Some(id));
    FilterDistinct(t, t.order, Some(id));
    CountNodes(t, ids, Depth(t, id) + 1, Some(id), x, n);
    SeenThroughChild(t, id, x, n);
  }

  lemma {:induction false} CountNodes(t: Tree, ids: seq<AgentId>, depth: nat, top: Option<AgentId>, x: AgentId, n: nat)
    requires Listed(t) && depth <= BoundOf(t, t.order) + 1 && NoDup(ids) && (Rooted(t, x) ==> RootedWithin(t, x, n))
    requires forall id | id in ids :: Rooted(t, id) && Depth(t, id) == depth && t.agents[id].parent == top
    ensures CountAll(x, BuildNodes(t, ids, depth)) ==
      if ChildToward(t, top, x, n).Some? && ChildToward(t, top, x, n).value in ids then 1 else 0
    decreases BoundOf(t, t.order) + 1 - depth, 1 + |ids|
  {
    if ids == [] {
    } else {
      CountNode(t, ids[0], x, n);
      OneChildAbove(t, top, ids[0], x, n);
      CountNodes(t, ids[1..], depth, top, x, n);
      assert BuildNodes(t, ids, depth)[1..] == BuildNodes(t, ids[1..], depth);
      assert ids[0] !in ids[1..];
      assert forall id :: id in ids <==> id == ids[0] || id in ids[1..];
    }
  }

  /** Main result: the forest holds exactly the agents whose parent chain ends at a root, each once. */
  lemma ForestHoldsEachOnce(t: Tree, x: AgentId)
    requires Listed(t)
    ensures CountAll(x, BuildForest(t)) == if Rooted(t, x) then 1 else 0
  {
    var n := if Rooted(t, x) then Depth(t, x) else 0;
    RootsAtTop(t);
    FilterMembers(t, t.order, None);
    FilterDistinct(t, t.order, None);
    CountNodes(t, ChildrenOf(t, None), 0, None, x, n);
    if Rooted(t, x) {
      SeenThroughRoot(t, x, n);
    } else {
      assert !RootedWithin(t, x, n);
    }
  }

  // ---- every node in its place ----

  /** The nodes stand for agents with this parent, in the order of the map, and so do their subtrees. */
  ghost predicate Placed(t: Tree, nodes: seq<Node>, parent: Option<AgentId>)
    requires Listed(t)
  {
    && (forall i | 0 <= i < |nodes| ::
          nodes[i].id in t.agents && t.agents[nodes[i].id] == nodes[i].entry && nodes[i].entry.parent == parent)
    && (forall i, j | 0 <= i < j < |nodes| :: Rank(t, nodes[i].id) < Rank(t, nodes[j].id))
    && (forall i | 0 <= i < |nodes| :: Placed(t, nodes[i].children, Some(nodes[i].id)))
  }

  /** Agents listed by ascending rank, all at or above `low`. */
  ghost predicate Ascending(t: Tree, ids: seq<AgentId>, low: nat) {
    && (forall i | 0 <= i < |ids| :: ids[i] in t.order && low <= Rank(t, ids[i]))
    && (forall i, j | 0 <= i < j < |ids| :: ids[i] in t.order && ids[j] in t.order && Rank(t, ids[i]) < Rank(t, ids[j]))
  }

  lemma AscendingCons(t: Tree, id: AgentId, ids: seq<AgentId>)
    requires id in t.order && Ascending(t, ids, Rank(t, id) + 1)
    ensures Ascending(t, [id] + ids, Rank(t, id))
  {
  }

  lemma {:induction false} FilterAscends(t: Tree, n: nat, parent: Option<AgentId>)
    requires Listed(t) && n <= |t.order|
    ensures Ascending(t, Filter(t, t.order[n..], parent), n)
    decreases |t.order| - n
  {
    if n == |t.order| {
    } else {
      assert t.order[n..][1..] == t.order[n + 1..];
      var rest := Filter(t, t.order[n + 1..], parent);
      FilterAscends(t, n + 1, parent);
      IndexOfAt(t.order, n);
      if t.agents[t.order[n]].parent == parent {
        AscendingCons(t, t.order[n], rest);
      } else {
        assert Filter(t, t.order[n..], parent) == rest;
      }
    }
  }

  lemma ChildrenAscend(t: Tree, parent: Option<AgentId>)
    requires Listed(t)
    ensures Ascending(t, ChildrenOf(t, parent), 0)
    ensures forall id | id in ChildrenOf(t, parent) :: id in t.agents && t.agents[id].parent == parent
  {
    assert t.order[0..] == t.order;
    FilterAscends(t, 0, parent);
    FilterMembers(t, t.order, parent);
  }

  lemma {:induction false} NodeIds(t: Tree, ids: seq<AgentId>, depth: nat)
    requires Listed(t) && depth <= BoundOf(t, t.order) + 1
    requires forall id | id in ids :: Rooted(t, id) && Depth(t, id) == depth
    ensures var nodes := BuildNodes(t, ids, depth);
      |nodes| == |ids| && forall i | 0 <= i < |ids| :: nodes[i].id == ids[i]
    decreases |ids|
  {
    if ids == [] {
    } else {
      NodeIds(t, ids[1..], depth);
    }
  }

  lemma {:induction false} ChildrenPlaced(t: Tree, id: AgentId)
    requires Listed(t) && Rooted(t, id)
    ensures Placed(t, BuildNode(t, id).children, Some(id))
    decreases BoundOf(t, t.order) + 1 - Depth(t, id), 0
  {
    ChildrenDeeper(t, id);
    ChildrenAscend(t, Some(id));
    NodesPlaced(t, ChildrenOf(t, Some(id)), Depth(t, id) + 1, Some(id));
  }

  lemma {:induction false} NodesPlaced(t: Tree, ids: seq<AgentId>, depth: nat, parent: Option<AgentId>)
    requires Listed(t) && depth <= BoundOf(t, t.order) + 1 && Ascending(t, ids, 0)
    requires forall id | id in ids :: Rooted(t, id) && Depth(t, id) == depth && t.agents[id].parent == parent
    ensures Placed(t, BuildNodes(t, ids, depth), parent)
    decreases BoundOf(t, t.order) + 1 - depth, 1 + |ids|
  {
    if ids == [] {
    } else {
      ChildrenPlaced(t, ids[0]);
      NodesPlaced(t, ids[1..], depth, parent);
      NodeIds(t, ids[1..], depth);
      PlacedCons(t, BuildNode(t, ids[0]), BuildNodes(t, ids[1..], depth), parent);
    }
  }

  lemma PlacedCons(t: Tree, node: Node, rest: seq<Node>, parent: Option<AgentId>)
    requires Listed(t) && Placed(t, rest, parent)
    requires node.id in t.agents && t.agents[node.id] == node.entry && node.entry.parent == parent
    requires Placed(t, node.children, Some(node.id))
    requires forall i | 0 <= i < |rest| :: Rank(t, node.id) < Rank(t, rest[i].id)
    ensures Placed(t, [node] + rest, parent)
  {
    var nodes := [node] + rest;
    forall i | 0 <= i < |nodes| ensures Placed(t, nodes[i].children, Some(nodes[i].id)) {
    }
  }

  /** Main result: every node is under its own parent, siblings in the order of the map. */
  lemma ForestPlaced(t: Tree)
    requires Listed(t)
    ensures Placed(t, BuildForest(t), None)
  {
    RootsAtTop(t);
    ChildrenAscend(t, None);
    NodesPlaced(t, ChildrenOf(t, None), 0, None);
  }

  // ---- runs ----

  ghost predicate SameParents(t: Tree, t': Tree) {
    && t'.order == t.order && t'.agents.Keys == t.agents.Keys
    && forall id | id in t.agents :: id in t'.agents && t'.agents[id].parent == t.agents[id].parent
  }

  /** Only a spawn changes who is listed and under whom. */
  lemma SameShape(t: Tree, e: Event)
    requires !e.AgentSpawned?
    ensures SameParents(t, ApplyToTree(t, e))
  {
  }

  /** Main result: on every event sequence the builder is defined. */
  lemma {:induction false} RunsAreListed(events: seq<Event>)
    ensures Listed(TreeOf(events))
    decreases |events|
  {
    if events == [] {
    } else {
      var n := |events| - 1;
      RunsAreListed(events[..n]);
      if events[n].AgentSpawned? {
      } else {
        SameShape(TreeOf(events[..n]), events[n]);
      }
    }
  }

  /** A spawn uses a new id and no parent or one that was spawned before. */
  predicate FreshSpawn(t: Tree, e: Event) {
    e.AgentSpawned? ==> e.agent !in t.agents && (e.parent.Some? ==> e.parent.value in t.agents)
  }

  ghost predicate FreshRun(events: seq<Event>) {
    forall i | 0 <= i < |events| :: FreshSpawn(TreeOf(events[..i]), events[i])
  }

  function SpawnedIds(events: seq<Event>): seq<AgentId> {
    if events == [] then []
    else
      var n := |events| - 1;
      SpawnedIds(events[..n]) + if events[n].AgentSpawned? then [events[n].agent] else []
  }

  /** A chain stays a chain while its agents keep their parents. */
  lemma {:induction false} RootedStays(t: Tree, t': Tree, x: AgentId, n: nat)
    requires RootedWithin(t, x, n)
    requires forall id | id in t.agents :: id in t'.agents && t'.agents[id].parent == t.agents[id].parent
    ensures RootedWithin(t', x, n)
    decreases n
  {
    if t.agents[x].parent.None? {
    } else {
      RootedStays(t, t', t.agents[x].parent.value, n - 1);
    }
  }

  lemma SpawnRooted(t: Tree, e: Event, x: AgentId)
    requires FreshSpawn(t, e) && forall id | id in t.agents :: Rooted(t, id)
    requires x in ApplyToTree(t, e).agents
    ensures Rooted(ApplyToTree(t, e), x)
  {
    var t' := ApplyToTree(t, e);
    if !e.AgentSpawned? {
      SameShape(t, e);
    }
    forall id | id in t.agents ensures Rooted(t', id) {
      RootedStays(t, t', id, Depth(t, id));
    }
    if x !in t.agents {
      if e.parent.None? {
        DepthOfRoot(t', x);
      } else {
        DepthOfChild(t', x);
      }
    }
  }

  /** Main result: with fresh spawns every agent is in the forest, and map order is spawn order. */
  lemma {:induction false} FreshRunsAreRooted(events: seq<Event>)
    requires FreshRun(events)
    ensures TreeOf(events).order == SpawnedIds(events)
    ensures forall id | id in TreeOf(events).agents :: Rooted(TreeOf(events), id)
    decreases |events|
  {
    if events == [] {
    } else {
      var n := |events| - 1;
      forall i | 0 <= i < n ensures FreshSpawn(TreeOf(events[..n][..i]), events[..n][i]) {
        assert events[..n][..i] == events[..i];
      }
      FreshRunsAreRooted(events[..n]);
      forall id | id in TreeOf(events).agents ensures Rooted(TreeOf(events), id) {
        SpawnRooted(TreeOf(events[..n]), events[n], id);
      }
      if !events[n].AgentSpawned? {
        SameShape(TreeOf(events[..n]), events[n]);
      }
    }
  }

  lemma {:induction false} CycleHasNoRoot(t: Tree, a: AgentId, b: AgentId, n: nat)
    requires a in t.agents && b in t.agents && t.agents[a].parent == Some(b) && t.agents[b].parent == Some(a)
    ensures !RootedWithin(t, a, n) && !RootedWithin(t, b, n)
    decreases n
  {
    if n == 0 {
    } else {
      CycleHasNoRoot(t, a, b, n - 1);
    }
  }

  /** A root that is spawned again under its own child takes both out of the forest. */
  lemma RespawnHidesAgents(a: AgentId, b: AgentId, x: AgentId)
    requires a != b
    ensures var t := TreeOf([AgentSpawned(a, "d", None), AgentSpawned(b, "d", Some(a)), AgentSpawned(a, "d", Some(b))]);
      t.agents.Keys == {a, b} && Listed(t) && CountAll(x, BuildForest(t)) == 0
  {
    var e0, e1, e2 := AgentSpawned(a, "d", None), AgentSpawned(b, "d", Some(a)), AgentSpawned(a, "d", Some(b));
    FoldSnoc([], e0);
    FoldSnoc([e0], e1);
    FoldSnoc([e0, e1], e2);
    assert [] + [e0] == [e0] && [e0] + [e1] == [e0, e1] && [e0, e1] + [e2] == [e0, e1, e2];
    var t := TreeOf([e0, e1, e2]);
    RunsAreListed([e0, e1, e2]);
    ForestHoldsEachOnce(t, x);
    if Rooted(t, x) {
      CycleHasNoRoot(t, a, b, Depth(t, x));
    }
  }
}
