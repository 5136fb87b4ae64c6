/**
 * The skill-forest engine: building the forest index of a genome (node map,
 * children, in-degree, parent, roots, root of each node and depth) and
 * deriving a child's per-branch progress from their achievements.
 *
 * JavaScript objects used as dictionaries become Dafny maps; where the code
 * depends on the insertion order of an object's keys (`Object.keys`), the
 * order is kept as an explicit sequence. An id that is the empty string is
 * "falsy" in the source and is treated exactly as the source treats it.
 */
module GenomeEngine {
  import opened Common

  // ---------------------------------------------------------------------
  // Data model (genomeEngine.ts:2-28)
  // ---------------------------------------------------------------------

  datatype AgeBand = AgeBand(typicalStart: Option<int>, typicalEnd: Option<int>)

  datatype Node = Node(id: string, name: string, tags: Option<seq<string>>, ageBand: Option<AgeBand>)

  datatype Edge = Edge(from: string, to: string, edgeType: Option<string>)

  datatype Genome = Genome(nodes: seq<Node>, edges: seq<Edge>)

  datatype Achievement = Achievement(nodeId: string, at: Option<string>, evidenceId: Option<string>)

  /**
   * The index. `nodeIds` is the key order of `nodeById` (insertion order of
   * first occurrence), which the source reads back with `Object.keys`.
   */
  datatype GenomeIndex = GenomeIndex(
    nodeById: map<string, Node>,
    nodeIds: seq<string>,
    children: map<string, seq<string>>,
    parent: map<string, Option<string>>,
    roots: seq<string>,
    rootFor: map<string, string>,
    depth: map<string, int>)

  // ---------------------------------------------------------------------
  // Specification of the index
  // ---------------------------------------------------------------------

  function NodeKey(n: Node): string { n.id }

  /** The keys of the node dictionary, in insertion order. */
  function NodeIds(nodes: seq<Node>): seq<string>
  {
    Dedup(MapSeq(nodes, NodeKey))
  }

  /** The node dictionary: for a repeated id the last node wins. */
  function NodeById(nodes: seq<Node>): map<string, Node>
  {
    IndexBy(nodes, NodeKey)
  }

  /** An edge is used only when both of its ends are known node ids. */
  predicate ValidEdge(ids: set<string>, e: Edge)
  {
    e.from in ids && e.to in ids
  }

  /** The targets of the valid edges leaving `x`, in edge order. */
  function ChildrenOf(ids: set<string>, edges: seq<Edge>, x: string): seq<string>
  {
    if edges == [] then []
    else
      var e := edges[|edges| - 1];
      ChildrenOf(ids, edges[..|edges| - 1], x)
        + (if ValidEdge(ids, e) && e.from == x then [e.to] else [])
  }

  /** The number of valid edges entering `x`. */
  function InDegree(ids: set<string>, edges: seq<Edge>, x: string): nat
  {
    if edges == [] then 0
    else
      var e := edges[|edges| - 1];
      InDegree(ids, edges[..|edges| - 1], x) + (if ValidEdge(ids, e) && e.to == x then 1 else 0)
  }

  /** The source of the LAST valid edge entering `x`, if any. */
  function ParentOf(ids: set<string>, edges: seq<Edge>, x: string): Option<string>
  {
    if edges == [] then None
    else
      var e := edges[|edges| - 1];
      if ValidEdge(ids, e) && e.to == x then Some(e.from)
      else ParentOf(ids, edges[..|edges| - 1], x)
  }

  function IdSet(g: Genome): set<string>
  {
    NodeById(g.nodes).Keys
  }

  function ChildrenMap(g: Genome): map<string, seq<string>>
  {
    map x | x in IdSet(g) :: ChildrenOf(IdSet(g), g.edges, x)
  }

  function InDegreeMap(g: Genome): map<string, nat>
  {
    map x | x in IdSet(g) :: InDegree(IdSet(g), g.edges, x)
  }

  function ParentMap(g: Genome): map<string, Option<string>>
  {
    map x | x in IdSet(g) :: ParentOf(IdSet(g), g.edges, x)
  }

  function HasNoParent(ids: set<string>, edges: seq<Edge>): string -> bool
  {
    x => InDegree(ids, edges, x) == 0
  }

  /** The node ids with in-degree zero, in key order. */
  function Roots(g: Genome): seq<string>
  {
    Filter(NodeIds(g.nodes), HasNoParent(IdSet(g), g.edges))
  }

  /** Every node has at most one valid incoming edge. */
  ghost predicate TreeShaped(g: Genome)
  {
    forall x :: x in IdSet(g) ==> InDegree(IdSet(g), g.edges, x) <= 1
  }

  // ---------------------------------------------------------------------
  // The walk from the roots and its termination measure
  // ---------------------------------------------------------------------

  /** A rank that strictly decreases along every edge out of a ranked node. */
  ghost predicate Ranked(children: map<string, seq<string>>, rank: map<string, nat>)
  {
    forall x, c :: x in rank && x in children && c in children[x] ==> c in rank && rank[c] < rank[x]
  }

  ghost predicate RankOk(children: map<string, seq<string>>, roots: seq<string>, rank: map<string, nat>)
  {
    Ranked(children, rank) && forall i :: 0 <= i < |roots| ==> roots[i] in rank
  }

  /**
   * No cycle is reachable from a root. The walk re-enqueues a node once per
   * path, so it terminates exactly when the part reachable from the roots is
   * acyclic.
   */
  ghost predicate WalkTerminates(g: Genome)
  {
    exists rank :: RankOk(ChildrenMap(g), Roots(g), rank)
  }

  /** The number of paths that start at `x` and follow only rank-decreasing edges. */
  ghost function Paths(children: map<string, seq<string>>, rank: map<string, nat>, x: string): nat
    requires x in rank
    decreases rank[x], 1, 0
  {
    1 + SumPaths(children, rank, if x in children then children[x] else [], rank[x])
  }

  ghost function SumPaths(children: map<string, seq<string>>, rank: map<string, nat>, cs: seq<string>, b: nat): nat
    decreases b, 0, |cs|
  {
    if cs == [] then 0
    else
      (if cs[0] in rank && rank[cs[0]] < b then Paths(children, rank, cs[0]) else 0)
        + SumPaths(children, rank, cs[1..], b)
  }

  /** The walk's termination measure: the paths still to be enumerated from the queue's entries. */
  ghost function QueueWeight(children: map<string, seq<string>>, rank: map<string, nat>, q: seq<(string, int)>): nat
    requires forall i :: 0 <= i < |q| ==> q[i].0 in rank
  {
    if q == [] then 0
    else QueueWeight(children, rank, q[..|q| - 1]) + Paths(children, rank, q[|q| - 1].0)
  }

  lemma {:induction false} QueueWeightFront(children: map<string, seq<string>>, rank: map<string, nat>, q: seq<(string, int)>)
    requires forall i :: 0 <= i < |q| ==> q[i].0 in rank
    requires |q| > 0
    ensures QueueWeight(children, rank, q) == Paths(children, rank, q[0].0) + QueueWeight(children, rank, q[1..])
    decreases |q|
  {
    if |q| > 1 {
      var q' := q[..|q| - 1];
      QueueWeightFront(children, rank, q');
      assert q'[1..] == q[1..][..|q[1..]| - 1];
      assert q[1..][|q[1..]| - 1] == q[|q| - 1];
    } else {
      assert q[..0] == [];
      assert q[1..] == [];
    }
  }

  lemma QueueWeightPush(children: map<string, seq<string>>, rank: map<string, nat>, q: seq<(string, int)>, e: (string, int))
    requires forall i :: 0 <= i < |q| ==> q[i].0 in rank
    requires e.0 in rank
    ensures QueueWeight(children, rank, q + [e]) == QueueWeight(children, rank, q) + Paths(children, rank, e.0)
  {
    assert (q + [e])[..|q|] == q;
  }

  /** Every child of a node is itself a node. */
  ghost predicate ChildrenClosed(children: map<string, seq<string>>)
  {
    forall x, c :: x in children && c in children[x] ==> c in children
  }

  /** No root is the child of any node. */
  ghost predicate RootsUnreached(children: map<string, seq<string>>, roots: seq<string>)
  {
    forall x, c :: x in children && c in children[x] ==> c !in roots
  }

  /** Each node is the child of at most one node. */
  ghost predicate UniqueParents(children: map<string, seq<string>>)
  {
    forall x, y, c :: x in children && y in children && c in children[x] && c in children[y] ==> x == y
  }

  /** All children of `x` have been given a depth at most one more than `x`'s. */
  ghost predicate Closed(children: map<string, seq<string>>, depth: map<string, int>, x: string)
    requires x in children && x in depth
  {
    forall c :: c in children[x] ==> c in depth && depth[c] <= depth[x] + 1
  }

  /**
   * What the walk establishes: roots have depth 0 and are their own root;
   * depth is the length of a shortest path from a root (no edge shortens it,
   * and every non-root reached has a parent exactly one level up); each
   * reached node is assigned a root.
   */
  ghost predicate WalkFacts(children: map<string, seq<string>>, roots: seq<string>,
                            depth: map<string, int>, rootFor: map<string, string>)
  {
    && depth.Keys == rootFor.Keys
    && (forall x :: x in depth ==> x in children && depth[x] >= 0)
    && (forall i :: 0 <= i < |roots| ==> roots[i] in depth && depth[roots[i]] == 0 && rootFor[roots[i]] == roots[i])
    && (forall x :: x in rootFor ==> rootFor[x] in roots)
    && (forall x, c :: x in depth && x in children && c in children[x] ==> c in depth && depth[c] <= depth[x] + 1)
    && (forall x :: x in depth && x !in roots ==>
          exists p :: p in depth && p in children && x in children[p] && depth[x] == depth[p] + 1)
  }

  /** On a tree, every child sits exactly one level below its parent, in the same branch. */
  ghost predicate TreeFacts(children: map<string, seq<string>>, depth: map<string, int>, rootFor: map<string, string>)
  {
    forall x, c :: x in depth && x in children && c in children[x] ==>
      c in depth && depth[c] == depth[x] + 1 && x in rootFor && c in rootFor && rootFor[c] == rootFor[x]
  }

  // Invariants of the walk, shared by its three nested loops.

  /** Reached nodes, their depth and their root, once the first `done` roots were started. */
  ghost predicate Reach(children: map<string, seq<string>>, roots: seq<string>, rank: map<string, nat>,
                        depth: map<string, int>, rootFor: map<string, string>, done: nat)
  {
    && depth.Keys == rootFor.Keys
    && (forall x :: x in depth ==> x in children && x in rank && depth[x] >= 0)
    && (forall x :: x in depth && x in roots ==> depth[x] == 0 && rootFor[x] == x)
    && (forall k :: 0 <= k < done && k < |roots| ==> roots[k] in depth)
    && (forall x :: x in rootFor ==> rootFor[x] in roots)
  }

  /** Every reached non-root has a recorded parent `wit[x]`, reached and at least one level up. */
  ghost predicate Witnessed(children: map<string, seq<string>>, roots: seq<string>,
                            depth: map<string, int>, wit: map<string, string>)
  {
    && (forall x :: x in depth && x !in roots ==> x in wit)
    && (forall x {:trigger wit[x]} :: x in wit ==>
          x in depth && x !in roots && wit[x] in depth && wit[x] in children && x in children[wit[x]]
          && depth[wit[x]] + 1 <= depth[x])
  }

  /** On a tree the recorded parent shares the child's root. */
  ghost predicate TreeInv(rootFor: map<string, string>, wit: map<string, string>)
  {
    forall x {:trigger wit[x]} :: x in wit ==> x in rootFor && wit[x] in rootFor && rootFor[x] == rootFor[wit[x]]
  }

  /** Queue entries are reached nodes, never below their recorded depth. */
  ghost predicate QueueInv(depth: map<string, int>, q: seq<(string, int)>)
  {
    forall i :: 0 <= i < |q| ==> q[i].0 in depth && depth[q[i].0] <= q[i].1
  }

  ghost predicate QueueRoot(rootFor: map<string, string>, q: seq<(string, int)>, r: string)
  {
    forall i :: 0 <= i < |q| ==> q[i].0 in rootFor && rootFor[q[i].0] == r
  }

  ghost predicate QueueRanked(rank: map<string, nat>, q: seq<(string, int)>)
  {
    forall i :: 0 <= i < |q| ==> q[i].0 in rank
  }

  /** Every reached node is closed or still has an entry at its current depth in the queue. */
  ghost predicate AllPending(children: map<string, seq<string>>, depth: map<string, int>, q: seq<(string, int)>)
  {
    forall x :: x in depth && x in children ==> (x, depth[x]) in q || Closed(children, depth, x)
  }

  /** Every reached node is closed, still queued at its depth, or is the entry `(id, d)` being visited. */
  ghost predicate PendingBut(children: map<string, seq<string>>, depth: map<string, int>, q: seq<(string, int)>, id: string, d: int)
  {
    forall x :: x in depth && x in children ==>
      (x, depth[x]) in q || Closed(children, depth, x) || (x == id && depth[x] == d)
  }

  /** The first `j` children in `cs` were reached at depth at most `d + 1`. */
  ghost predicate Seen(cs: seq<string>, j: nat, depth: map<string, int>, d: int)
    requires j <= |cs|
  {
    forall k :: 0 <= k < j ==> cs[k] in depth && depth[cs[k]] <= d + 1
  }

  /** The shape of the graph the walk runs on. */
  ghost predicate GraphOk(children: map<string, seq<string>>, roots: seq<string>, rank: map<string, nat>, tree: bool)
  {
    && ChildrenClosed(children) && RootsUnreached(children, roots) && RankOk(children, roots, rank)
    && (forall i :: 0 <= i < |roots| ==> roots[i] in children)
    && (tree ==> UniqueParents(children))
  }

  /** What a visit of `id` needs to know about its children. */
  ghost predicate ChildrenFit(children: map<string, seq<string>>, roots: seq<string>, rank: map<string, nat>, id: string)
  {
    && id in children && id in rank
    && forall c :: c in children[id] ==> c in children && c !in roots && c in rank && rank[c] < rank[id]
  }

  /** No node other than `id` shares a child with `id`. */
  ghost predicate OnlyParent(children: map<string, seq<string>>, id: string)
    requires id in children
  {
    forall y, c :: y in children && c in children[id] && c in children[y] ==> y == id
  }

  /** The invariant of the loop over the roots (genomeEngine.ts:53), `done` roots walked. */
  ghost predicate WalkInv(children: map<string, seq<string>>, roots: seq<string>, rank: map<string, nat>,
                          depth: map<string, int>, rootFor: map<string, string>, wit: map<string, string>,
                          done: nat, tree: bool)
  {
    && Reach(children, roots, rank, depth, rootFor, done)
    && Witnessed(children, roots, depth, wit)
    && (tree ==> TreeInv(rootFor, wit))
  }

  /** The invariant of the queue loop of the walk from `roots[ri]` (genomeEngine.ts:56). */
  ghost predicate RunInv(children: map<string, seq<string>>, roots: seq<string>, rank: map<string, nat>, ri: nat,
                         depth: map<string, int>, rootFor: map<string, string>, wit: map<string, string>,
                         q: seq<(string, int)>, tree: bool)
  {
    && ri < |roots|
    && WalkInv(children, roots, rank, depth, rootFor, wit, ri + 1, tree)
    && QueueInv(depth, q)
    && AllPending(children, depth, q)
    && (tree ==> QueueRoot(rootFor, q, roots[ri]))
    && QueueRanked(rank, q)
  }

  /**
   * The invariant of the loop over the children of the dequeued entry `(id, d)`
   * (genomeEngine.ts:58), the first `j` of them visited, `q0` the queue before.
   */
  ghost predicate VisitInv(children: map<string, seq<string>>, roots: seq<string>, rank: map<string, nat>, ri: nat,
                           id: string, d: int, q0: seq<(string, int)>, j: nat,
                           depth: map<string, int>, rootFor: map<string, string>, wit: map<string, string>,
                           q: seq<(string, int)>, tree: bool)
  {
    && ri < |roots| && id in children && id in rank && j <= |children[id]|
    && QueueRanked(rank, q0) && QueueRanked(rank, q)
    && WalkInv(children, roots, rank, depth, rootFor, wit, ri + 1, tree)
    && id in depth && depth[id] <= d
    && QueueInv(depth, q)
    && Seen(children[id], j, depth, d)
    && PendingBut(children, depth, q, id, d)
    && (tree ==> QueueRoot(rootFor, q, roots[ri]) && id in rootFor && rootFor[id] == roots[ri])
    && QueueWeight(children, rank, q) + SumPaths(children, rank, children[id][j..], rank[id])
       == QueueWeight(children, rank, q0) + SumPaths(children, rank, children[id], rank[id])
  }

  /** The depth kept for `ch` after seeing it at depth `d + 1` (genomeEngine.ts:59). */
  function Lowered(depth: map<string, int>, ch: string, d: int): map<string, int>
  {
    if ch !in depth || d + 1 < depth[ch] then depth[ch := d + 1] else depth
  }

  /** The recorded parent of `ch` follows its depth: it changes exactly when the depth is lowered. */
  ghost function Rewitnessed(depth: map<string, int>, wit: map<string, string>, ch: string, id: string, d: int): map<string, string>
  {
    if ch !in depth || d + 1 < depth[ch] then wit[ch := id] else wit
  }

  /** The root kept for `ch` (genomeEngine.ts:60): only a missing or falsy one is replaced. */
  function Claimed(rootFor: map<string, string>, ch: string, r: string): map<string, string>
  {
    if ch !in rootFor || rootFor[ch] == "" then rootFor[ch := r] else rootFor
  }

  /** genomeEngine.ts:59-60: the updates for one child `ch` of `id`. */
  method VisitChild(depth0: map<string, int>, rootFor0: map<string, string>, ghost wit0: map<string, string>,
                    ch: string, id: string, r: string, d: int)
    returns (depth: map<string, int>, rootFor: map<string, string>, ghost wit: map<string, string>)
    ensures depth == Lowered(depth0, ch, d) && wit == Rewitnessed(depth0, wit0, ch, id, d)
    ensures rootFor == Claimed(rootFor0, ch, r)
  {
    depth, rootFor, wit := depth0, rootFor0, wit0;
    if ch !in depth || d + 1 < depth[ch] {
      depth := depth[ch := d + 1];
      wit := wit[ch := id];
    }
    if ch !in rootFor || rootFor[ch] == "" {
      rootFor := rootFor[ch := r];
    }
  }

  /**
   * genomeEngine.ts:57-62: dequeue-visit of the entry `(id, d)`: each child is
   * given depth `d + 1` unless it already has a smaller one, inherits root `r`
   * unless it already has a non-empty one, and is enqueued at `d + 1`.
   */
  method VisitChildren(children: map<string, seq<string>>, roots: seq<string>, ghost rank: map<string, nat>,
                       ri: nat, r: string, id: string, d: int, q0: seq<(string, int)>,
                       depth0: map<string, int>, rootFor0: map<string, string>, ghost wit0: map<string, string>,
                       ghost tree: bool)
    returns (q: seq<(string, int)>, depth: map<string, int>, rootFor: map<string, string>, ghost wit: map<string, string>)
    requires ChildrenFit(children, roots, rank, id) && (tree ==> OnlyParent(children, id))
    requires VisitInv(children, roots, rank, ri, id, d, q0, 0, depth0, rootFor0, wit0, q0, tree)
    requires r == roots[ri]
    ensures RunInv(children, roots, rank, ri, depth, rootFor, wit, q, tree)
    ensures QueueWeight(children, rank, q) + 1 == QueueWeight(children, rank, q0) + Paths(children, rank, id)
  {
    q, depth, rootFor, wit := q0, depth0, rootFor0, wit0;
    var cs := children[id];
    for j := 0 to |cs|
      invariant VisitInv(children, roots, rank, ri, id, d, q0, j, depth, rootFor, wit, q, tree)
    {
      var ch := cs[j];
      VisitStep(children, roots, rank, ri, id, d, q0, j, depth, rootFor, wit, q, tree);
      depth, rootFor, wit := VisitChild(depth, rootFor, wit, ch, id, r, d);
      q := q + [(ch, d + 1)];
    }
    VisitDone(children, roots, rank, ri, id, d, q0, depth, rootFor, wit, q, tree);
  }

  /** One child visited keeps the visit's invariant. */
  lemma VisitStep(children: map<string, seq<string>>, roots: seq<string>, rank: map<string, nat>, ri: nat,
                  id: string, d: int, q0: seq<(string, int)>, j: nat,
                  depth: map<string, int>, rootFor: map<string, string>, wit: map<string, string>,
                  q: seq<(string, int)>, tree: bool)
    requires ChildrenFit(children, roots, rank, id) && (tree ==> OnlyParent(children, id))
    requires VisitInv(children, roots, rank, ri, id, d, q0, j, depth, rootFor, wit, q, tree)
    requires j < |children[id]|
    ensures var ch := children[id][j];
      VisitInv(children, roots, rank, ri, id, d, q0, j + 1, Lowered(depth, ch, d), Claimed(rootFor, ch, roots[ri]),
               Rewitnessed(depth, wit, ch, id, d), q + [(ch, d + 1)], tree)
  {
    var ch := children[id][j];
    var r := roots[ri];
    assert ch in children[id];
    StepShape(children, roots, rank, ri, id, d, ch, depth, rootFor, wit, tree);
    StepQueue(children, rank, id, j, d, depth, q);
    StepWeight(children, rank, id, j, d, q0, q);
    StepPending(children, id, d, ch, depth, q);
    if tree {
      StepRoots(children, roots, rank, ri, id, d, ch, depth, rootFor, wit, q);
    }
  }

  /** The reached nodes, recorded parents and roots after visiting one child. */
  lemma StepShape(children: map<string, seq<string>>, roots: seq<string>, rank: map<string, nat>, ri: nat,
                  id: string, d: int, ch: string,
                  depth: map<string, int>, rootFor: map<string, string>, wit: map<string, string>, tree: bool)
    requires ri < |roots|
    requires ChildrenFit(children, roots, rank, id) && ch in children[id] && (tree ==> OnlyParent(children, id))
    requires WalkInv(children, roots, rank, depth, rootFor, wit, ri + 1, tree)
    requires id in depth && depth[id] <= d
    requires tree ==> id in rootFor && rootFor[id] == roots[ri]
    ensures WalkInv(children, roots, rank, Lowered(depth, ch, d), Claimed(rootFor, ch, roots[ri]),
                    Rewitnessed(depth, wit, ch, id, d), ri + 1, tree)
    ensures var depth' := Lowered(depth, ch, d); id in depth' && depth'[id] == depth[id]
  {
    StepReach(children, roots, rank, ri, ch, d, depth, rootFor);
    StepWit(children, roots, rank, id, d, ch, depth, wit);
    if tree {
      StepTree(children, roots, rank, ri, id, d, ch, depth, rootFor, wit);
    }
  }

  lemma StepReach(children: map<string, seq<string>>, roots: seq<string>, rank: map<string, nat>, ri: nat,
                  ch: string, d: int, depth: map<string, int>, rootFor: map<string, string>)
    requires ri < |roots|
    requires ch in children && ch in rank && ch !in roots && d >= 0
    requires Reach(children, roots, rank, depth, rootFor, ri + 1)
    ensures Reach(children, roots, rank, Lowered(depth, ch, d), Claimed(rootFor, ch, roots[ri]), ri + 1)
  {
    var depth', rootFor' := Lowered(depth, ch, d), Claimed(rootFor, ch, roots[ri]);
    assert roots[ri] in roots;
    assert depth'.Keys == rootFor'.Keys;
    assert forall x :: x in depth' ==> x in children && x in rank && depth'[x] >= 0;
    assert forall x :: x in depth' && x in roots ==> x != ch && depth'[x] == 0 && rootFor'[x] == x;
  }

  lemma StepWit(children: map<string, seq<string>>, roots: seq<string>, rank: map<string, nat>,
                id: string, d: int, ch: string, depth: map<string, int>, wit: map<string, string>)
    requires ChildrenFit(children, roots, rank, id) && ch in children[id]
    requires Witnessed(children, roots, depth, wit)
    requires id in depth && depth[id] <= d
    ensures Witnessed(children, roots, Lowered(depth, ch, d), Rewitnessed(depth, wit, ch, id, d))
    ensures var depth' := Lowered(depth, ch, d); id in depth' && depth'[id] == depth[id]
  {
    var depth', wit' := Lowered(depth, ch, d), Rewitnessed(depth, wit, ch, id, d);
    assert ch !in roots && ch != id;
    var low := ch !in depth || d + 1 < depth[ch];
    forall x | x in wit'
      ensures x in depth' && x !in roots && wit'[x] in depth' && wit'[x] in children && x in children[wit'[x]]
        && depth'[wit'[x]] + 1 <= depth'[x]
    {
      if low && x == ch {
        assert wit'[x] == id;
        assert depth'[id] == depth[id];
      } else {
        var p := wit[x];
        assert wit'[x] == p && depth'[x] == depth[x];
        assert p in depth && depth[p] + 1 <= depth[x];
        assert depth'[p] <= depth[p];
      }
    }
  }

  lemma StepTree(children: map<string, seq<string>>, roots: seq<string>, rank: map<string, nat>, ri: nat,
                 id: string, d: int, ch: string,
                 depth: map<string, int>, rootFor: map<string, string>, wit: map<string, string>)
    requires ri < |roots|
    requires ChildrenFit(children, roots, rank, id) && OnlyParent(children, id) && ch in children[id]
    requires Reach(children, roots, rank, depth, rootFor, ri + 1) && Witnessed(children, roots, depth, wit)
    requires TreeInv(rootFor, wit)
    requires id in depth && id in rootFor && rootFor[id] == roots[ri]
    ensures TreeInv(Claimed(rootFor, ch, roots[ri]), Rewitnessed(depth, wit, ch, id, d))
  {
    var r := roots[ri];
    var rootFor', wit' := Claimed(rootFor, ch, r), Rewitnessed(depth, wit, ch, id, d);
    assert ch !in roots && ch != id;
    // the only parent of ch is id, so ch already carries id's root when it was reached before
    if ch in depth {
      assert ch in wit;
      assert wit[ch] in children && ch in children[wit[ch]];
      assert wit[ch] == id;
    }
    assert rootFor'[ch] == r;
    forall x | x in wit'
      ensures x in rootFor' && wit'[x] in rootFor' && rootFor'[x] == rootFor'[wit'[x]]
    {
      if x != ch {
        assert wit'[x] == wit[x];
      }
    }
  }

  lemma StepRoots(children: map<string, seq<string>>, roots: seq<string>, rank: map<string, nat>, ri: nat,
                  id: string, d: int, ch: string,
                  depth: map<string, int>, rootFor: map<string, string>, wit: map<string, string>, q: seq<(string, int)>)
    requires ri < |roots|
    requires ChildrenFit(children, roots, rank, id) && OnlyParent(children, id) && ch in children[id]
    requires Reach(children, roots, rank, depth, rootFor, ri + 1) && Witnessed(children, roots, depth, wit)
    requires TreeInv(rootFor, wit)
    requires id in depth && id in rootFor && rootFor[id] == roots[ri]
    requires QueueRoot(rootFor, q, roots[ri])
    ensures var rootFor' := Claimed(rootFor, ch, roots[ri]);
      QueueRoot(rootFor', q + [(ch, d + 1)], roots[ri]) && id in rootFor' && rootFor'[id] == roots[ri]
  {
    var r := roots[ri];
    var rootFor' := Claimed(rootFor, ch, r);
    assert ch != id;
    if ch in depth {
      assert ch in wit;
      assert wit[ch] in children && ch in children[wit[ch]];
      assert wit[ch] == id;
    }
    assert rootFor'[ch] == r;
    var q' := q + [(ch, d + 1)];
    forall i | 0 <= i < |q'| ensures q'[i].0 in rootFor' && rootFor'[q'[i].0] == r {
      if i < |q| { assert q'[i] == q[i]; }
    }
  }

  lemma StepQueue(children: map<string, seq<string>>, rank: map<string, nat>, id: string, j: nat, d: int,
                  depth: map<string, int>, q: seq<(string, int)>)
    requires id in children && j < |children[id]| && children[id][j] in rank
    requires QueueInv(depth, q) && QueueRanked(rank, q) && Seen(children[id], j, depth, d)
    ensures var ch := children[id][j];
      && QueueInv(Lowered(depth, ch, d), q + [(ch, d + 1)])
      && QueueRanked(rank, q + [(ch, d + 1)])
      && Seen(children[id], j + 1, Lowered(depth, ch, d), d)
  {
    var ch := children[id][j];
    var depth' := Lowered(depth, ch, d);
    var q' := q + [(ch, d + 1)];
    forall i | 0 <= i < |q'| ensures q'[i].0 in depth' && depth'[q'[i].0] <= q'[i].1 && q'[i].0 in rank {
      if i < |q| { assert q'[i] == q[i]; }
    }
  }

  lemma StepWeight(children: map<string, seq<string>>, rank: map<string, nat>, id: string, j: nat, d: int,
                   q0: seq<(string, int)>, q: seq<(string, int)>)
    requires id in children && id in rank && j < |children[id]|
    requires children[id][j] in rank && rank[children[id][j]] < rank[id]
    requires QueueRanked(rank, q0) && QueueRanked(rank, q)
    requires QueueWeight(children, rank, q) + SumPaths(children, rank, children[id][j..], rank[id])
             == QueueWeight(children, rank, q0) + SumPaths(children, rank, children[id], rank[id])
    ensures var q' := q + [(children[id][j], d + 1)];
      QueueRanked(rank, q') &&
      QueueWeight(children, rank, q') + SumPaths(children, rank, children[id][j + 1..], rank[id])
      == QueueWeight(children, rank, q0) + SumPaths(children, rank, children[id], rank[id])
  {
    var cs := children[id];
    var e := (cs[j], d + 1);
    assert QueueRanked(rank, q + [e]) by {
      forall i | 0 <= i < |q + [e]| ensures (q + [e])[i].0 in rank {
        if i < |q| { assert (q + [e])[i] == q[i]; }
      }
    }
    QueueWeightPush(children, rank, q, e);
    assert cs[j..][1..] == cs[j + 1..];
    assert SumPaths(children, rank, cs[j..], rank[id]) == Paths(children, rank, cs[j]) + SumPaths(children, rank, cs[j + 1..], rank[id]);
  }

  lemma StepPending(children: map<string, seq<string>>, id: string, d: int, ch: string,
                    depth: map<string, int>, q: seq<(string, int)>)
    requires id in children && ch in children[id] && ch != id
    requires id in depth && depth[id] <= d
    requires PendingBut(children, depth, q, id, d)
    ensures PendingBut(children, Lowered(depth, ch, d), q + [(ch, d + 1)], id, d)
  {
    var depth' := Lowered(depth, ch, d);
    var q' := q + [(ch, d + 1)];
    forall x | x in depth' && x in children
      ensures (x, depth'[x]) in q' || Closed(children, depth', x) || (x == id && depth'[x] == d)
    {
      if x == ch && depth' != depth {
        assert q'[|q|] == (x, depth'[x]);
      } else if (x, depth[x]) in q {
        assert depth'[x] == depth[x];
      } else if Closed(children, depth, x) {
        assert depth'[x] == depth[x];
        forall c | c in children[x] ensures c in depth' && depth'[c] <= depth'[x] + 1 { }
      }
    }
  }

  /** After the last child, the entry `(id, d)` is closed or still queued. */
  lemma VisitDone(children: map<string, seq<string>>, roots: seq<string>, rank: map<string, nat>, ri: nat,
                  id: string, d: int, q0: seq<(string, int)>,
                  depth: map<string, int>, rootFor: map<string, string>, wit: map<string, string>,
                  q: seq<(string, int)>, tree: bool)
    requires id in children
    requires VisitInv(children, roots, rank, ri, id, d, q0, |children[id]|, depth, rootFor, wit, q, tree)
    ensures RunInv(children, roots, rank, ri, depth, rootFor, wit, q, tree)
    ensures QueueWeight(children, rank, q) + 1 == QueueWeight(children, rank, q0) + Paths(children, rank, id)
  {
    var cs := children[id];
    assert cs[|cs|..] == [];
    assert Paths(children, rank, id) == 1 + SumPaths(children, rank, cs, rank[id]);
    forall x | x in depth && x in children
      ensures (x, depth[x]) in q || Closed(children, depth, x)
    {
      if x == id && depth[x] == d {
        forall c | c in cs ensures c in depth && depth[c] <= depth[x] + 1 {
          var k :| 0 <= k < |cs| && cs[k] == c;
        }
      }
    }
  }

  /** Dequeuing the head `(id, d)` of a non-empty queue sets up the visit of its children. */
  lemma VisitStart(children: map<string, seq<string>>, roots: seq<string>, rank: map<string, nat>, ri: nat,
                   depth: map<string, int>, rootFor: map<string, string>, wit: map<string, string>,
                   q: seq<(string, int)>, tree: bool)
    requires GraphOk(children, roots, rank, tree)
    requires RunInv(children, roots, rank, ri, depth, rootFor, wit, q, tree)
    requires |q| > 0
    ensures ChildrenFit(children, roots, rank, q[0].0) && (tree ==> OnlyParent(children, q[0].0))
    ensures VisitInv(children, roots, rank, ri, q[0].0, q[0].1, q[1..], 0, depth, rootFor, wit, q[1..], tree)
    ensures QueueWeight(children, rank, q) == Paths(children, rank, q[0].0) + QueueWeight(children, rank, q[1..])
  {
    var (id, d) := q[0];
    Dequeue(children, roots[ri], rank, depth, rootFor, q, tree);
    FitOf(children, roots, rank, id, tree);
    QueueWeightFront(children, rank, q);
    assert children[id][0..] == children[id];
  }

  /** What the rest of the queue keeps once its head `(id, d)` is taken off. */
  lemma Dequeue(children: map<string, seq<string>>, r: string, rank: map<string, nat>,
                depth: map<string, int>, rootFor: map<string, string>, q: seq<(string, int)>, tree: bool)
    requires QueueInv(depth, q) && AllPending(children, depth, q) && QueueRanked(rank, q)
    requires tree ==> QueueRoot(rootFor, q, r)
    requires |q| > 0
    ensures q[0].0 in depth && depth[q[0].0] <= q[0].1 && q[0].0 in rank
    ensures tree ==> q[0].0 in rootFor && rootFor[q[0].0] == r
    ensures QueueInv(depth, q[1..]) && QueueRanked(rank, q[1..]) && PendingBut(children, depth, q[1..], q[0].0, q[0].1)
    ensures tree ==> QueueRoot(rootFor, q[1..], r)
  {
    assert q == [q[0]] + q[1..];
    forall x | x in depth && x in children && (x, depth[x]) in q && x != q[0].0
      ensures (x, depth[x]) in q[1..]
    {
    }
  }

  lemma FitOf(children: map<string, seq<string>>, roots: seq<string>, rank: map<string, nat>, id: string, tree: bool)
    requires GraphOk(children, roots, rank, tree)
    requires id in children && id in rank
    ensures ChildrenFit(children, roots, rank, id)
    ensures tree ==> OnlyParent(children, id)
  {
  }

  /** Starting the walk from root `roots[ri]` (genomeEngine.ts:54-55). */
  lemma StartRoot(children: map<string, seq<string>>, roots: seq<string>, rank: map<string, nat>, ri: nat,
                  depth0: map<string, int>, rootFor0: map<string, string>, wit0: map<string, string>, tree: bool)
    requires GraphOk(children, roots, rank, tree)
    requires ri < |roots|
    requires WalkInv(children, roots, rank, depth0, rootFor0, wit0, ri, tree)
    requires AllPending(children, depth0, [])
    ensures var r := roots[ri];
      RunInv(children, roots, rank, ri, depth0[r := 0], rootFor0[r := r], wit0, [(r, 0)], tree)
  {
    var r := roots[ri];
    assert r in roots && r in children && r in rank;
    StartReach(children, roots, rank, ri, depth0, rootFor0);
    StartWit(children, roots, rank, ri, depth0, rootFor0, wit0);
    StartPending(children, roots, depth0, r);
    if tree {
      StartTree(children, roots, rank, ri, depth0, rootFor0, wit0);
    }
    StartQueue(rank, depth0[r := 0], rootFor0[r := r], r);
  }

  /** The queue holding only the root at depth zero. */
  lemma StartQueue(rank: map<string, nat>, depth: map<string, int>, rootFor: map<string, string>, r: string)
    requires r in depth && depth[r] == 0 && r in rootFor && rootFor[r] == r && r in rank
    ensures QueueInv(depth, [(r, 0)]) && QueueRoot(rootFor, [(r, 0)], r) && QueueRanked(rank, [(r, 0)])
  {
  }

  lemma StartReach(children: map<string, seq<string>>, roots: seq<string>, rank: map<string, nat>, ri: nat,
                   depth0: map<string, int>, rootFor0: map<string, string>)
    requires ri < |roots| && roots[ri] in children && roots[ri] in rank
    requires Reach(children, roots, rank, depth0, rootFor0, ri)
    ensures Reach(children, roots, rank, depth0[roots[ri] := 0], rootFor0[roots[ri] := roots[ri]], ri + 1)
  {
    var r := roots[ri];
    var depth, rootFor := depth0[r := 0], rootFor0[r := r];
    assert r in roots;
    assert depth.Keys == rootFor.Keys;
    assert forall x :: x in depth && x in roots ==> depth[x] == 0 && rootFor[x] == x;
    assert forall x :: x in rootFor ==> rootFor[x] in roots;
  }

  lemma StartWit(children: map<string, seq<string>>, roots: seq<string>, rank: map<string, nat>, ri: nat,
                 depth0: map<string, int>, rootFor0: map<string, string>, wit0: map<string, string>)
    requires ri < |roots|
    requires Reach(children, roots, rank, depth0, rootFor0, ri) && Witnessed(children, roots, depth0, wit0)
    ensures Witnessed(children, roots, depth0[roots[ri] := 0], wit0)
  {
    var r := roots[ri];
    var depth := depth0[r := 0];
    assert r in roots;
    forall x | x in wit0
      ensures x in depth && x !in roots && wit0[x] in depth && wit0[x] in children && x in children[wit0[x]]
        && depth[wit0[x]] + 1 <= depth[x]
    {
      assert x != r && wit0[x] in depth0;
    }
  }

  lemma StartPending(children: map<string, seq<string>>, roots: seq<string>, depth0: map<string, int>, r: string)
    requires RootsUnreached(children, roots)
    requires r in roots
    requires AllPending(children, depth0, [])
    ensures AllPending(children, depth0[r := 0], [(r, 0)])
  {
    var depth := depth0[r := 0];
    forall x | x in depth && x in children && x != r
      ensures Closed(children, depth, x)
    {
      assert Closed(children, depth0, x);
      forall c | c in children[x] ensures c in depth && depth[c] <= depth[x] + 1 {
        assert c != r;
      }
    }
  }

  lemma StartTree(children: map<string, seq<string>>, roots: seq<string>, rank: map<string, nat>, ri: nat,
                  depth0: map<string, int>, rootFor0: map<string, string>, wit0: map<string, string>)
    requires ri < |roots|
    requires Reach(children, roots, rank, depth0, rootFor0, ri) && Witnessed(children, roots, depth0, wit0)
    requires TreeInv(rootFor0, wit0)
    ensures TreeInv(rootFor0[roots[ri] := roots[ri]], wit0)
  {
    var r := roots[ri];
    var rootFor := rootFor0[r := r];
    assert r in roots;
    forall x | x in wit0
      ensures x in rootFor && wit0[x] in rootFor && rootFor[x] == rootFor[wit0[x]]
    {
      assert x != r && wit0[x] in depth0;
    }
  }

  /**
   * genomeEngine.ts:54-63: the walk from one root: its depth is 0, it is its
   * own root, and the queue is drained.
   */
  method WalkRoot(children: map<string, seq<string>>, roots: seq<string>, ghost rank: map<string, nat>, ri: nat,
                  depth0: map<string, int>, rootFor0: map<string, string>, ghost wit0: map<string, string>,
                  ghost tree: bool)
    returns (depth: map<string, int>, rootFor: map<string, string>, ghost wit: map<string, string>)
    requires GraphOk(children, roots, rank, tree)
    requires ri < |roots|
    requires WalkInv(children, roots, rank, depth0, rootFor0, wit0, ri, tree) && AllPending(children, depth0, [])
    ensures WalkInv(children, roots, rank, depth, rootFor, wit, ri + 1, tree) && AllPending(children, depth, [])
  {
    var r := roots[ri];
    var q: seq<(string, int)> := [(r, 0)];
    StartRoot(children, roots, rank, ri, depth0, rootFor0, wit0, tree);
    rootFor, depth, wit := rootFor0[r := r], depth0[r := 0], wit0;
    while |q| > 0
      invariant RunInv(children, roots, rank, ri, depth, rootFor, wit, q, tree)
      decreases QueueWeight(children, rank, q)
    {
      var (id, d) := q[0];
      VisitStart(children, roots, rank, ri, depth, rootFor, wit, q, tree);
      q, depth, rootFor, wit := VisitChildren(children, roots, rank, ri, r, id, d, q[1..], depth, rootFor, wit, tree);
    }
  }

  /**
   * genomeEngine.ts:49-64: for each root, a queue walk without a visited set
   * that lowers `depth` and fills in a missing (or falsy) `rootFor`.
   */
  method AssignDepths(children: map<string, seq<string>>, roots: seq<string>, ghost rank: map<string, nat>)
    returns (depth: map<string, int>, rootFor: map<string, string>)
    requires ChildrenClosed(children)
    requires forall i :: 0 <= i < |roots| ==> roots[i] in children
    requires RootsUnreached(children, roots)
    requires RankOk(children, roots, rank)
    ensures WalkFacts(children, roots, depth, rootFor)
    ensures UniqueParents(children) ==> TreeFacts(children, depth, rootFor)
  {
    depth, rootFor := map[], map[];
    ghost var wit: map<string, string> := map[];
    ghost var tree := UniqueParents(children);
    assert GraphOk(children, roots, rank, tree);
    for ri := 0 to |roots|
      invariant WalkInv(children, roots, rank, depth, rootFor, wit, ri, tree) && AllPending(children, depth, [])
    {
      depth, rootFor, wit := WalkRoot(children, roots, rank, ri, depth, rootFor, wit, tree);
    }
    WalkDone(children, roots, rank, depth, rootFor, wit, tree);
  }

  /** What the walk has established once every root was walked. */
  lemma WalkDone(children: map<string, seq<string>>, roots: seq<string>, rank: map<string, nat>,
                 depth: map<string, int>, rootFor: map<string, string>, wit: map<string, string>, tree: bool)
    requires GraphOk(children, roots, rank, tree)
    requires WalkInv(children, roots, rank, depth, rootFor, wit, |roots|, tree) && AllPending(children, depth, [])
    ensures WalkFacts(children, roots, depth, rootFor)
    ensures tree ==> TreeFacts(children, depth, rootFor)
  {
    DoneClosed(children, depth);
    DoneParents(children, roots, depth, wit);
    if tree {
      DoneTree(children, roots, rank, depth, rootFor, wit);
    }
  }

  lemma DoneClosed(children: map<string, seq<string>>, depth: map<string, int>)
    requires AllPending(children, depth, [])
    ensures forall x, c :: x in depth && x in children && c in children[x] ==> c in depth && depth[c] <= depth[x] + 1
  {
    forall x, c | x in depth && x in children && c in children[x]
      ensures c in depth && depth[c] <= depth[x] + 1
    {
      assert Closed(children, depth, x);
    }
  }

  lemma DoneParents(children: map<string, seq<string>>, roots: seq<string>, depth: map<string, int>, wit: map<string, string>)
    requires Witnessed(children, roots, depth, wit) && AllPending(children, depth, [])
    ensures forall x :: x in depth && x !in roots ==>
      exists p :: p in depth && p in children && x in children[p] && depth[x] == depth[p] + 1
  {
    forall x | x in depth && x !in roots
      ensures exists p :: p in depth && p in children && x in children[p] && depth[x] == depth[p] + 1
    {
      assert Closed(children, depth, wit[x]);
    }
  }

  lemma DoneTree(children: map<string, seq<string>>, roots: seq<string>, rank: map<string, nat>,
                 depth: map<string, int>, rootFor: map<string, string>, wit: map<string, string>)
    requires UniqueParents(children) && RootsUnreached(children, roots)
    requires Reach(children, roots, rank, depth, rootFor, |roots|) && Witnessed(children, roots, depth, wit)
    requires TreeInv(rootFor, wit) && AllPending(children, depth, [])
    ensures TreeFacts(children, depth, rootFor)
  {
    forall x, c | x in depth && x in children && c in children[x]
      ensures c in depth && depth[c] == depth[x] + 1 && x in rootFor && c in rootFor && rootFor[c] == rootFor[x]
    {
      assert Closed(children, depth, x);
      assert c !in roots;
      assert wit[c] == x;
      assert Closed(children, depth, wit[c]);
    }
  }

  // ---------------------------------------------------------------------
  // Building the index (genomeEngine.ts:30-67)
  // ---------------------------------------------------------------------

  /** Node ids are exactly the keys of the node dictionary. */
  lemma NodeIdsAreKeys(nodes: seq<Node>)
    ensures forall x :: x in NodeIds(nodes) <==> x in NodeById(nodes)
  {
    var ks := MapSeq(nodes, NodeKey);
    forall x | x in NodeIds(nodes) ensures x in NodeById(nodes) {
      var k :| 0 <= k < |NodeIds(nodes)| && NodeIds(nodes)[k] == x;
      var i :| 0 <= i < |ks| && ks[i] == x;
      assert NodeKey(nodes[i]) == x;
    }
    forall x | x in NodeById(nodes) ensures x in NodeIds(nodes) {
      var i :| 0 <= i < |nodes| && NodeKey(nodes[i]) == x;
      assert ks[i] == x;
    }
  }

  lemma NodesStep(nodes: seq<Node>, i: nat)
    requires i < |nodes|
    ensures NodeById(nodes[..i + 1]) == NodeById(nodes[..i])[nodes[i].id := nodes[i]]
    ensures NodeIds(nodes[..i + 1]) ==
      if nodes[i].id in NodeById(nodes[..i]) then NodeIds(nodes[..i]) else NodeIds(nodes[..i]) + [nodes[i].id]
  {
    assert nodes[..i + 1][..i] == nodes[..i];
    NodeIdsAreKeys(nodes[..i]);
  }

  /** genomeEngine.ts:31-32: the node dictionary, and the order of its keys. */
  method IndexNodes(nodes: seq<Node>) returns (nodeById: map<string, Node>, ids: seq<string>)
    ensures nodeById == NodeById(nodes) && ids == NodeIds(nodes)
  {
    nodeById, ids := map[], [];
    for i := 0 to |nodes|
      invariant nodeById == NodeById(nodes[..i]) && ids == NodeIds(nodes[..i])
    {
      var n := nodes[i];
      NodesStep(nodes, i);
      if n.id !in nodeById {
        ids := ids + [n.id];
      }
      nodeById := nodeById[n.id := n];
    }
    assert nodes[..|nodes|] == nodes;
  }

  /** genomeEngine.ts:34-37: every node starts with no children, in-degree 0 and no parent. */
  method InitAdjacency(ids: seq<string>)
    returns (children: map<string, seq<string>>, indeg: map<string, nat>, parent: map<string, Option<string>>)
    ensures AdjacencyOf(set x | x in ids, [], children, indeg, parent)
  {
    children, indeg, parent := map[], map[], map[];
    for k := 0 to |ids|
      invariant children.Keys == indeg.Keys == parent.Keys == set x | x in ids[..k]
      invariant forall x :: x in children ==> children[x] == [] && indeg[x] == 0 && parent[x] == None
    {
      var id := ids[k];
      assert ids[..k + 1] == ids[..k] + [id];
      children, indeg, parent := children[id := []], indeg[id := 0], parent[id := None];
    }
    assert ids[..|ids|] == ids;
    EmptyAdjacency((set x | x in ids), children, indeg, parent);
  }

  lemma EmptyAdjacency(ids: set<string>, children: map<string, seq<string>>, indeg: map<string, nat>,
                       parent: map<string, Option<string>>)
    requires children.Keys == indeg.Keys == parent.Keys == ids
    requires forall x :: x in children ==> children[x] == [] && indeg[x] == 0 && parent[x] == None
    ensures AdjacencyOf(ids, [], children, indeg, parent)
  {
  }

  /** The children lists built from `edges`, one per node of `ids`. */
  ghost predicate ChildrenAre(ids: set<string>, edges: seq<Edge>, children: map<string, seq<string>>)
  {
    children.Keys == ids && forall x :: x in ids ==> children[x] == ChildrenOf(ids, edges, x)
  }

  ghost predicate InDegreesAre(ids: set<string>, edges: seq<Edge>, indeg: map<string, nat>)
  {
    indeg.Keys == ids && forall x :: x in ids ==> indeg[x] == InDegree(ids, edges, x)
  }

  ghost predicate ParentsAre(ids: set<string>, edges: seq<Edge>, parent: map<string, Option<string>>)
  {
    parent.Keys == ids && forall x :: x in ids ==> parent[x] == ParentOf(ids, edges, x)
  }

  ghost predicate AdjacencyOf(ids: set<string>, edges: seq<Edge>, children: map<string, seq<string>>,
                              indeg: map<string, nat>, parent: map<string, Option<string>>)
  {
    ChildrenAre(ids, edges, children) && InDegreesAre(ids, edges, indeg) && ParentsAre(ids, edges, parent)
  }

  lemma EdgeStep(ids: set<string>, edges: seq<Edge>, i: nat, x: string)
    requires i < |edges|
    ensures var e := edges[i];
      && ChildrenOf(ids, edges[..i + 1], x)
         == ChildrenOf(ids, edges[..i], x) + (if ValidEdge(ids, e) && e.from == x then [e.to] else [])
      && InDegree(ids, edges[..i + 1], x) == InDegree(ids, edges[..i], x) + (if ValidEdge(ids, e) && e.to == x then 1 else 0)
      && ParentOf(ids, edges[..i + 1], x) == if ValidEdge(ids, e) && e.to == x then Some(e.from) else ParentOf(ids, edges[..i], x)
  {
    assert edges[..i + 1][..i] == edges[..i];
  }

  lemma ChildrenStep(ids: set<string>, edges: seq<Edge>, i: nat, children: map<string, seq<string>>)
    requires i < |edges| && ChildrenAre(ids, edges[..i], children)
    ensures var e := edges[i];
      ChildrenAre(ids, edges[..i + 1],
        if ValidEdge(ids, e) then children[e.from := children[e.from] + [e.to]] else children)
  {
    forall x | x in ids { EdgeStep(ids, edges, i, x); }
  }

  lemma InDegreeStep(ids: set<string>, edges: seq<Edge>, i: nat, indeg: map<string, nat>)
    requires i < |edges| && InDegreesAre(ids, edges[..i], indeg)
    ensures var e := edges[i];
      InDegreesAre(ids, edges[..i + 1],
        if ValidEdge(ids, e) then indeg[e.to := (if e.to in indeg then indeg[e.to] else 0) + 1] else indeg)
  {
    forall x | x in ids { EdgeStep(ids, edges, i, x); }
  }

  lemma ParentStep(ids: set<string>, edges: seq<Edge>, i: nat, parent: map<string, Option<string>>)
    requires i < |edges| && ParentsAre(ids, edges[..i], parent)
    ensures var e := edges[i];
      ParentsAre(ids, edges[..i + 1], if ValidEdge(ids, e) then parent[e.to := Some(e.from)] else parent)
  {
    forall x | x in ids { EdgeStep(ids, edges, i, x); }
  }

  /**
   * genomeEngine.ts:40-46: every edge whose two ends are nodes adds a child,
   * one to the target's in-degree, and makes its source the target's parent
   * (a later edge overrides an earlier one).
   */
  method AddEdges(nodeById: map<string, Node>, edges: seq<Edge>, children0: map<string, seq<string>>,
                  indeg0: map<string, nat>, parent0: map<string, Option<string>>)
    returns (children: map<string, seq<string>>, indeg: map<string, nat>, parent: map<string, Option<string>>)
    requires AdjacencyOf(nodeById.Keys, [], children0, indeg0, parent0)
    ensures AdjacencyOf(nodeById.Keys, edges, children, indeg, parent)
  {
    ghost var ids := nodeById.Keys;
    children, indeg, parent := children0, indeg0, parent0;
    for i := 0 to |edges|
      invariant AdjacencyOf(ids, edges[..i], children, indeg, parent)
    {
      var e := edges[i];
      ChildrenStep(ids, edges, i, children);
      InDegreeStep(ids, edges, i, indeg);
      ParentStep(ids, edges, i, parent);
      if e.from in nodeById && e.to in nodeById {
        children := children[e.from := children[e.from] + [e.to]];
        indeg := indeg[e.to := (if e.to in indeg then indeg[e.to] else 0) + 1];
        parent := parent[e.to := Some(e.from)];
      }
    }
    assert edges[..|edges|] == edges;
  }

  /** The adjacency of all edges is the index's specification. */
  lemma AdjacencyIsSpec(g: Genome, children: map<string, seq<string>>, indeg: map<string, nat>,
                        parent: map<string, Option<string>>)
    requires AdjacencyOf(IdSet(g), g.edges, children, indeg, parent)
    ensures children == ChildrenMap(g) && parent == ParentMap(g)
    ensures forall x :: x in IdSet(g) ==> NoIncoming(indeg)(x) == HasNoParent(IdSet(g), g.edges)(x)
  {
    ChildrenIsSpec(g, children);
    ParentIsSpec(g, parent);
    NoIncomingIsSpec(g, indeg);
  }

  lemma ChildrenIsSpec(g: Genome, children: map<string, seq<string>>)
    requires ChildrenAre(IdSet(g), g.edges, children)
    ensures children == ChildrenMap(g)
  {
  }

  lemma ParentIsSpec(g: Genome, parent: map<string, Option<string>>)
    requires ParentsAre(IdSet(g), g.edges, parent)
    ensures parent == ParentMap(g)
  {
  }

  lemma NoIncomingIsSpec(g: Genome, indeg: map<string, nat>)
    requires InDegreesAre(IdSet(g), g.edges, indeg)
    ensures forall x :: x in IdSet(g) ==> NoIncoming(indeg)(x) == HasNoParent(IdSet(g), g.edges)(x)
  {
  }

  /** The test of genomeEngine.ts:48, `(indeg[id] || 0) === 0`. */
  function NoIncoming(indeg: map<string, nat>): string -> bool
  {
    x => (if x in indeg then indeg[x] else 0) == 0
  }

  /** A child is a node, and has at least one incoming edge. */
  lemma {:induction false} ChildFacts(ids: set<string>, edges: seq<Edge>, x: string, c: string)
    requires c in ChildrenOf(ids, edges, x)
    ensures c in ids && x in ids && InDegree(ids, edges, c) >= 1
    decreases |edges|
  {
    var e := edges[|edges| - 1];
    var edges' := edges[..|edges| - 1];
    if c in ChildrenOf(ids, edges', x) {
      ChildFacts(ids, edges', x, c);
    }
  }

  /** A node that is the child of two different nodes has in-degree at least two. */
  lemma {:induction false} TwoParents(ids: set<string>, edges: seq<Edge>, x: string, y: string, c: string)
    requires x != y && c in ChildrenOf(ids, edges, x) && c in ChildrenOf(ids, edges, y)
    ensures InDegree(ids, edges, c) >= 2
    decreases |edges|
  {
    var e := edges[|edges| - 1];
    var edges' := edges[..|edges| - 1];
    if c in ChildrenOf(ids, edges', x) && c in ChildrenOf(ids, edges', y) {
      TwoParents(ids, edges', x, y, c);
    } else if c in ChildrenOf(ids, edges', x) {
      ChildFacts(ids, edges', x, c);
    } else {
      ChildFacts(ids, edges', y, c);
    }
  }

  /** The graph of a genome has the shape the walk from the roots needs. */
  lemma GraphOfGenome(g: Genome)
    ensures ChildrenClosed(ChildrenMap(g)) && RootsUnreached(ChildrenMap(g), Roots(g))
    ensures forall i :: 0 <= i < |Roots(g)| ==> Roots(g)[i] in ChildrenMap(g)
    ensures TreeShaped(g) ==> UniqueParents(ChildrenMap(g))
  {
    ChildrenAreNodes(g);
    RootsAreNodes(g);
    if TreeShaped(g) {
      TreeHasUniqueParents(g);
    }
  }

  lemma ChildrenAreNodes(g: Genome)
    ensures ChildrenClosed(ChildrenMap(g)) && RootsUnreached(ChildrenMap(g), Roots(g))
  {
    ChildrenInMap(g);
    ChildrenNotRoots(g);
  }

  lemma ChildrenInMap(g: Genome)
    ensures ChildrenClosed(ChildrenMap(g))
  {
    var ids, ch := IdSet(g), ChildrenMap(g);
    forall x, c | x in ch && c in ch[x] ensures c in ch {
      ChildFacts(ids, g.edges, x, c);
    }
  }

  lemma ChildrenNotRoots(g: Genome)
    ensures RootsUnreached(ChildrenMap(g), Roots(g))
  {
    var ids, ch := IdSet(g), ChildrenMap(g);
    forall x, c | x in ch && c in ch[x] ensures c !in Roots(g) {
      ChildFacts(ids, g.edges, x, c);
      FilterMembers(NodeIds(g.nodes), HasNoParent(ids, g.edges), c);
    }
  }

  lemma RootsAreNodes(g: Genome)
    ensures forall i :: 0 <= i < |Roots(g)| ==> Roots(g)[i] in ChildrenMap(g)
  {
    NodeIdsAreKeys(g.nodes);
  }

  lemma TreeHasUniqueParents(g: Genome)
    requires TreeShaped(g)
    ensures UniqueParents(ChildrenMap(g))
  {
    var ids, ch := IdSet(g), ChildrenMap(g);
    forall x, y, c | x in ch && y in ch && c in ch[x] && c in ch[y] ensures x == y {
      if x != y {
        TwoParents(ids, g.edges, x, y, c);
        ChildFacts(ids, g.edges, x, c);
      }
    }
  }

  /** genomeEngine.ts:31-48: the node dictionary, the adjacency and the roots. */
  method BuildAdjacency(g: Genome)
    returns (nodeById: map<string, Node>, ids: seq<string>, children: map<string, seq<string>>,
             parent: map<string, Option<string>>, roots: seq<string>)
    ensures nodeById == NodeById(g.nodes) && ids == NodeIds(g.nodes)
    ensures children == ChildrenMap(g) && parent == ParentMap(g)
    ensures roots == Roots(g)
  {
    nodeById, ids := IndexNodes(g.nodes);
    NodeIdsAreKeys(g.nodes);
    var indeg;
    children, indeg, parent := InitAdjacency(ids);
    assert (set x | x in ids) == nodeById.Keys;
    children, indeg, parent := AddEdges(nodeById, g.edges, children, indeg, parent);
    roots := Filter(ids, NoIncoming(indeg));
    AdjacencyIsSpec(g, children, indeg, parent);
    FilterExt(ids, NoIncoming(indeg), HasNoParent(IdSet(g), g.edges));
  }

  /**
   * genomeEngine.ts:30-67: the forest index of a genome. The walk from the
   * roots terminates only when no cycle is reachable from a root, which
   * callers must therefore guarantee.
   */
  method BuildGenomeIndex(g: Genome) returns (idx: GenomeIndex)
    requires WalkTerminates(g)
    ensures idx.nodeById == NodeById(g.nodes) && idx.nodeIds == NodeIds(g.nodes)
    ensures idx.children == ChildrenMap(g) && idx.parent == ParentMap(g)
    ensures idx.roots == Roots(g)
    ensures WalkFacts(idx.children, idx.roots, idx.depth, idx.rootFor)
    ensures TreeShaped(g) ==> TreeFacts(idx.children, idx.depth, idx.rootFor)
    ensures IndexFacts(idx)
  {
    var nodeById, ids, children, parent, roots := BuildAdjacency(g);
    GraphOfGenome(g);
    ghost var rank :| RankOk(children, roots, rank);
    var depth, rootFor := AssignDepths(children, roots, rank);
    idx := GenomeIndex(nodeById, ids, children, parent, roots, rootFor, depth);
  }

  // ---------------------------------------------------------------------
  // Properties of the index
  // ---------------------------------------------------------------------

  /** An edge with an unknown end changes no children list, in-degree or parent. */
  lemma InvalidEdgeIgnored(ids: set<string>, edges: seq<Edge>, e: Edge, x: string)
    requires !ValidEdge(ids, e)
    ensures ChildrenOf(ids, edges + [e], x) == ChildrenOf(ids, edges, x)
    ensures InDegree(ids, edges + [e], x) == InDegree(ids, edges, x)
    ensures ParentOf(ids, edges + [e], x) == ParentOf(ids, edges, x)
  {
    assert (edges + [e])[..|edges|] == edges;
  }

  /** The roots are exactly the nodes without a valid incoming edge. */
  lemma RootsHaveNoIncoming(g: Genome, x: string)
    ensures x in Roots(g) <==> x in IdSet(g) && InDegree(IdSet(g), g.edges, x) == 0
  {
    NodeIdsAreKeys(g.nodes);
    var ids := NodeIds(g.nodes);
    if x in IdSet(g) && InDegree(IdSet(g), g.edges, x) == 0 {
      var i :| 0 <= i < |ids| && ids[i] == x;
      assert HasNoParent(IdSet(g), g.edges)(ids[i]);
    }
  }

  /** A node has no parent exactly when it has in-degree zero. */
  lemma {:induction false} NoParentIffNoIncoming(ids: set<string>, edges: seq<Edge>, x: string)
    ensures ParentOf(ids, edges, x) == None <==> InDegree(ids, edges, x) == 0
    decreases |edges|
  {
    if edges != [] {
      NoParentIffNoIncoming(ids, edges[..|edges| - 1], x);
    }
  }

  /**
   * The recorded parent is the source of the last valid edge into the node,
   * and the node is among that parent's children.
   */
  lemma {:induction false} ParentIsLastEdge(ids: set<string>, edges: seq<Edge>, x: string, p: string)
    requires ParentOf(ids, edges, x) == Some(p)
    ensures exists i :: (0 <= i < |edges| && ValidEdge(ids, edges[i]) && edges[i].to == x && edges[i].from == p
      && forall j :: i < j < |edges| ==> !(ValidEdge(ids, edges[j]) && edges[j].to == x))
    ensures x in ChildrenOf(ids, edges, p)
    decreases |edges|
  {
    var n := |edges| - 1;
    var e, edges' := edges[n], edges[..n];
    if ValidEdge(ids, e) && e.to == x {
      assert ChildrenOf(ids, edges, p) == ChildrenOf(ids, edges', p) + [x];
    } else {
      ParentIsLastEdge(ids, edges', x, p);
      var i :| 0 <= i < n && ValidEdge(ids, edges'[i]) && edges'[i].to == x && edges'[i].from == p
        && forall j :: i < j < n ==> !(ValidEdge(ids, edges'[j]) && edges'[j].to == x);
      assert edges[i] == edges'[i];
      forall j | i < j < |edges| ensures !(ValidEdge(ids, edges[j]) && edges[j].to == x) {
        if j < n { assert edges[j] == edges'[j]; }
      }
    }
  }

  /** On a tree, the parent of every child is the node it hangs from. */
  lemma TreeParentOfChild(g: Genome, p: string, c: string)
    requires TreeShaped(g)
    requires c in ChildrenOf(IdSet(g), g.edges, p)
    ensures ParentOf(IdSet(g), g.edges, c) == Some(p)
  {
    var ids := IdSet(g);
    ChildFacts(ids, g.edges, p, c);
    NoParentIffNoIncoming(ids, g.edges, c);
    var q := ParentOf(ids, g.edges, c).value;
    ParentIsLastEdge(ids, g.edges, c, q);
    if q != p {
      TwoParents(ids, g.edges, p, q, c);
    }
  }

  // ---------------------------------------------------------------------
  // Child derivation (genomeEngine.ts:69-121)
  // ---------------------------------------------------------------------

  datatype DerivedBranch = DerivedBranch(rootId: string, latestAchieved: Option<string>, frontier: seq<string>)

  datatype DerivedState = DerivedState(achievedSet: set<string>, branches: seq<DerivedBranch>, frontierAll: seq<string>)

  /** What every index built by `BuildGenomeIndex` satisfies. */
  ghost predicate IndexFacts(idx: GenomeIndex)
  {
    && WalkFacts(idx.children, idx.roots, idx.depth, idx.rootFor)
    && (forall i :: 0 <= i < |idx.roots| ==> idx.roots[i] in idx.nodeIds)
  }

  /** The ids a child has achieved (`new Set(childAchieved.map(a => a.nodeId))`). */
  function AchievedIds(ach: seq<Achievement>): (s: set<string>)
    ensures forall i :: 0 <= i < |ach| ==> ach[i].nodeId in s
    ensures forall x :: x in s ==> exists i :: 0 <= i < |ach| && ach[i].nodeId == x
  {
    if ach == [] then {} else AchievedIds(ach[..|ach| - 1]) + {ach[|ach| - 1].nodeId}
  }

  /** A node belongs to the branch of `r` when its (truthy) root is `r`. */
  function InBranch(rootFor: map<string, string>, r: string): string -> bool
  {
    x => x in rootFor && rootFor[x] == r && r != ""
  }

  /** The sort key `index.depth[x] || 0`. */
  function DepthKey(depth: map<string, int>): string -> real
  {
    x => (if x in depth then depth[x] else 0) as real
  }

  /** The nodes of the branch of `root`, in key order. */
  function Members(idx: GenomeIndex, root: string): seq<string>
  {
    Filter(idx.nodeIds, InBranch(idx.rootFor, root))
  }

  /**
   * The chain walked for a root: its branch sorted by depth, or the root
   * alone when no node lists it as its root.
   */
  function Chain(idx: GenomeIndex, root: string): seq<string>
  {
    var ms := Members(idx, root);
    if ms == [] then [root] else SortByKey(ms, DepthKey(idx.depth))
  }

  /** Length of the longest prefix of `chain` whose nodes are all achieved. */
  function PrefixLen(chain: seq<string>, achieved: set<string>): (k: nat)
    ensures k <= |chain|
    ensures forall i :: 0 <= i < k ==> chain[i] in achieved
    ensures k < |chain| ==> chain[k] !in achieved
  {
    if chain == [] || chain[0] !in achieved then 0 else 1 + PrefixLen(chain[1..], achieved)
  }

  /** The last node of that prefix (the latest achieved node), if the prefix is not empty. */
  function Latest(chain: seq<string>, achieved: set<string>): Option<string>
  {
    var k := PrefixLen(chain, achieved);
    if k == 0 then None else Some(chain[k - 1])
  }

  /**
   * The next candidates: the children of the latest achieved node when it is
   * truthy; otherwise the root's children, or the root itself when it has none.
   */
  function Frontier(children: map<string, seq<string>>, root: string, laa: Option<string>): seq<string>
  {
    if laa.Some? && laa.value != "" then
      (if laa.value in children then children[laa.value] else [])
    else if root in children && |children[root]| > 0 then children[root]
    else [root]
  }

  function BranchOf(idx: GenomeIndex, achieved: set<string>, root: string): DerivedBranch
  {
    var laa := Latest(Chain(idx, root), achieved);
    DerivedBranch(root, laa, Frontier(idx.children, root, laa))
  }

  function BranchMaker(idx: GenomeIndex, achieved: set<string>): string -> DerivedBranch
  {
    root => BranchOf(idx, achieved, root)
  }

  function BranchFrontier(b: DerivedBranch): seq<string> { b.frontier }

  /** The derived state: one branch per root, and the distinct frontier nodes in order. */
  function Derived(idx: GenomeIndex, ach: seq<Achievement>): DerivedState
  {
    var achieved := AchievedIds(ach);
    var branches := MapSeq(idx.roots, BranchMaker(idx, achieved));
    DerivedState(achieved, branches, Dedup(Flatten(MapSeq(branches, BranchFrontier))))
  }

  // The grouping of node ids by root (genomeEngine.ts:84-89).

  ghost predicate GroupsOf(ids: seq<string>, rootFor: map<string, string>,
                           byRoot: map<string, seq<string>>, keys: seq<string>)
  {
    Grouped(ids, rootFor, byRoot) && Covered(ids, rootFor, byRoot) && KeysOf(byRoot, keys)
  }

  /** Each group is the branch of its key, in id order, and is not empty. */
  ghost predicate Grouped(ids: seq<string>, rootFor: map<string, string>, byRoot: map<string, seq<string>>)
  {
    forall r :: r in byRoot ==> byRoot[r] == Filter(ids, InBranch(rootFor, r)) && byRoot[r] != []
  }

  /** Every id with a truthy root has its group. */
  ghost predicate Covered(ids: seq<string>, rootFor: map<string, string>, byRoot: map<string, seq<string>>)
  {
    forall i :: 0 <= i < |ids| && ids[i] in rootFor && rootFor[ids[i]] != "" ==> rootFor[ids[i]] in byRoot
  }

  /** `keys` lists the group keys, each once. */
  ghost predicate KeysOf(byRoot: map<string, seq<string>>, keys: seq<string>)
  {
    NoDups(keys) && (forall r :: r in byRoot <==> r in keys)
  }

  lemma GroupStep(ids: seq<string>, rootFor: map<string, string>, k: nat,
                  byRoot: map<string, seq<string>>, keys: seq<string>)
    requires k < |ids| && GroupsOf(ids[..k], rootFor, byRoot, keys)
    requires ids[k] in rootFor && rootFor[ids[k]] != ""
    ensures GroupsOf(ids[..k + 1], rootFor,
      byRoot[rootFor[ids[k]] := (if rootFor[ids[k]] in byRoot then byRoot[rootFor[ids[k]]] else []) + [ids[k]]],
      if rootFor[ids[k]] in byRoot then keys else keys + [rootFor[ids[k]]])
  {
    GroupStepFilters(ids, rootFor, k, byRoot, keys);
    GroupStepCovers(ids, rootFor, k, byRoot, keys);
    GroupStepKeys(byRoot, keys, rootFor[ids[k]], (if rootFor[ids[k]] in byRoot then byRoot[rootFor[ids[k]]] else []) + [ids[k]]);
  }

  lemma GroupStepKeys(byRoot: map<string, seq<string>>, keys: seq<string>, r: string, g: seq<string>)
    requires KeysOf(byRoot, keys)
    ensures KeysOf(byRoot[r := g], if r in byRoot then keys else keys + [r])
  {
  }

  lemma GroupStepFilters(ids: seq<string>, rootFor: map<string, string>, k: nat,
                         byRoot: map<string, seq<string>>, keys: seq<string>)
    requires k < |ids| && GroupsOf(ids[..k], rootFor, byRoot, keys)
    requires ids[k] in rootFor && rootFor[ids[k]] != ""
    ensures var r := rootFor[ids[k]];
      Grouped(ids[..k + 1], rootFor, byRoot[r := (if r in byRoot then byRoot[r] else []) + [ids[k]]])
  {
    var id, r := ids[k], rootFor[ids[k]];
    var nb := byRoot[r := (if r in byRoot then byRoot[r] else []) + [id]];
    forall s | s in nb ensures nb[s] == Filter(ids[..k + 1], InBranch(rootFor, s)) && nb[s] != [] {
      FilterSnoc(ids, k, InBranch(rootFor, s));
      if s == r && r !in byRoot {
        forall i | 0 <= i < k ensures !InBranch(rootFor, r)(ids[..k][i]) { }
        FilterNone(ids[..k], InBranch(rootFor, r));
      }
    }
  }

  lemma GroupStepCovers(ids: seq<string>, rootFor: map<string, string>, k: nat,
                        byRoot: map<string, seq<string>>, keys: seq<string>)
    requires k < |ids| && GroupsOf(ids[..k], rootFor, byRoot, keys)
    requires ids[k] in rootFor && rootFor[ids[k]] != ""
    ensures var r := rootFor[ids[k]];
      Covered(ids[..k + 1], rootFor, byRoot[r := (if r in byRoot then byRoot[r] else []) + [ids[k]]])
  {
    var ids' := ids[..k + 1];
    var r := rootFor[ids[k]];
    var nb := byRoot[r := (if r in byRoot then byRoot[r] else []) + [ids[k]]];
    forall i | 0 <= i < k + 1 && ids'[i] in rootFor && rootFor[ids'[i]] != ""
      ensures rootFor[ids'[i]] in nb
    {
      if i < k { assert ids'[i] == ids[..k][i]; }
    }
  }

  lemma GroupSkip(ids: seq<string>, rootFor: map<string, string>, k: nat,
                  byRoot: map<string, seq<string>>, keys: seq<string>)
    requires k < |ids| && GroupsOf(ids[..k], rootFor, byRoot, keys)
    requires !(ids[k] in rootFor && rootFor[ids[k]] != "")
    ensures GroupsOf(ids[..k + 1], rootFor, byRoot, keys)
  {
    assert ids[..k + 1] == ids[..k] + [ids[k]];
    assert ids[..k + 1][..k] == ids[..k];
    var ids' := ids[..k + 1];
    forall i | 0 <= i < k + 1 && ids'[i] in rootFor && rootFor[ids'[i]] != ""
      ensures rootFor[ids'[i]] in byRoot
    {
      assert ids'[i] == ids[..k][i];
    }
  }

  /** genomeEngine.ts:84-89: the nodes of each branch, in key order, and the order of the branch keys. */
  method GroupByRoot(ids: seq<string>, rootFor: map<string, string>)
    returns (byRoot: map<string, seq<string>>, keys: seq<string>)
    ensures GroupsOf(ids, rootFor, byRoot, keys)
  {
    byRoot, keys := map[], [];
    for k := 0 to |ids|
      invariant GroupsOf(ids[..k], rootFor, byRoot, keys)
    {
      var id := ids[k];
      if id in rootFor && rootFor[id] != "" {
        var r := rootFor[id];
        GroupStep(ids, rootFor, k, byRoot, keys);
        if r !in byRoot {
          keys := keys + [r];
          byRoot := byRoot[r := []];
        }
        byRoot := byRoot[r := byRoot[r] + [id]];
      } else {
        GroupSkip(ids, rootFor, k, byRoot, keys);
      }
    }
    assert ids[..|ids|] == ids;
  }

  ghost predicate SortedUpTo(groups: map<string, seq<string>>, key: string -> real, keys: seq<string>, k: nat,
                             byRoot: map<string, seq<string>>)
    requires k <= |keys|
  {
    byRoot.Keys == groups.Keys
      && forall r :: r in byRoot ==> byRoot[r] == if r in keys[..k] then SortByKey(groups[r], key) else groups[r]
  }

  /** genomeEngine.ts:91-93: each branch sorted by depth, shallowest first. */
  method SortBranches(groups: map<string, seq<string>>, keys: seq<string>, depth: map<string, int>)
    returns (byRoot: map<string, seq<string>>)
    requires NoDups(keys) && forall r :: r in groups <==> r in keys
    ensures byRoot.Keys == groups.Keys
    ensures forall r :: r in byRoot ==> byRoot[r] == SortByKey(groups[r], DepthKey(depth))
  {
    byRoot := groups;
    for k := 0 to |keys|
      invariant SortedUpTo(groups, DepthKey(depth), keys, k, byRoot)
    {
      var r := keys[k];
      assert keys[..k + 1] == keys[..k] + [r];
      assert r !in keys[..k];
      byRoot := byRoot[r := SortByKey(byRoot[r], DepthKey(depth))];
    }
    assert keys[..|keys|] == keys;
  }

  /** The chain of every root is its sorted group, or the root alone. */
  ghost predicate ChainsOf(idx: GenomeIndex, byRoot: map<string, seq<string>>)
  {
    forall r :: Chain(idx, r) == if r in byRoot then byRoot[r] else [r]
  }

  lemma GroupsGiveChains(idx: GenomeIndex, groups: map<string, seq<string>>, keys: seq<string>,
                         byRoot: map<string, seq<string>>)
    requires GroupsOf(idx.nodeIds, idx.rootFor, groups, keys)
    requires byRoot.Keys == groups.Keys
    requires forall r :: r in byRoot ==> byRoot[r] == SortByKey(groups[r], DepthKey(idx.depth))
    ensures ChainsOf(idx, byRoot)
  {
    forall r ensures Chain(idx, r) == if r in byRoot then byRoot[r] else [r] {
      if r !in byRoot {
        forall i | 0 <= i < |idx.nodeIds| ensures !InBranch(idx.rootFor, r)(idx.nodeIds[i]) { }
        FilterNone(idx.nodeIds, InBranch(idx.rootFor, r));
      }
    }
  }

  /** genomeEngine.ts:98-104: the latest achieved node, scanning the chain until the first gap. */
  method LatestAchieved(chain: seq<string>, achieved: set<string>) returns (laa: Option<string>)
    ensures laa == Latest(chain, achieved)
  {
    laa := None;
    var j := 0;
    while j < |chain|
      invariant j <= |chain| && forall k :: 0 <= k < j ==> chain[k] in achieved
      invariant laa == if j == 0 then None else Some(chain[j - 1])
    {
      if chain[j] in achieved {
        laa := Some(chain[j]);
      } else {
        break;
      }
      j := j + 1;
    }
    assert j == PrefixLen(chain, achieved);
  }

  /** genomeEngine.ts:95-113: one branch per root, in the order of the roots. */
  method DeriveBranches(idx: GenomeIndex, achieved: set<string>, byRoot: map<string, seq<string>>)
    returns (branches: seq<DerivedBranch>)
    requires ChainsOf(idx, byRoot)
    ensures branches == MapSeq(idx.roots, BranchMaker(idx, achieved))
  {
    branches := [];
    for i := 0 to |idx.roots|
      invariant branches == MapSeq(idx.roots[..i], BranchMaker(idx, achieved))
    {
      var b := DeriveBranch(idx, achieved, byRoot, idx.roots[i]);
      BranchStep(idx, achieved, i, branches, b);
      branches := branches + [b];
    }
    assert idx.roots[..|idx.roots|] == idx.roots;
  }

  lemma BranchStep(idx: GenomeIndex, achieved: set<string>, i: nat, branches: seq<DerivedBranch>, b: DerivedBranch)
    requires i < |idx.roots| && branches == MapSeq(idx.roots[..i], BranchMaker(idx, achieved))
    requires b == BranchOf(idx, achieved, idx.roots[i])
    ensures branches + [b] == MapSeq(idx.roots[..i + 1], BranchMaker(idx, achieved))
  {
    MapSeqSnoc(idx.roots, i, BranchMaker(idx, achieved));
  }

  /** genomeEngine.ts:96-111: the branch of one root. */
  method DeriveBranch(idx: GenomeIndex, achieved: set<string>, byRoot: map<string, seq<string>>, root: string)
    returns (b: DerivedBranch)
    requires ChainsOf(idx, byRoot)
    ensures b == BranchOf(idx, achieved, root)
  {
    var chain := if root in byRoot then byRoot[root] else [root];
    assert chain == Chain(idx, root);
    var laa := LatestAchieved(chain, achieved);
    var frontier: seq<string> := [];
    if laa.Some? && laa.value != "" {
      frontier := if laa.value in idx.children then idx.children[laa.value] else [];
    } else {
      frontier := [root];
      if root in idx.children && |idx.children[root]| > 0 {
        frontier := idx.children[root];
      }
    }
    b := DerivedBranch(root, laa, frontier);
  }

  /** genomeEngine.ts:81-121: the per-branch progress of a child. */
  method DeriveStateForChild(idx: GenomeIndex, ach: seq<Achievement>) returns (st: DerivedState)
    ensures st == Derived(idx, ach)
  {
    var achieved := AchievedIds(ach);
    var groups, keys := GroupByRoot(idx.nodeIds, idx.rootFor);
    var byRoot := SortBranches(groups, keys, idx.depth);
    GroupsGiveChains(idx, groups, keys, byRoot);
    var branches := DeriveBranches(idx, achieved, byRoot);
    var frontierAll := Dedup(Flatten(MapSeq(branches, BranchFrontier)));
    st := DerivedState(achieved, branches, frontierAll);
  }

  // Properties of the derived state.

  /** The branch of the `ri`-th root. */
  lemma BranchAt(idx: GenomeIndex, ach: seq<Achievement>, ri: nat)
    requires ri < |idx.roots|
    ensures Derived(idx, ach).branches[ri] == BranchOf(idx, AchievedIds(ach), idx.roots[ri])
  {
  }

  /** One branch per root, in the order of the roots. */
  lemma BranchPerRoot(idx: GenomeIndex, ach: seq<Achievement>)
    ensures |Derived(idx, ach).branches| == |idx.roots|
    ensures forall i :: 0 <= i < |idx.roots| ==> Derived(idx, ach).branches[i].rootId == idx.roots[i]
  {
  }

  /** Some achievement of `ach` is for node `x`. */
  predicate Names(ach: seq<Achievement>, x: string)
  {
    exists i :: 0 <= i < |ach| && ach[i].nodeId == x
  }

  /**
   * The derived state depends on the achievements only through the node ids
   * they name: not on their order, their repetitions or their timestamps.
   */
  lemma AchievedOrderFree(idx: GenomeIndex, a: seq<Achievement>, b: seq<Achievement>)
    requires forall x :: Names(a, x) <==> Names(b, x)
    ensures AchievedIds(a) == AchievedIds(b)
    ensures Derived(idx, a) == Derived(idx, b)
  {
    SameIds(a, b);
  }

  lemma SameIds(a: seq<Achievement>, b: seq<Achievement>)
    requires forall x :: Names(a, x) <==> Names(b, x)
    ensures AchievedIds(a) == AchievedIds(b)
  {
    forall x ensures x in AchievedIds(a) <==> Names(a, x) {
      if Names(a, x) {
        var i :| 0 <= i < |a| && a[i].nodeId == x;
      }
    }
    forall x ensures x in AchievedIds(b) <==> Names(b, x) {
      if Names(b, x) {
        var i :| 0 <= i < |b| && b[i].nodeId == x;
      }
    }
  }

  /**
   * A branch's members are the nodes whose root is that root, ordered by depth;
   * on a built index the root itself heads its chain.
   */
  lemma ChainByDepth(idx: GenomeIndex, root: string)
    ensures forall x :: x in Members(idx, root) <==> x in idx.nodeIds && InBranch(idx.rootFor, root)(x)
    ensures multiset(Chain(idx, root)) == if Members(idx, root) == [] then multiset{root} else multiset(Members(idx, root))
    ensures Members(idx, root) != [] ==> SortedByKey(Chain(idx, root), DepthKey(idx.depth))
  {
    var ms := Members(idx, root);
    forall x | x in idx.nodeIds && InBranch(idx.rootFor, root)(x) ensures x in ms {
      var i :| 0 <= i < |idx.nodeIds| && idx.nodeIds[i] == x;
    }
    if ms != [] {
      SortByKeySorted(ms, DepthKey(idx.depth));
    }
  }

  lemma ChainStartsAtRoot(idx: GenomeIndex, ri: nat)
    requires IndexFacts(idx) && ri < |idx.roots|
    ensures |Chain(idx, idx.roots[ri])| > 0 && Chain(idx, idx.roots[ri])[0] == idx.roots[ri]
  {
    var root := idx.roots[ri];
    var ms := Members(idx, root);
    var key := DepthKey(idx.depth);
    if root != "" {
      FilterMembers(idx.nodeIds, InBranch(idx.rootFor, root), root);
      SortByKeyFirstIsMin(ms, key, root);
      var h := SortByKey(ms, key)[0];
      FilterMembers(idx.nodeIds, InBranch(idx.rootFor, root), h);
      DepthZeroIsRoot(idx.children, idx.roots, idx.depth, idx.rootFor, h);
    }
  }

  /** A node the walk put at depth 0 is a root, and its own root. */
  lemma DepthZeroIsRoot(children: map<string, seq<string>>, roots: seq<string>,
                        depth: map<string, int>, rootFor: map<string, string>, h: string)
    requires WalkFacts(children, roots, depth, rootFor) && h in rootFor && depth[h] <= 0
    ensures h in roots && rootFor[h] == h
  {
    assert forall p :: p in depth ==> depth[h] != depth[p] + 1;
    var i :| 0 <= i < |roots| && roots[i] == h;
  }

  /** No latest achieved node exactly when the root itself is not achieved. */
  lemma LatestNoneIffRootMissing(idx: GenomeIndex, ach: seq<Achievement>, ri: nat)
    requires IndexFacts(idx) && ri < |idx.roots|
    ensures Derived(idx, ach).branches[ri].latestAchieved.None? <==> idx.roots[ri] !in AchievedIds(ach)
  {
    BranchAt(idx, ach, ri);
    ChainStartsAtRoot(idx, ri);
  }

  /**
   * The latest achieved node ends the longest achieved prefix of the chain:
   * it and every node before it are achieved, the node after it is not.
   */
  lemma {:induction false} LatestEndsAchievedPrefix(idx: GenomeIndex, ach: seq<Achievement>, ri: nat)
    requires ri < |idx.roots|
    requires Derived(idx, ach).branches[ri].latestAchieved.Some?
    ensures exists k :: (0 <= k < |Chain(idx, idx.roots[ri])|
      && Chain(idx, idx.roots[ri])[k] == Derived(idx, ach).branches[ri].latestAchieved.value
      && (forall j :: 0 <= j <= k ==> Chain(idx, idx.roots[ri])[j] in AchievedIds(ach))
      && (k + 1 < |Chain(idx, idx.roots[ri])| ==> Chain(idx, idx.roots[ri])[k + 1] !in AchievedIds(ach)))
  {
    BranchAt(idx, ach, ri);
    var chain := Chain(idx, idx.roots[ri]);
    var k := PrefixLen(chain, AchievedIds(ach)) - 1;
    assert chain[k] == Derived(idx, ach).branches[ri].latestAchieved.value;
  }

  /** `x` is on the frontier of one of the branches. */
  predicate OnSomeFrontier(bs: seq<DerivedBranch>, x: string)
  {
    exists i :: 0 <= i < |bs| && x in bs[i].frontier
  }

  /** `frontierAll` lists every frontier node of every branch, each once. */
  lemma FrontierAllIsUnion(idx: GenomeIndex, ach: seq<Achievement>)
    ensures NoDups(Derived(idx, ach).frontierAll)
    ensures forall x :: x in Derived(idx, ach).frontierAll <==> OnSomeFrontier(Derived(idx, ach).branches, x)
  {
    var st := Derived(idx, ach);
    forall x ensures x in st.frontierAll <==> OnSomeFrontier(st.branches, x) {
      FrontierMember(st.branches, x);
    }
  }

  lemma FrontierMember(bs: seq<DerivedBranch>, x: string)
    ensures x in Dedup(Flatten(MapSeq(bs, BranchFrontier))) <==> OnSomeFrontier(bs, x)
  {
    var fs := MapSeq(bs, BranchFrontier);
    DedupMembers(Flatten(fs), x);
    FlattenMembers(fs, x);
    assert forall i :: 0 <= i < |bs| ==> fs[i] == bs[i].frontier;
  }

  /** A chain that is a single path: each node's only child is the next node, the last is a leaf. */
  ghost predicate LinearChain(children: map<string, seq<string>>, chain: seq<string>)
  {
    && (forall j :: 0 <= j < |chain| ==> chain[j] in children && chain[j] != "")
    && (forall j {:trigger children[chain[j]]} :: 0 <= j < |chain| - 1 ==> children[chain[j]] == [chain[j + 1]])
    && (|chain| > 0 ==> children[chain[|chain| - 1]] == [])
  }

  /**
   * On a linear branch whose root is achieved, no frontier node is achieved.
   * (With branching the frontier may hold achieved siblings.)
   */
  lemma LinearFrontierNotAchieved(idx: GenomeIndex, ach: seq<Achievement>, ri: nat)
    requires IndexFacts(idx) && ri < |idx.roots|
    requires LinearChain(idx.children, Chain(idx, idx.roots[ri]))
    requires idx.roots[ri] in AchievedIds(ach)
    ensures forall x :: x in Derived(idx, ach).branches[ri].frontier ==> x !in AchievedIds(ach)
  {
    var chain := Chain(idx, idx.roots[ri]);
    BranchAt(idx, ach, ri);
    ChainStartsAtRoot(idx, ri);
    LinearPrefixFrontier(idx.children, chain, AchievedIds(ach));
  }

  lemma LinearPrefixFrontier(children: map<string, seq<string>>, chain: seq<string>, a: set<string>)
    requires LinearChain(children, chain) && |chain| > 0 && chain[0] in a
    ensures forall x :: x in Frontier(children, chain[0], Latest(chain, a)) ==> x !in a
  {
    var k := PrefixLen(chain, a);
    var laa := chain[k - 1];
    assert Latest(chain, a) == Some(laa) && laa != "" && laa in children;
    if k < |chain| {
      assert children[laa] == [chain[k]];
    } else {
      assert children[laa] == [];
    }
  }
}
