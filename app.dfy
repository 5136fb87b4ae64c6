/**
 * The visualiser's main screen (`src/ui/App.tsx`): the initial child state,
 * the per-ladder "next step", the expand/collapse state of each ladder, the
 * evidence bump and the path from a root to the selected node.
 *
 * `gateSatisfied(n, state)` and `readyScorePlus(n, state, ...)` come from a
 * part of `src/logic.ts` that is not part of this model; for a fixed child
 * state, age, activity index and filter they are the parameters
 * `gateSat: Node -> real` and `readyScore: Node -> real`.
 */
module App {
  import opened Common
  import opened Types
  import Logic

  /** `ChildState`: node id to progress. */
  type ChildState = map<string, NodeState>

  /** `ExpandedMap`: ladder id to the set of expanded node ids. */
  type ExpandedMap = map<string, set<string>>

  // ---------------------------------------------------------------------
  // initialChildState (App.tsx:15-19)
  // ---------------------------------------------------------------------

  /** Every node id gets level 0, confidence 0 and no evidence. */
  method InitialChildState(g: Genome) returns (s: ChildState)
    ensures s.Keys == NodeIds(g.nodes)
    ensures forall id :: id in s ==> s[id] == NodeState(0.0, 0.0, 0)
  {
    s := map[];
    for k := 0 to |g.nodes|
      invariant s.Keys == NodeIds(g.nodes[..k])
      invariant forall id :: id in s ==> s[id] == NodeState(0.0, 0.0, 0)
    {
      assert g.nodes[..k + 1] == g.nodes[..k] + [g.nodes[k]];
      s := s[g.nodes[k].id := NodeState(0.0, 0.0, 0)];
    }
    assert g.nodes[..|g.nodes|] == g.nodes;
  }

  // ---------------------------------------------------------------------
  // Next steps (App.tsx:75-86)
  // ---------------------------------------------------------------------

  datatype NextStep = NextStep(ladderId: string, node: Node, score: real)

  /** `state[id]?.level ?? 0` */
  function LevelOf(state: ChildState, id: string): real
  {
    if id in state then state[id].level else 0.0
  }

  function InLadder(ladderId: string): Node -> bool
  {
    (n: Node) => n.ladderId == ladderId
  }

  /** Gate satisfied and not yet at level 2. */
  function Eligible(state: ChildState, gateSat: Node -> real): Node -> bool
  {
    (n: Node) => gateSat(n) >= 1.0 && LevelOf(state, n.id) < 2.0
  }

  /** The ladder's eligible nodes, in genome order. */
  function Candidates(g: Genome, ladderId: string, state: ChildState, gateSat: Node -> real): seq<Node>
  {
    Filter(Filter(g.nodes, InLadder(ladderId)), Eligible(state, gateSat))
  }

  function StepMaker(ladderId: string, readyScore: Node -> real): Node -> NextStep
  {
    n => NextStep(ladderId, n, readyScore(n))
  }

  function StepScore(x: NextStep): real
  {
    x.score
  }

  /** `scored[0] || null`: the head of the candidates sorted by non-increasing score. */
  function LadderNext(g: Genome, lad: Ladder, state: ChildState, gateSat: Node -> real, readyScore: Node -> real): Option<NextStep>
  {
    var scored := SortDesc(MapSeq(Candidates(g, lad.id, state, gateSat), StepMaker(lad.id, readyScore)), StepScore);
    if |scored| > 0 then Some(scored[0]) else None
  }

  /** `.filter(Boolean)`: the entries that are not `null`, in order. */
  function Present<T(!new)>(s: seq<Option<T>>): (r: seq<T>)
    ensures |r| <= |s|
    ensures forall x :: x in r <==> Some(x) in s
  {
    if s == [] then []
    else
      var p := Present(s[..|s| - 1]);
      var o := s[|s| - 1];
      assert forall x :: Some(x) in s <==> Some(x) in s[..|s| - 1] || o == Some(x) by {
        assert s == s[..|s| - 1] + [o];
      }
      if o.Some? then p + [o.value] else p
  }

  function LadderPicker(g: Genome, state: ChildState, gateSat: Node -> real, readyScore: Node -> real): Ladder -> Option<NextStep>
  {
    lad => LadderNext(g, lad, state, gateSat, readyScore)
  }

  function NextSteps(g: Genome, state: ChildState, gateSat: Node -> real, readyScore: Node -> real): seq<NextStep>
  {
    Present(MapSeq(g.ladders, LadderPicker(g, state, gateSat, readyScore)))
  }

  /** A candidate is exactly a node of the ladder whose gate is satisfied and whose level is below 2. */
  lemma CandidateIff(g: Genome, ladderId: string, state: ChildState, gateSat: Node -> real, n: Node)
    ensures n in Candidates(g, ladderId, state, gateSat)
        <==> n in g.nodes && n.ladderId == ladderId && gateSat(n) >= 1.0 && LevelOf(state, n.id) < 2.0
  {
    var f := Filter(g.nodes, InLadder(ladderId));
    if n in g.nodes && n.ladderId == ladderId && gateSat(n) >= 1.0 && LevelOf(state, n.id) < 2.0 {
      var i :| 0 <= i < |g.nodes| && g.nodes[i] == n;
      assert n in f;
      var j :| 0 <= j < |f| && f[j] == n;
      assert Eligible(state, gateSat)(f[j]);
    }
    if n in Candidates(g, ladderId, state, gateSat) {
      var c := Candidates(g, ladderId, state, gateSat);
      var j :| 0 <= j < |c| && c[j] == n;
      assert n in f;
      var i :| 0 <= i < |f| && f[i] == n;
    }
  }

  /** The head of `c` sorted by non-increasing score, as a next step of `ladderId`. */
  function BestOf(c: seq<Node>, ladderId: string, readyScore: Node -> real): Option<NextStep>
  {
    var scored := SortDesc(MapSeq(c, StepMaker(ladderId, readyScore)), StepScore);
    if |scored| > 0 then Some(scored[0]) else None
  }

  lemma BestOfIsBest(c: seq<Node>, ladderId: string, readyScore: Node -> real)
    ensures BestOf(c, ladderId, readyScore).None? <==> c == []
    ensures var x := BestOf(c, ladderId, readyScore);
      x.Some? ==>
        && x.value.ladderId == ladderId
        && exists i :: (0 <= i < |c| && x.value.node == c[i] && x.value.score == readyScore(c[i])
          && (forall j :: 0 <= j < |c| ==> readyScore(c[j]) <= x.value.score)
          && (forall j :: 0 <= j < i ==> readyScore(c[j]) < x.value.score))
  {
    var s := MapSeq(c, StepMaker(ladderId, readyScore));
    if |c| > 0 {
      SortDescHead(s, StepScore);
      var i :| 0 <= i < |s| && SortDesc(s, StepScore)[0] == s[i]
        && (forall j :: 0 <= j < |s| ==> StepScore(s[i]) >= StepScore(s[j]))
        && (forall j :: 0 <= j < i ==> StepScore(s[j]) != StepScore(s[i]));
      assert s[i] == NextStep(ladderId, c[i], readyScore(c[i]));
      forall j | 0 <= j < |c| ensures readyScore(c[j]) <= readyScore(c[i]) {
        assert StepScore(s[j]) == readyScore(c[j]);
      }
      forall j | 0 <= j < i ensures readyScore(c[j]) < readyScore(c[i]) {
        assert StepScore(s[j]) == readyScore(c[j]);
      }
    }
  }

  /**
   * A ladder has a next step iff it has a candidate; the step is a
   * candidate of the ladder with maximal score, and no earlier candidate
   * reaches that score (ties go to the first in genome order).
   */
  lemma LadderNextIsBest(g: Genome, lad: Ladder, state: ChildState, gateSat: Node -> real, readyScore: Node -> real)
    ensures var c := Candidates(g, lad.id, state, gateSat);
      LadderNext(g, lad, state, gateSat, readyScore).None? <==> c == []
    ensures var c := Candidates(g, lad.id, state, gateSat);
      var x := LadderNext(g, lad, state, gateSat, readyScore);
      x.Some? ==>
        && x.value.ladderId == lad.id
        && exists i :: (0 <= i < |c| && x.value.node == c[i] && x.value.score == readyScore(c[i])
          && (forall j :: 0 <= j < |c| ==> readyScore(c[j]) <= x.value.score)
          && (forall j :: 0 <= j < i ==> readyScore(c[j]) < x.value.score))
  {
    var c := Candidates(g, lad.id, state, gateSat);
    assert LadderNext(g, lad, state, gateSat, readyScore) == BestOf(c, lad.id, readyScore);
    BestOfIsBest(c, lad.id, readyScore);
  }

  /** Every next step comes from some ladder, and every ladder with a step contributes it. */
  lemma NextStepsFromLadders(g: Genome, state: ChildState, gateSat: Node -> real, readyScore: Node -> real)
    ensures var next := NextSteps(g, state, gateSat, readyScore);
      && |next| <= |g.ladders|
      && (forall x :: x in next <==>
            exists j :: 0 <= j < |g.ladders| && LadderNext(g, g.ladders[j], state, gateSat, readyScore) == Some(x))
  {
    var pick := LadderPicker(g, state, gateSat, readyScore);
    forall x ensures x in Present(MapSeq(g.ladders, pick)) <==>
      exists j :: 0 <= j < |g.ladders| && pick(g.ladders[j]) == Some(x)
    {
      PresentMapMembers(g.ladders, pick, x);
    }
  }

  /** What `.map(f).filter(Boolean)` keeps: the values `f` gives some element. */
  lemma PresentMapMembers<T, U(!new)>(ls: seq<T>, f: T -> Option<U>, x: U)
    ensures x in Present(MapSeq(ls, f)) <==> exists j :: 0 <= j < |ls| && f(ls[j]) == Some(x)
  {
    var s := MapSeq(ls, f);
    if Some(x) in s {
      var j :| 0 <= j < |s| && s[j] == Some(x);
    }
    if exists j :: 0 <= j < |ls| && f(ls[j]) == Some(x) {
      var j :| 0 <= j < |ls| && f(ls[j]) == Some(x);
      assert s[j] == Some(x);
    }
  }

  /** With distinct ladder ids, no ladder has two next steps. */
  lemma OneStepPerLadder(g: Genome, state: ChildState, gateSat: Node -> real, readyScore: Node -> real)
    requires forall i, j :: 0 <= i < j < |g.ladders| ==> g.ladders[i].id != g.ladders[j].id
    ensures DistinctLadders(NextSteps(g, state, gateSat, readyScore))
  {
    var pick := LadderPicker(g, state, gateSat, readyScore);
    forall l ensures pick(l).Some? ==> pick(l).value.ladderId == l.id {
      LadderNextIsBest(g, l, state, gateSat, readyScore);
    }
    StepsOfLadders(g.ladders, pick);
  }

  predicate DistinctLadders(next: seq<NextStep>)
  {
    forall i, j :: 0 <= i < j < |next| ==> next[i].ladderId != next[j].ladderId
  }

  predicate FromLadders(next: seq<NextStep>, ls: seq<Ladder>)
  {
    forall i :: 0 <= i < |next| ==> exists j :: 0 <= j < |ls| && next[i].ladderId == ls[j].id
  }

  lemma StepsOfLadders(ls: seq<Ladder>, pick: Ladder -> Option<NextStep>)
    requires forall i, j :: 0 <= i < j < |ls| ==> ls[i].id != ls[j].id
    requires forall l :: pick(l).Some? ==> pick(l).value.ladderId == l.id
    ensures DistinctLadders(Present(MapSeq(ls, pick)))
    ensures FromLadders(Present(MapSeq(ls, pick)), ls)
  {
    StepsDistinct(ls, pick);
    StepsFromLadders(ls, pick);
  }

  lemma StepsFromLadders(ls: seq<Ladder>, pick: Ladder -> Option<NextStep>)
    requires forall l :: pick(l).Some? ==> pick(l).value.ladderId == l.id
    ensures FromLadders(Present(MapSeq(ls, pick)), ls)
  {
    var next := Present(MapSeq(ls, pick));
    forall i | 0 <= i < |next| ensures exists j :: 0 <= j < |ls| && next[i].ladderId == ls[j].id {
      PresentMapMembers(ls, pick, next[i]);
      var j :| 0 <= j < |ls| && pick(ls[j]) == Some(next[i]);
    }
  }

  lemma {:induction false} StepsDistinct(ls: seq<Ladder>, pick: Ladder -> Option<NextStep>)
    requires forall i, j :: 0 <= i < j < |ls| ==> ls[i].id != ls[j].id
    requires forall l :: pick(l).Some? ==> pick(l).value.ladderId == l.id
    ensures DistinctLadders(Present(MapSeq(ls, pick)))
    decreases |ls|
  {
    if ls != [] {
      var ls' := ls[..|ls| - 1];
      var lad := ls[|ls| - 1];
      StepsDistinct(ls', pick);
      StepsFromLadders(ls', pick);
      var s := MapSeq(ls, pick);
      assert s[..|s| - 1] == MapSeq(ls', pick);
      var p := Present(MapSeq(ls', pick));
      if pick(lad).Some? {
        forall i | 0 <= i < |p| ensures p[i].ladderId != lad.id {
          var j :| 0 <= j < |ls'| && p[i].ladderId == ls'[j].id;
          assert ls'[j] == ls[j];
        }
      }
    }
  }

  // ---------------------------------------------------------------------
  // Expand / collapse (App.tsx:90-112)
  // ---------------------------------------------------------------------

  /** `m[ladderId] ?? new Set()` */
  function Expanded(m: ExpandedMap, ladderId: string): set<string>
  {
    if ladderId in m then m[ladderId] else {}
  }

  /** App.tsx:90-98: flips one node of one ladder. */
  function ToggleNode(m: ExpandedMap, ladderId: string, nodeId: string): (r: ExpandedMap)
    ensures r.Keys == m.Keys + {ladderId}
    ensures nodeId in r[ladderId] <==> nodeId !in Expanded(m, ladderId)
    ensures forall x :: x != nodeId ==> (x in r[ladderId] <==> x in Expanded(m, ladderId))
    ensures forall k :: k in m && k != ladderId ==> r[k] == m[k]
  {
    var s := Expanded(m, ladderId);
    m[ladderId := if nodeId in s then s - {nodeId} else s + {nodeId}]
  }

  /** Toggling the same node twice restores the ladder's set. */
  lemma ToggleTwice(m: ExpandedMap, ladderId: string, nodeId: string)
    ensures ToggleNode(ToggleNode(m, ladderId, nodeId), ladderId, nodeId) == m[ladderId := Expanded(m, ladderId)]
  {
    var r := ToggleNode(ToggleNode(m, ladderId, nodeId), ladderId, nodeId);
    assert r[ladderId] == Expanded(m, ladderId);
  }

  function LadderNodeIds(nodes: seq<Node>, ladderId: string): set<string>
  {
    set n | n in nodes && n.ladderId == ladderId :: n.id
  }

  /** App.tsx:99-107, as a value: every node of the ladder is expanded. */
  function ExpandedAll(m: ExpandedMap, nodes: seq<Node>, ladderId: string): (r: ExpandedMap)
    ensures r.Keys == m.Keys + {ladderId}
    ensures forall x :: x in r[ladderId] <==> x in Expanded(m, ladderId) || x in LadderNodeIds(nodes, ladderId)
    ensures forall k :: k in m && k != ladderId ==> r[k] == m[k]
  {
    m[ladderId := Expanded(m, ladderId) + LadderNodeIds(nodes, ladderId)]
  }

  /** App.tsx:99-107: adds the ids of the ladder's nodes one by one. */
  method ExpandAllInLadder(m: ExpandedMap, nodes: seq<Node>, ladderId: string) returns (r: ExpandedMap)
    ensures r == ExpandedAll(m, nodes, ladderId)
  {
    var members := Filter(nodes, InLadder(ladderId));
    var s := Expanded(m, ladderId);
    for k := 0 to |members|
      invariant s == Expanded(m, ladderId) + NodeIds(members[..k])
    {
      assert members[..k + 1] == members[..k] + [members[k]];
      s := s + {members[k].id};
    }
    assert members[..|members|] == members;
    assert NodeIds(members) == LadderNodeIds(nodes, ladderId) by {
      forall x | x in LadderNodeIds(nodes, ladderId) ensures x in NodeIds(members) {
        var n :| n in nodes && n.ladderId == ladderId && n.id == x;
        var i :| 0 <= i < |nodes| && nodes[i] == n;
        assert n in members;
      }
    }
    r := m[ladderId := s];
  }

  /** App.tsx:108-112: the ladder's set becomes empty. */
  function CollapseAll(m: ExpandedMap, ladderId: string): (r: ExpandedMap)
    ensures r.Keys == m.Keys + {ladderId}
    ensures r[ladderId] == {}
    ensures forall k :: k in m && k != ladderId ==> r[k] == m[k]
  {
    m[ladderId := {}]
  }

  /** Expanding all twice is expanding once, and collapsing forgets an expansion. */
  lemma ExpandCollapse(m: ExpandedMap, nodes: seq<Node>, ladderId: string)
    ensures ExpandedAll(ExpandedAll(m, nodes, ladderId), nodes, ladderId) == ExpandedAll(m, nodes, ladderId)
    ensures CollapseAll(ExpandedAll(m, nodes, ladderId), ladderId) == CollapseAll(m, ladderId)
  {
    var e := ExpandedAll(m, nodes, ladderId);
    assert Expanded(e, ladderId) + LadderNodeIds(nodes, ladderId) == e[ladderId];
  }

  // ---------------------------------------------------------------------
  // Evidence bump (App.tsx:115-124)
  // ---------------------------------------------------------------------

  function ConfidenceOf(state: ChildState, id: string): real
  {
    if id in state then state[id].confidence else 0.0
  }

  function EvidenceOf(state: ChildState, id: string): int
  {
    if id in state then state[id].evidence else 0
  }

  /** Level up by `dL` capped at 3, confidence up by `dC` capped at 1, one more piece of evidence. */
  function Bump(s: ChildState, nodeId: string, dL: real, dC: real): (r: ChildState)
    ensures r.Keys == s.Keys + {nodeId}
    ensures r[nodeId].level == Logic.Min(3.0, LevelOf(s, nodeId) + dL)
    ensures r[nodeId].confidence == Logic.Min(1.0, ConfidenceOf(s, nodeId) + dC)
    ensures r[nodeId].evidence == EvidenceOf(s, nodeId) + 1
    ensures forall k :: k in s && k != nodeId ==> r[k] == s[k]
  {
    s[nodeId := NodeState(Logic.Min(3.0, LevelOf(s, nodeId) + dL),
                          Logic.Min(1.0, ConfidenceOf(s, nodeId) + dC),
                          EvidenceOf(s, nodeId) + 1)]
  }

  /** `n` bumps in a row. */
  function BumpTimes(s: ChildState, nodeId: string, dL: real, dC: real, n: nat): ChildState
  {
    if n == 0 then s else Bump(BumpTimes(s, nodeId, dL, dC, n - 1), nodeId, dL, dC)
  }

  /** `x` plus `n` copies of `d`, added one at a time. */
  function AddTimes(x: real, d: real, n: nat): real
  {
    if n == 0 then x else AddTimes(x, d, n - 1) + d
  }

  lemma {:induction false} AddTimesIsProduct(x: real, d: real, n: nat)
    ensures AddTimes(x, d, n) == x + (n as real) * d
  {
    if n > 0 {
      AddTimesIsProduct(x, d, n - 1);
      assert ((n - 1) as real) * d + d == (n as real) * d;
    }
  }

  /** Capping once more after a non-negative step is the same as capping once. */
  lemma CapAdd(cap: real, x: real, d: real)
    requires d >= 0.0
    ensures Logic.Min(cap, Logic.Min(cap, x) + d) == Logic.Min(cap, x + d)
  {
  }

  /**
   * With a non-negative delta, `n >= 1` bumps raise the level by `n`
   * deltas, capped once at 3.
   */
  lemma {:induction false} BumpTimesLevel(s: ChildState, nodeId: string, dL: real, dC: real, n: nat)
    requires dL >= 0.0 && n > 0
    ensures LevelOf(BumpTimes(s, nodeId, dL, dC, n), nodeId) == Logic.Min(3.0, AddTimes(LevelOf(s, nodeId), dL, n))
    decreases n
  {
    var p := BumpTimes(s, nodeId, dL, dC, n - 1);
    var l0 := LevelOf(s, nodeId);
    if n > 1 {
      BumpTimesLevel(s, nodeId, dL, dC, n - 1);
      CapAdd(3.0, AddTimes(l0, dL, n - 1), dL);
    }
  }

  /**
   * With a non-negative delta, `n >= 1` bumps raise the confidence by `n`
   * deltas, capped once at 1.
   */
  lemma {:induction false} BumpTimesConfidence(s: ChildState, nodeId: string, dL: real, dC: real, n: nat)
    requires dC >= 0.0 && n > 0
    ensures ConfidenceOf(BumpTimes(s, nodeId, dL, dC, n), nodeId) == Logic.Min(1.0, AddTimes(ConfidenceOf(s, nodeId), dC, n))
    decreases n
  {
    var p := BumpTimes(s, nodeId, dL, dC, n - 1);
    var c0 := ConfidenceOf(s, nodeId);
    if n > 1 {
      BumpTimesConfidence(s, nodeId, dL, dC, n - 1);
      CapAdd(1.0, AddTimes(c0, dC, n - 1), dC);
    }
  }

  /** `n` bumps add `n` pieces of evidence and leave every other node as it was. */
  lemma {:induction false} BumpTimesEvidence(s: ChildState, nodeId: string, dL: real, dC: real, n: nat)
    ensures EvidenceOf(BumpTimes(s, nodeId, dL, dC, n), nodeId) == EvidenceOf(s, nodeId) + n
    ensures var r := BumpTimes(s, nodeId, dL, dC, n);
      forall k :: k in s && k != nodeId ==> k in r && r[k] == s[k]
  {
    if n > 0 {
      BumpTimesEvidence(s, nodeId, dL, dC, n - 1);
    }
  }

  // ---------------------------------------------------------------------
  // Path to the selected node (App.tsx:127-135)
  // ---------------------------------------------------------------------

  function NodeKey(n: Node): string
  {
    n.id
  }

  /** `Object.fromEntries(nodes.map(n => [n.id, n]))`: the last node with an id wins. */
  function IdToNode(nodes: seq<Node>): map<string, Node>
  {
    IndexBy(nodes, NodeKey)
  }

  /** `cur.parentId ? idToNode[cur.parentId] : undefined` */
  function ParentNode(idx: map<string, Node>, n: Node): (r: Option<Node>)
    ensures r.Some? <==> n.parentId.Some? && n.parentId.value != "" && n.parentId.value in idx
  {
    if n.parentId.Some? && n.parentId.value != "" && n.parentId.value in idx then Some(idx[n.parentId.value]) else None
  }

  /** The node `k` steps up from `n`, if the chain is that long. */
  function Ancestor(idx: map<string, Node>, n: Node, k: nat): Option<Node>
  {
    if k == 0 then Some(n)
    else match Ancestor(idx, n, k - 1)
      case None => None
      case Some(x) => ParentNode(idx, x)
  }

  /** The walk up from `n` reaches a node without a parent in the index (no cycle on the way). */
  ghost predicate ChainEnds(idx: map<string, Node>, n: Node)
  {
    exists k: nat :: Ancestor(idx, n, k).None?
  }

  /**
   * App.tsx:127-135: the nodes from the top of the chain down to the
   * selected node; each is the parent of the next, and the first has no
   * parent in the index.
   */
  method Progression(nodes: seq<Node>, selected: Option<Node>) returns (path: seq<Node>)
    requires selected.Some? ==> ChainEnds(IdToNode(nodes), selected.value)
    ensures selected.None? ==> path == []
    ensures selected.Some? ==>
      && |path| > 0 && path[|path| - 1] == selected.value
      && ParentNode(IdToNode(nodes), path[0]).None?
      && (forall i :: 0 <= i < |path| - 1 ==> ParentNode(IdToNode(nodes), path[i + 1]) == Some(path[i]))
      && (forall k :: 0 <= k < |path| ==> Ancestor(IdToNode(nodes), selected.value, k) == Some(path[|path| - 1 - k]))
  {
    var idx := IdToNode(nodes);
    path := [];
    if selected.None? {
      return;
    }
    var sel := selected.value;
    ghost var bound: nat :| Ancestor(idx, sel, bound).None?;
    var cur: Option<Node> := selected;
    while cur.Some?
      invariant cur == Ancestor(idx, sel, |path|) && |path| <= bound
      invariant UpPath(idx, sel, path)
      decreases bound - |path|
    {
      UpPathStep(idx, sel, path, cur.value);
      path := [cur.value] + path;
      cur := ParentNode(idx, cur.value);
    }
    PathLinks(idx, sel, path);
  }

  /** `path` lists the walk up from `sel`, top first. */
  ghost predicate UpPath(idx: map<string, Node>, sel: Node, path: seq<Node>)
  {
    forall k :: 0 <= k < |path| ==> Ancestor(idx, sel, k) == Some(path[|path| - 1 - k])
  }

  lemma UpPathStep(idx: map<string, Node>, sel: Node, path: seq<Node>, x: Node)
    requires UpPath(idx, sel, path) && Ancestor(idx, sel, |path|) == Some(x)
    ensures UpPath(idx, sel, [x] + path)
    ensures Ancestor(idx, sel, |path| + 1) == ParentNode(idx, x)
  {
    var p := [x] + path;
    forall k | 0 <= k < |p| ensures Ancestor(idx, sel, k) == Some(p[|p| - 1 - k]) {
      if k < |path| {
        assert p[|p| - 1 - k] == path[|path| - 1 - k];
      }
    }
  }

  lemma PathLinks(idx: map<string, Node>, sel: Node, path: seq<Node>)
    requires UpPath(idx, sel, path) && |path| > 0 && Ancestor(idx, sel, |path|).None?
    ensures path[|path| - 1] == sel
    ensures ParentNode(idx, path[0]).None?
    ensures forall i :: 0 <= i < |path| - 1 ==> ParentNode(idx, path[i + 1]) == Some(path[i])
  {
    assert Ancestor(idx, sel, 0) == Some(path[|path| - 1]);
    forall i | 0 <= i < |path| - 1 ensures ParentNode(idx, path[i + 1]) == Some(path[i]) {
      var k := |path| - 2 - i;
      assert Ancestor(idx, sel, k) == Some(path[i + 1]);
      assert Ancestor(idx, sel, k + 1) == Some(path[i]);
    }
    assert Ancestor(idx, sel, |path| - 1) == Some(path[0]);
  }
}
