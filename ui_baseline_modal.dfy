/**
 * The visualiser's baseline evaluation grid (`src/ui/BaselineModal.tsx`):
 * the parent map and ancestor walk, the 3-month age buckets, the per-node
 * evaluation cycle 0 -> 1 -> 2 -> 0, the merge of stored levels into the
 * evaluation, the achievement overlay written on "Achieved" and on save,
 * and the tag-by-bucket grid of nodes.
 *
 * Browser storage is not modelled: the stored achievement list and levels
 * are inputs, and what would be written back is the result. The clock
 * (`new Date().toISOString()`) is the parameter `now`.
 */
module UiBaselineModal {
  import opened Common
  import opened Types
  import opened ParentChain
  import GE = GenomeEngine
  import SI = ServicesIndex

  /** 0 = not observed, 1 = emerging, 2 = achieved. */
  type EvalState = x: int | 0 <= x <= 2

  // ---------------------------------------------------------------------
  // Parent map and ancestor walk (BaselineModal.tsx:6-22)
  // ---------------------------------------------------------------------

  /** `nodes[i]` is the last node with its id. */
  predicate LastWithId(nodes: seq<Node>, i: nat, upTo: nat)
    requires i < upTo <= |nodes|
  {
    forall j :: i < j < upTo ==> nodes[j].id != nodes[i].id
  }

  /** BaselineModal.tsx:6-10: each id to its node's `parentId`; for a repeated id the last node wins. */
  method BuildParentMap(nodes: seq<Node>) returns (m: map<string, Option<string>>)
    ensures m.Keys == NodeIds(nodes)
    ensures forall i :: 0 <= i < |nodes| && LastWithId(nodes, i, |nodes|) ==> m[nodes[i].id] == nodes[i].parentId
  {
    m := map[];
    for k := 0 to |nodes|
      invariant k <= |nodes| && ParentsUpTo(nodes, m, k)
    {
      ParentStep(nodes, m, k);
      m := m[nodes[k].id := nodes[k].parentId];
    }
    assert nodes[..|nodes|] == nodes;
  }

  /** The map after the first `k` nodes. */
  ghost predicate ParentsUpTo(nodes: seq<Node>, m: map<string, Option<string>>, k: nat)
    requires k <= |nodes|
  {
    m.Keys == NodeIds(nodes[..k])
    && forall i :: 0 <= i < k && LastWithId(nodes, i, k) ==> m[nodes[i].id] == nodes[i].parentId
  }

  lemma ParentStep(nodes: seq<Node>, m: map<string, Option<string>>, k: nat)
    requires k < |nodes| && ParentsUpTo(nodes, m, k)
    ensures ParentsUpTo(nodes, m[nodes[k].id := nodes[k].parentId], k + 1)
  {
    var m' := m[nodes[k].id := nodes[k].parentId];
    assert nodes[..k + 1] == nodes[..k] + [nodes[k]];
    assert m'.Keys == NodeIds(nodes[..k + 1]);
    forall i | 0 <= i < k + 1 && LastWithId(nodes, i, k + 1) ensures m'[nodes[i].id] == nodes[i].parentId {
      if i < k {
        assert nodes[k].id != nodes[i].id;
        assert LastWithId(nodes, i, k);
      }
    }
  }

  /**
   * BaselineModal.tsx:12-22: `id`, then its parents, stopping at a missing
   * or empty parent or at an id already listed (so a cycle ends it).
   */
  method ExpandWithParents(id: string, parentMap: map<string, Option<string>>) returns (out: seq<string>)
    ensures out == Chain(parentMap, id)
  {
    out := WalkUp(parentMap, [], id);
    WalkIsChain(parentMap, id, out);
  }

  // ---------------------------------------------------------------------
  // Age buckets (BaselineModal.tsx:24-32, 41)
  // ---------------------------------------------------------------------

  /** A bucket `[start, end)` of months; its label is not modelled. */
  datatype Bucket = Bucket(start: int, end: int)

  /** `Math.ceil(a / b)` for a positive `b`. */
  function CeilDiv(a: int, b: int): (c: int)
    requires b > 0
    ensures c * b >= a && (c - 1) * b < a
  {
    var q := (-a) / b;
    assert -a == q * b + (-a) % b;
    -q
  }

  /** The number of buckets: `max(step, ceil(maxEnd / step) * step) / step`. */
  function BucketCount(maxEnd: int, step: int): (n: int)
    requires step > 0
    ensures n >= 1
  {
    var c := CeilDiv(maxEnd, step);
    if c >= 1 then c else 1
  }

  /** The loop bound `max(step, ceil(maxEnd / step) * step)` is `BucketCount * step`. */
  lemma BucketEnd(maxEnd: int, step: int)
    requires step > 0
    ensures BucketCount(maxEnd, step) * step
         == (if step >= CeilDiv(maxEnd, step) * step then step else CeilDiv(maxEnd, step) * step)
  {
    var c := CeilDiv(maxEnd, step);
    if c >= 1 {
      MulAtLeastOne(c, step);
    } else {
      MulNonPositive(c, step);
    }
  }

  lemma MulAtLeastOne(c: int, step: int)
    requires c >= 1 && step > 0
    ensures c * step >= step
  {
    MulSucc(c - 1, step);
  }

  lemma MulNonPositive(c: int, step: int)
    requires c <= 0 && step > 0
    ensures c * step <= 0
  {
    assert c * step == -((-c) * step);
  }

  lemma MulLess(a: int, b: int, step: int)
    requires step > 0 && a * step < b * step
    ensures a < b
  {
    assert (b - a) * step == b * step - a * step;
  }

  lemma MulAtMost(a: int, b: int, step: int)
    requires step > 0 && a * step <= b * step
    ensures a <= b
  {
    assert (b - a) * step == b * step - a * step;
  }

  /**
   * BaselineModal.tsx:24-32: contiguous buckets of width `step` from 0;
   * there are `BucketCount` of them, so at least one.
   */
  method Bucketize(maxEnd: int, step: int) returns (buckets: seq<Bucket>)
    requires step > 0
    ensures |buckets| == BucketCount(maxEnd, step)
    ensures forall k :: 0 <= k < |buckets| ==> buckets[k] == Bucket(k * step, k * step + step)
  {
    var n := BucketCount(maxEnd, step);
    BucketEnd(maxEnd, step);
    var end := if step >= CeilDiv(maxEnd, step) * step then step else CeilDiv(maxEnd, step) * step;
    assert end == n * step;
    buckets := [];
    var s := 0;
    while s < end
      invariant s == |buckets| * step && |buckets| <= n
      invariant forall k :: 0 <= k < |buckets| ==> buckets[k] == Bucket(k * step, k * step + step)
      decreases end - s
    {
      MulLess(|buckets|, n, step);
      MulSucc(|buckets|, step);
      buckets := buckets + [Bucket(s, s + step)];
      s := s + step;
    }
    MulAtMost(n, |buckets|, step);
  }

  /**
   * The buckets reach `maxEnd`: the last one ends at the least multiple of
   * `step` that is at least `maxEnd`, or at `step` when that is smaller.
   */
  lemma BucketsCover(maxEnd: int, step: int)
    requires step > 0
    ensures BucketCount(maxEnd, step) * step >= maxEnd
    ensures BucketCount(maxEnd, step) * step >= step
    ensures BucketCount(maxEnd, step) == 1 || (BucketCount(maxEnd, step) - 1) * step < maxEnd
  {
    BucketEnd(maxEnd, step);
  }

  function EndOf(n: Node): int
  {
    if n.ageBand.Some? && n.ageBand.value.typicalEnd.Some? then n.ageBand.value.typicalEnd.value else 0
  }

  /** BaselineModal.tsx:41: `max(0, typicalEnd ?? 0, ...)` over the nodes. */
  function MaxEnd(nodes: seq<Node>): (m: int)
    ensures m >= 0
    ensures forall i :: 0 <= i < |nodes| ==> EndOf(nodes[i]) <= m
    ensures m == 0 || exists i :: 0 <= i < |nodes| && EndOf(nodes[i]) == m
  {
    if nodes == [] then 0
    else
      var p := MaxEnd(nodes[..|nodes| - 1]);
      var e := EndOf(nodes[|nodes| - 1]);
      assert forall i :: 0 <= i < |nodes| - 1 ==> nodes[i] == nodes[..|nodes| - 1][i];
      if e > p then e else p
  }

  // ---------------------------------------------------------------------
  // Evaluation from stored levels (BaselineModal.tsx:61-66)
  // ---------------------------------------------------------------------

  /** Level 2 or more is achieved, a positive level is emerging, anything else not observed. */
  function EvalOf(lvl: real): EvalState
  {
    if lvl >= 2.0 then 2 else if lvl > 0.0 then 1 else 0
  }

  /** `{ ...savedEval, ...fromLevels }`: the level-derived entries override the saved ones. */
  function MergeEval(saved: map<string, EvalState>, levels: map<string, real>): (r: map<string, EvalState>)
    ensures r.Keys == saved.Keys + levels.Keys
    ensures forall k :: k in levels ==> r[k] == EvalOf(levels[k])
    ensures forall k :: k in saved && k !in levels ==> r[k] == saved[k]
  {
    map k | k in saved.Keys + levels.Keys :: if k in levels then EvalOf(levels[k]) else saved[k]
  }

  /** A higher level never gives a lower evaluation. */
  lemma EvalOfMonotone(l1: real, l2: real)
    requires l1 <= l2
    ensures EvalOf(l1) <= EvalOf(l2)
  {
  }

  /** Merging the same levels again changes nothing. */
  lemma MergeIdempotent(saved: map<string, EvalState>, levels: map<string, real>)
    ensures MergeEval(MergeEval(saved, levels), levels) == MergeEval(saved, levels)
  {
  }

  // ---------------------------------------------------------------------
  // Cycling a node's evaluation (BaselineModal.tsx:95-107)
  // ---------------------------------------------------------------------

  /** `prev[nodeId] ?? 0` */
  function EvalAt(m: map<string, EvalState>, id: string): EvalState
  {
    if id in m then m[id] else 0
  }

  /** The next state in the cycle 0 -> 1 -> 2 -> 0. */
  function NextEval(cur: EvalState): (n: EvalState)
    ensures cur == 0 ==> n == 1
    ensures cur == 1 ==> n == 2
    ensures cur == 2 ==> n == 0
  {
    (cur + 1) % 3
  }

  /**
   * BaselineModal.tsx:95-107: the node moves one step round the cycle;
   * when it reaches 2, the node and every id on its chain of parents are
   * set to 2. Nothing else changes. (The overlay it also writes is
   * `MarkAchievedOverlay`.)
   */
  method CycleState(prev: map<string, EvalState>, nodeId: string, parentMap: map<string, Option<string>>)
    returns (m: map<string, EvalState>)
    ensures NextEval(EvalAt(prev, nodeId)) != 2 ==> m == prev[nodeId := NextEval(EvalAt(prev, nodeId))]
    ensures NextEval(EvalAt(prev, nodeId)) == 2 ==>
      && m.Keys == prev.Keys + {nodeId} + Elems(Chain(parentMap, nodeId))
      && m[nodeId] == 2
      && (forall x :: x in Chain(parentMap, nodeId) ==> m[x] == 2)
      && (forall k :: k in prev && k != nodeId && k !in Chain(parentMap, nodeId) ==> m[k] == prev[k])
  {
    var next := NextEval(EvalAt(prev, nodeId));
    m := prev[nodeId := next];
    if next == 2 {
      var chain := ExpandWithParents(nodeId, parentMap);
      ghost var base := m;
      for i := 0 to |chain|
        invariant m == SetTwo(base, chain[..i])
      {
        assert chain[..i + 1][..i] == chain[..i];
        m := m[chain[i] := 2];
      }
      assert chain[..|chain|] == chain;
      SetTwoProps(base, chain);
    }
  }

  /** Every id of `xs`, in order, set to 2. */
  function SetTwo(m: map<string, EvalState>, xs: seq<string>): map<string, EvalState>
  {
    if xs == [] then m else SetTwo(m, xs[..|xs| - 1])[xs[|xs| - 1] := 2]
  }

  /** Setting ids to 2 adds them, gives each the value 2, and leaves every other entry. */
  lemma {:induction false} SetTwoProps(m: map<string, EvalState>, xs: seq<string>)
    ensures SetTwo(m, xs).Keys == m.Keys + Elems(xs)
    ensures forall x :: x in xs ==> SetTwo(m, xs)[x] == 2
    ensures forall k :: k in m && k !in xs ==> SetTwo(m, xs)[k] == m[k]
    decreases |xs|
  {
    if xs != [] {
      var init := xs[..|xs| - 1];
      SetTwoProps(m, init);
      assert xs == init + [xs[|xs| - 1]];
    }
  }


  // ---------------------------------------------------------------------
  // Achievement overlay (BaselineModal.tsx:76-93, 109-128)
  // ---------------------------------------------------------------------

  function AchId(a: GE.Achievement): string
  {
    a.nodeId
  }

  /** `new Set(list.map(x => x.nodeId))` */
  function Have(list: seq<GE.Achievement>): set<string>
  {
    Elems(MapSeq(list, AchId))
  }

  lemma HaveConcat(a: seq<GE.Achievement>, b: seq<GE.Achievement>)
    ensures Have(a + b) == Have(a) + Have(b)
  {
    assert MapSeq(a + b, AchId) == MapSeq(a, AchId) + MapSeq(b, AchId);
  }

  function NotIn(have: set<string>): string -> bool
  {
    x => x !in have
  }

  /** `{ nodeId: id, at: now }` */
  function Stamp(now: string): string -> GE.Achievement
  {
    id => GE.Achievement(id, Some(now), None)
  }

  /** The record pushed for each id of `ids` that is not in `have`; `have` itself is not updated. */
  function Appended(ids: seq<string>, have: set<string>, now: string): seq<GE.Achievement>
  {
    MapSeq(Filter(ids, NotIn(have)), Stamp(now))
  }

  /** The appended records name exactly the ids not already present, in order, each stamped `now`. */
  lemma AppendedIds(ids: seq<string>, have: set<string>, now: string)
    ensures MapSeq(Appended(ids, have, now), AchId) == Filter(ids, NotIn(have))
    ensures forall k :: 0 <= k < |Appended(ids, have, now)| ==>
      Appended(ids, have, now)[k].at == Some(now) && Appended(ids, have, now)[k].evidenceId.None?
  {
  }

  lemma AppendedStep(ids: seq<string>, i: nat, have: set<string>, now: string)
    requires i < |ids|
    ensures Appended(ids[..i + 1], have, now)
         == Appended(ids[..i], have, now) + (if ids[i] in have then [] else [Stamp(now)(ids[i])])
  {
    assert ids[..i + 1][..i] == ids[..i];
  }

  /** `ids.forEach(id => { if (!have.has(id)) list.push({ nodeId: id, at: now }) })` */
  method AppendAbsent(list: seq<GE.Achievement>, have: set<string>, ids: seq<string>, now: string)
    returns (out: seq<GE.Achievement>)
    ensures out == list + Appended(ids, have, now)
  {
    out := list;
    for i := 0 to |ids|
      invariant out == list + Appended(ids[..i], have, now)
    {
      AppendedStep(ids, i, have, now);
      out := PushIfAbsent(out, have, ids[i], now);
    }
    assert ids[..|ids|] == ids;
  }

  /**
   * BaselineModal.tsx:76-93: the stored list with a record, stamped `now`,
   * appended for each id on the node's chain that is not yet listed; and
   * the levels written beside it, 3 for every listed id.
   */
  method MarkAchievedOverlay(list: seq<GE.Achievement>, nodeId: string, parentMap: map<string, Option<string>>, now: string)
    returns (out: seq<GE.Achievement>, levels: map<string, int>)
    ensures out == list + Appended(Chain(parentMap, nodeId), Have(list), now)
    ensures levels.Keys == Have(out) && forall x :: x in levels ==> levels[x] == 3
  {
    var chain := ExpandWithParents(nodeId, parentMap);
    out := AppendAbsent(list, Have(list), chain, now);
    levels := SI.LevelsOf(MapSeq(out, AchId));
  }

  /** After appending, every id of `ids` is listed. */
  lemma AppendedCovers(list: seq<GE.Achievement>, ids: seq<string>, now: string)
    ensures forall x :: x in ids ==> x in Have(list + Appended(ids, Have(list), now))
  {
    HaveConcat(list, Appended(ids, Have(list), now));
    AppendedIds(ids, Have(list), now);
  }


  /**
   * The overlay lists every id of the node's chain afterwards, and adds
   * each missing one exactly once and nothing already listed.
   */
  lemma OverlayProps(list: seq<GE.Achievement>, nodeId: string, parentMap: map<string, Option<string>>, now: string)
    ensures forall x :: x in Chain(parentMap, nodeId) ==> x in Have(list + Appended(Chain(parentMap, nodeId), Have(list), now))
    ensures NoDups(MapSeq(Appended(Chain(parentMap, nodeId), Have(list), now), AchId))
    ensures forall x :: x in MapSeq(Appended(Chain(parentMap, nodeId), Have(list), now), AchId) ==>
      x in Chain(parentMap, nodeId) && x !in Have(list)
  {
    var c := Chain(parentMap, nodeId);
    AppendedCovers(list, c, now);
    AppendedIds(c, Have(list), now);
    FilterKeepsNoDups(c, NotIn(Have(list)));
  }

  /** `(evalMap[id] ?? 0) === 2` */
  function IsAchieved(evalMap: map<string, EvalState>): string -> bool
  {
    id => EvalAt(evalMap, id) == 2
  }

  function ChainOf(parentMap: map<string, Option<string>>): string -> seq<string>
  {
    id => Chain(parentMap, id)
  }

  /** The chains of `ids`, one after the other. */
  function Chains(ids: seq<string>, parentMap: map<string, Option<string>>): seq<string>
  {
    ConcatMap(ids, ChainOf(parentMap))
  }

  lemma ChainsMembers(ids: seq<string>, parentMap: map<string, Option<string>>, x: string)
    ensures x in Chains(ids, parentMap) <==> exists i :: 0 <= i < |ids| && x in Chain(parentMap, ids[i])
  {
    ConcatMapMembers(ids, ChainOf(parentMap), x);
  }

  /** The ids `saveAll` visits: the chains of the achieved keys, in key order. */
  function SaveAllIds(evalKeys: seq<string>, evalMap: map<string, EvalState>, parentMap: map<string, Option<string>>): seq<string>
  {
    Chains(Filter(evalKeys, IsAchieved(evalMap)), parentMap)
  }

  /** The loop over the achieved ids, collecting their chains. */
  method CollectChains(achieved: seq<string>, parentMap: map<string, Option<string>>) returns (ids: seq<string>)
    ensures ids == Chains(achieved, parentMap)
  {
    ids := [];
    for i := 0 to |achieved|
      invariant ids == Chains(achieved[..i], parentMap)
    {
      assert achieved[..i + 1][..i] == achieved[..i];
      var chain := ExpandWithParents(achieved[i], parentMap);
      ids := ids + chain;
    }
    assert achieved[..|achieved|] == achieved;
  }

  /**
   * BaselineModal.tsx:109-128 as written: for each evaluation key at 2, in
   * key order (`evalKeys` is `Object.keys(evalMap)`), the ids of its chain
   * not in the stored list are appended, stamped `now`; then the levels,
   * 3 per listed id. `have` is computed once, before the loop.
   */
  method SaveAll(list: seq<GE.Achievement>, evalKeys: seq<string>, evalMap: map<string, EvalState>,
                 parentMap: map<string, Option<string>>, now: string)
    returns (out: seq<GE.Achievement>, levels: map<string, int>)
    ensures out == list + Appended(SaveAllIds(evalKeys, evalMap, parentMap), Have(list), now)
    ensures levels.Keys == Have(out) && forall x :: x in levels ==> levels[x] == 3
  {
    var ids := CollectChains(Filter(evalKeys, IsAchieved(evalMap)), parentMap);
    out := AppendAbsent(list, Have(list), ids, now);
    levels := SI.LevelsOf(MapSeq(out, AchId));
  }

  /**
   * As written, an ancestor shared by two achieved keys is appended once
   * per key. Cycling a child to 2 sets its parent to 2 as well, so saving
   * with child "a" and root "r" achieved writes "r" twice.
   */
  lemma SaveAllDuplicates()
    ensures var pm := map["a" := Some("r"), "r" := None];
      var em: map<string, EvalState> := map["a" := 2, "r" := 2];
      MapSeq(Appended(SaveAllIds(["a", "r"], em, pm), {}, "t"), AchId) == ["a", "r", "r"]
  {
    var pm := map["a" := Some("r"), "r" := None];
    var em: map<string, EvalState> := map["a" := 2, "r" := 2];
    ExampleIds();
    AppendedIds(["a", "r", "r"], {}, "t");
    FilterAll(["a", "r", "r"], NotIn({}));
  }

  lemma ExampleIds()
    ensures SaveAllIds(["a", "r"], map["a" := 2, "r" := 2], map["a" := Some("r"), "r" := None]) == ["a", "r", "r"]
  {
    ExampleAchieved();
    ExampleChains();
  }

  lemma ExampleAchieved()
    ensures Filter(["a", "r"], IsAchieved(map["a" := 2, "r" := 2])) == ["a", "r"]
  {
    var em: map<string, EvalState> := map["a" := 2, "r" := 2];
    assert ["a", "r"][..1] == ["a"];
    assert Filter(["a"], IsAchieved(em)) == ["a"];
  }

  lemma ExampleChains()
    ensures Chains(["a", "r"], map["a" := Some("r"), "r" := None]) == ["a", "r", "r"]
  {
    ExampleParents();
    ChildThenRoot(map["a" := Some("r"), "r" := None], "a", "r");
  }

  /** A child listed before its root: the child's chain reaches the root, which is then listed again. */
  lemma ChildThenRoot(pm: map<string, Option<string>>, a: string, r: string)
    requires a != "" && r != "" && a != r
    requires Next(pm, a) == Some(r) && Next(pm, r) == None
    ensures Chains([a, r], pm) == [a, r, r]
  {
    ChainOfRoot(pm, r);
    ChainOfRootChild(pm, a, r);
    var f := ChainOf(pm);
    assert f(a) == [a, r] && f(r) == [r];
    assert [a, r][..1] == [a] && [a][..0] == [];
    assert ConcatMap([a], f) == ConcatMap([], f) + f(a);
    assert ConcatMap([a, r], f) == ConcatMap([a], f) + f(r);
  }

  lemma ExampleParents()
    ensures Next(map["a" := Some("r"), "r" := None], "a") == Some("r")
    ensures Next(map["a" := Some("r"), "r" := None], "r") == None
  {
  }

  /** The ids a save that records each id once adds: each id's first occurrence, unless already listed. */
  function FreshIds(ids: seq<string>, have: set<string>): seq<string>
  {
    if ids == [] then []
    else
      var p := ids[..|ids| - 1];
      var x := ids[|ids| - 1];
      FreshIds(p, have) + (if x in have || x in p then [] else [x])
  }

  lemma FreshStep(ids: seq<string>, i: nat, have: set<string>)
    requires i < |ids|
    ensures FreshIds(ids[..i + 1], have)
         == FreshIds(ids[..i], have) + (if ids[i] in have || ids[i] in ids[..i] then [] else [ids[i]])
  {
    assert ids[..i + 1][..i] == ids[..i];
  }

  /** An independent statement of the same ids: the de-duplicated ids, less those already listed. */
  lemma {:induction false} FreshIdsIsFilterDedup(ids: seq<string>, have: set<string>)
    ensures FreshIds(ids, have) == Filter(Dedup(ids), NotIn(have))
    decreases |ids|
  {
    if ids != [] {
      var p := ids[..|ids| - 1];
      var x := ids[|ids| - 1];
      FreshIdsIsFilterDedup(p, have);
      DedupMembers(p, x);
      FilterConcat(Dedup(p), if x in Dedup(p) then [] else [x], NotIn(have));
    }
  }

  /** `saveAll` with `have` updated after each push. */
  method AppendFresh(list: seq<GE.Achievement>, ids: seq<string>, now: string)
    returns (out: seq<GE.Achievement>)
    ensures out == list + MapSeq(FreshIds(ids, Have(list)), Stamp(now))
  {
    var have := Have(list);
    ghost var h0 := have;
    out := list;
    for i := 0 to |ids|
      invariant have == h0 + Elems(ids[..i])
      invariant out == list + MapSeq(FreshIds(ids[..i], h0), Stamp(now))
    {
      var out' := PushIfAbsent(out, have, ids[i], now);
      FreshStepAll(list, ids, i, h0, have, out, out', now);
      out := out';
      have := have + {ids[i]};
    }
    assert ids[..|ids|] == ids;
  }

  /** `if (!have.has(id)) list.push({ nodeId: id, at: now })` */
  method PushIfAbsent(list: seq<GE.Achievement>, have: set<string>, id: string, now: string)
    returns (out: seq<GE.Achievement>)
    ensures out == list + (if id in have then [] else [Stamp(now)(id)])
  {
    out := list;
    if id !in have {
      out := out + [GE.Achievement(id, Some(now), None)];
    }
  }

  lemma FreshStepAll(list: seq<GE.Achievement>, ids: seq<string>, i: nat, h0: set<string>, have: set<string>,
                     out: seq<GE.Achievement>, out': seq<GE.Achievement>, now: string)
    requires i < |ids| && have == h0 + Elems(ids[..i])
    requires out == list + MapSeq(FreshIds(ids[..i], h0), Stamp(now))
    requires out' == out + (if ids[i] in have then [] else [Stamp(now)(ids[i])])
    ensures have + {ids[i]} == h0 + Elems(ids[..i + 1])
    ensures out' == list + MapSeq(FreshIds(ids[..i + 1], h0), Stamp(now))
  {
    RecordsStep(ids, i, h0, have, now);
    ElemsSnoc(ids, i);
  }

  lemma RecordsStep(ids: seq<string>, i: nat, h0: set<string>, have: set<string>, now: string)
    requires i < |ids| && have == h0 + Elems(ids[..i])
    ensures MapSeq(FreshIds(ids[..i + 1], h0), Stamp(now))
         == MapSeq(FreshIds(ids[..i], h0), Stamp(now)) + (if ids[i] in have then [] else [Stamp(now)(ids[i])])
  {
    FreshStep(ids, i, h0);
    ElemsSnoc(ids, i);
    var f := FreshIds(ids[..i], h0);
    MapSeqConcat(f, if ids[i] in have then [] else [ids[i]], Stamp(now));
  }

  lemma ElemsSnoc(ids: seq<string>, i: nat)
    requires i < |ids|
    ensures Elems(ids[..i + 1]) == Elems(ids[..i]) + {ids[i]}
    ensures ids[i] in Elems(ids[..i]) <==> ids[i] in ids[..i]
  {
    assert ids[..i + 1] == ids[..i] + [ids[i]];
  }

  /** BaselineModal.tsx:109-128 with each id recorded at most once. */
  method SaveAllOnce(list: seq<GE.Achievement>, evalKeys: seq<string>, evalMap: map<string, EvalState>,
                     parentMap: map<string, Option<string>>, now: string)
    returns (out: seq<GE.Achievement>, levels: map<string, int>)
    ensures out == list + MapSeq(FreshIds(SaveAllIds(evalKeys, evalMap, parentMap), Have(list)), Stamp(now))
    ensures levels.Keys == Have(out) && forall x :: x in levels ==> levels[x] == 3
  {
    var ids := CollectChains(Filter(evalKeys, IsAchieved(evalMap)), parentMap);
    out := AppendFresh(list, ids, now);
    levels := SI.LevelsOf(MapSeq(out, AchId));
  }

  /**
   * The corrected save adds each id once, never one already listed, and
   * afterwards lists every id on the chain of every achieved key.
   */
  lemma SaveAllOnceProps(list: seq<GE.Achievement>, ids: seq<string>, now: string)
    ensures NoDups(MapSeq(MapSeq(FreshIds(ids, Have(list)), Stamp(now)), AchId))
    ensures forall x :: x in MapSeq(MapSeq(FreshIds(ids, Have(list)), Stamp(now)), AchId) ==> x in ids && x !in Have(list)
    ensures forall x :: x in ids ==> x in Have(list + MapSeq(FreshIds(ids, Have(list)), Stamp(now)))
  {
    var f := FreshIds(ids, Have(list));
    FreshIdsIsFilterDedup(ids, Have(list));
    var add := MapSeq(f, Stamp(now));
    assert MapSeq(add, AchId) == f;
    FilterKeepsNoDups(Dedup(ids), NotIn(Have(list)));
    HaveConcat(list, add);
    forall x | x in f ensures x in ids && x !in Have(list) {
      DedupMembers(ids, x);
    }
    forall x | x in ids && x !in Have(list) ensures x in Have(list + add) {
      DedupMembers(ids, x);
      assert x in f;
    }
  }

  /** Every id the corrected save visits is a member of an achieved key's chain and vice versa. */
  lemma SaveAllIdsMembers(evalKeys: seq<string>, evalMap: map<string, EvalState>, parentMap: map<string, Option<string>>, x: string)
    ensures x in SaveAllIds(evalKeys, evalMap, parentMap) <==>
      exists k :: k in evalKeys && EvalAt(evalMap, k) == 2 && x in Chain(parentMap, k)
  {
    var a := Filter(evalKeys, IsAchieved(evalMap));
    ChainsMembers(a, parentMap, x);
    if exists k :: k in evalKeys && EvalAt(evalMap, k) == 2 && x in Chain(parentMap, k) {
      var k :| k in evalKeys && EvalAt(evalMap, k) == 2 && x in Chain(parentMap, k);
      var i :| 0 <= i < |evalKeys| && evalKeys[i] == k;
      assert k in a;
      var j :| 0 <= j < |a| && a[j] == k;
    }
  }

  // ---------------------------------------------------------------------
  // Tags and the tag-by-bucket grid (BaselineModal.tsx:45-49, 134-148)
  // ---------------------------------------------------------------------

  /** `n.tags || []` */
  function TagsOf(n: Node): seq<string>
  {
    GetOr(n.tags, [])
  }

  /** BaselineModal.tsx:45-49: every tag of every node, once each (before sorting). */
  function AllTags(nodes: seq<Node>): (r: seq<string>)
    ensures NoDups(r)
  {
    Dedup(ConcatMap(nodes, TagsOf))
  }

  lemma AllTagsMembers(nodes: seq<Node>, t: string)
    ensures t in AllTags(nodes) <==> exists i :: 0 <= i < |nodes| && t in TagsOf(nodes[i])
  {
    DedupMembers(ConcatMap(nodes, TagsOf), t);
    ConcatMapMembers(nodes, TagsOf, t);
  }

  /**
   * BaselineModal.tsx:45-49: the tag list, every tag once, in collation
   * order. `collate` stands for `localeCompare`: `collate(a) < collate(b)`
   * when `a.localeCompare(b) < 0`; tags that compare equal keep their
   * first-occurrence order, as the stable sort does.
   */
  function TagList(nodes: seq<Node>, collate: string -> real): (r: seq<string>)
    ensures SortedByKey(r, collate)
    ensures multiset(r) == multiset(AllTags(nodes))
    ensures NoDups(r)
  {
    var r := SortByKey(AllTags(nodes), collate);
    SortByKeySorted(AllTags(nodes), collate);
    PermutationNoDups(AllTags(nodes), r);
    r
  }

  /** The sorted tag list holds exactly the tags some node carries. */
  lemma TagListMembers(nodes: seq<Node>, collate: string -> real, t: string)
    ensures t in TagList(nodes, collate) <==> exists i :: 0 <= i < |nodes| && t in TagsOf(nodes[i])
  {
    AllTagsMembers(nodes, t);
    assert t in TagList(nodes, collate) <==> t in multiset(TagList(nodes, collate));
    assert t in AllTags(nodes) <==> t in multiset(AllTags(nodes));
  }

  /** ASCII lower case (`toLowerCase` beyond ASCII is not modelled). */
  function LowerChar(c: char): char
  {
    if 'A' <= c <= 'Z' then (c as int + 32) as char else c
  }

  function Lower(s: string): (r: string)
    ensures |r| == |s| && forall i :: 0 <= i < |s| ==> r[i] == LowerChar(s[i])
  {
    if s == [] then [] else Lower(s[..|s| - 1]) + [LowerChar(s[|s| - 1])]
  }

  predicate IsSpace(c: char)
  {
    c == ' ' || c == '\t' || c == '\n' || c == '\r' || c == '\U{000B}' || c == '\U{000C}'
  }

  function TrimStart(s: string): (r: string)
    ensures |r| <= |s| && r == s[|s| - |r|..]
    ensures r == [] || !IsSpace(r[0])
  {
    if s != [] && IsSpace(s[0]) then
      var r := TrimStart(s[1..]);
      assert s[1..][|s| - 1 - |r|..] == s[|s| - |r|..];
      r
    else s
  }

  function TrimEnd(s: string): (r: string)
    ensures |r| <= |s| && r == s[..|r|]
    ensures r == [] || !IsSpace(r[|r| - 1])
  {
    if s != [] && IsSpace(s[|s| - 1]) then
      var r := TrimEnd(s[..|s| - 1]);
      assert s[..|s| - 1][..|r|] == s[..|r|];
      r
    else s
  }

  /** `s.trim()` over the ASCII white space characters. */
  function Trim(s: string): string
  {
    TrimEnd(TrimStart(s))
  }

  predicate OccursAt(hay: string, needle: string, i: int)
  {
    0 <= i <= |hay| - |needle| && hay[i..i + |needle|] == needle
  }

  /** `hay.includes(needle)` */
  predicate Includes(hay: string, needle: string)
  {
    exists i :: 0 <= i <= |hay| && OccursAt(hay, needle, i)
  }

  function MatchesSearch(search: string): string -> bool
  {
    t => Includes(Lower(t), Lower(Trim(search)))
  }

  /** BaselineModal.tsx:148: the tags whose lower-cased text contains the trimmed, lower-cased search. */
  function FilteredTags(tags: seq<string>, search: string): (r: seq<string>)
    ensures forall t :: t in r <==> t in tags && Includes(Lower(t), Lower(Trim(search)))
  {
    Filter(tags, MatchesSearch(search))
  }

  /** A blank search shows every tag, in order. */
  lemma BlankSearchKeepsAll(tags: seq<string>, search: string)
    requires forall i :: 0 <= i < |search| ==> IsSpace(search[i])
    ensures FilteredTags(tags, search) == tags
  {
    BlankTrims(search);
    assert Lower(Trim(search)) == [];
    forall t ensures MatchesSearch(search)(t) {
      assert OccursAt(Lower(t), [], 0);
    }
    FilterAll(tags, MatchesSearch(search));
  }

  lemma {:induction false} BlankTrims(s: string)
    requires forall i :: 0 <= i < |s| ==> IsSpace(s[i])
    ensures TrimStart(s) == []
    decreases |s|
  {
    if s != [] {
      BlankTrims(s[1..]);
    }
  }

  /** BaselineModal.tsx:136-137: `min(floor((typicalStart ?? 0) / 3), count - 1)`. */
  function BucketIndex(n: Node, count: int): int
  {
    var st := if n.ageBand.Some? && n.ageBand.value.typicalStart.Some? then n.ageBand.value.typicalStart.value else 0;
    var q := st / 3;
    if q < count - 1 then q else count - 1
  }

  function StartOf(n: Node): int
  {
    if n.ageBand.Some? && n.ageBand.value.typicalStart.Some? then n.ageBand.value.typicalStart.value else 0
  }

  /**
   * A node goes to the 3-month bucket holding its start, and to the last
   * bucket when it starts after the last bucket ends.
   */
  lemma BucketIndexPlacement(n: Node, count: int)
    requires count >= 1
    ensures BucketIndex(n, count) <= count - 1
    ensures 0 <= StartOf(n) < 3 * count ==> 3 * BucketIndex(n, count) <= StartOf(n) < 3 * BucketIndex(n, count) + 3
    ensures StartOf(n) >= 3 * count ==> BucketIndex(n, count) == count - 1
    ensures StartOf(n) >= 0 ==> BucketIndex(n, count) >= 0
  {
  }

  /** What a node pushes from its first `j` tags into the cells of tag `t`: itself once per occurrence of `t`. */
  function Pushed(tags: seq<string>, j: nat, t: string, n: Node): seq<Node>
    requires j <= |tags|
  {
    if j == 0 then [] else Pushed(tags, j - 1, t, n) + (if tags[j - 1] == t then [n] else [])
  }

  lemma {:induction false} PushedMembers(tags: seq<string>, j: nat, t: string, n: Node, x: Node)
    requires j <= |tags|
    ensures x in Pushed(tags, j, t, n) <==> x == n && t in tags[..j]
    decreases j
  {
    if j > 0 {
      PushedMembers(tags, j - 1, t, n, x);
      assert tags[..j] == tags[..j - 1] + [tags[j - 1]];
    }
  }

  /** What node `n` contributes to cell `(t, b)`. */
  function Contribution(t: string, b: int, count: int): Node -> seq<Node>
  {
    n => if BucketIndex(n, count) == b then Pushed(TagsOf(n), |TagsOf(n)|, t, n) else []
  }

  /** The nodes of cell `(t, b)`, in node order. */
  function Cell(nodes: seq<Node>, t: string, b: int, count: int): seq<Node>
  {
    ConcatMap(nodes, Contribution(t, b, count))
  }

  /** `cellNodes[key] || []` */
  function CellAt(m: map<(string, int), seq<Node>>, t: string, b: int): seq<Node>
  {
    if (t, b) in m then m[(t, b)] else []
  }

  /** `(m[key] ||= []).push(n)` */
  method Push(m0: map<(string, int), seq<Node>>, t: string, b: int, n: Node) returns (m: map<(string, int), seq<Node>>)
    ensures forall t', b' :: CellAt(m, t', b') == CellAt(m0, t', b') + (if t' == t && b' == b then [n] else [])
    ensures m.Keys == m0.Keys + {(t, b)} && m[(t, b)] != []
    ensures forall k :: k in m0 && k != (t, b) ==> m[k] == m0[k]
  {
    m := m0[(t, b) := CellAt(m0, t, b) + [n]];
  }

  /**
   * The tags loop for one node: `(m[key] ||= []).push(n)` per tag. The
   * string key `${t}::${b}` is modelled as the pair `(t, b)`; a number's
   * text holds no `::`, so distinct pairs give distinct keys.
   */
  method AddNode(m0: map<(string, int), seq<Node>>, n: Node, b: int) returns (m: map<(string, int), seq<Node>>)
    ensures forall t, bb :: CellAt(m, t, bb) == CellAt(m0, t, bb) + (if bb == b then Pushed(TagsOf(n), |TagsOf(n)|, t, n) else [])
    ensures (forall k :: k in m0 ==> m0[k] != []) ==> forall k :: k in m ==> m[k] != []
  {
    var tags := TagsOf(n);
    m := m0;
    for j := 0 to |tags|
      invariant PushedUpTo(m0, m, tags, j, b, n)
      invariant (forall k :: k in m0 ==> m0[k] != []) ==> forall k :: k in m ==> m[k] != []
    {
      ghost var before := m;
      m := Push(m, tags[j], b, n);
      PushedStep(m0, before, m, tags, j, b, n);
    }
  }

  /** The cells of `m` are those of `m0` with the pushes of the first `j` tags of `n` into column `b`. */
  ghost predicate PushedUpTo(m0: map<(string, int), seq<Node>>, m: map<(string, int), seq<Node>>,
                             tags: seq<string>, j: nat, b: int, n: Node)
  {
    j <= |tags| && forall t, bb :: CellAt(m, t, bb) == CellAt(m0, t, bb) + (if bb == b then Pushed(tags, j, t, n) else [])
  }

  lemma PushedStep(m0: map<(string, int), seq<Node>>, m: map<(string, int), seq<Node>>, m': map<(string, int), seq<Node>>,
                   tags: seq<string>, j: nat, b: int, n: Node)
    requires j < |tags| && PushedUpTo(m0, m, tags, j, b, n)
    requires forall t', b' :: CellAt(m', t', b') == CellAt(m, t', b') + (if t' == tags[j] && b' == b then [n] else [])
    ensures PushedUpTo(m0, m', tags, j + 1, b, n)
  {
    forall t, bb ensures CellAt(m', t, bb) == CellAt(m0, t, bb) + (if bb == b then Pushed(tags, j + 1, t, n) else []) {
      assert CellAt(m', t, bb) == CellAt(m, t, bb) + (if t == tags[j] && bb == b then [n] else []);
      assert CellAt(m, t, bb) == CellAt(m0, t, bb) + (if bb == b then Pushed(tags, j, t, n) else []);
    }
  }

  /**
   * BaselineModal.tsx:134-146: each cell holds, in node order, every node
   * with that tag whose bucket index is that column, once per occurrence of
   * the tag; a cell is created only when something is pushed into it.
   */
  method CellNodes(nodes: seq<Node>, count: int) returns (m: map<(string, int), seq<Node>>)
    ensures forall t, b :: CellAt(m, t, b) == Cell(nodes, t, b, count)
    ensures forall k :: k in m ==> m[k] != []
  {
    m := map[];
    for i := 0 to |nodes|
      invariant forall t, b :: CellAt(m, t, b) == Cell(nodes[..i], t, b, count)
      invariant forall k :: k in m ==> m[k] != []
    {
      assert nodes[..i + 1][..i] == nodes[..i];
      m := AddNode(m, nodes[i], BucketIndex(nodes[i], count));
    }
    assert nodes[..|nodes|] == nodes;
  }

  /** A node is in cell `(t, b)` exactly when it carries tag `t` and its bucket index is `b`. */
  lemma CellMembers(nodes: seq<Node>, t: string, b: int, count: int, x: Node)
    ensures x in Cell(nodes, t, b, count) <==> x in nodes && t in TagsOf(x) && BucketIndex(x, count) == b
  {
    var f := Contribution(t, b, count);
    ConcatMapMembers(nodes, f, x);
    PushedMembers(TagsOf(x), |TagsOf(x)|, t, x, x);
    assert TagsOf(x)[..|TagsOf(x)|] == TagsOf(x);
    if x in nodes && t in TagsOf(x) && BucketIndex(x, count) == b {
      var i :| 0 <= i < |nodes| && nodes[i] == x;
      assert x in f(nodes[i]);
    }
    if x in Cell(nodes, t, b, count) {
      var i :| 0 <= i < |nodes| && x in f(nodes[i]);
      PushedMembers(TagsOf(nodes[i]), |TagsOf(nodes[i])|, t, nodes[i], x);
      assert TagsOf(nodes[i])[..|TagsOf(nodes[i])|] == TagsOf(nodes[i]);
    }
  }
}
