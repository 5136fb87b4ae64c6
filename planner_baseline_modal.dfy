/**
 * The planner's baseline dialog (`src/planner/components/BaselineModal.tsx`):
 * 6-month age buckets, the per-branch item lists, the selection operations
 * (toggle, select up to age, per-branch select and clear, pick a ladder
 * node with its ancestors), the visible-in-bucket filter and the save.
 *
 * The selection is a JavaScript `Set`, which iterates in insertion order;
 * it is modelled as a duplicate-free sequence in that order. `Object.keys`
 * of the index's node map is the index's `nodeIds`.
 */
module PlannerBaselineModal {
  import opened Common
  import opened ParentChain
  import GE = GenomeEngine
  import SI = ServicesIndex

  // ---------------------------------------------------------------------
  // Age buckets (BaselineModal.tsx:49-61)
  // ---------------------------------------------------------------------

  /** A bucket `[start, end)` of months; its label is not modelled. */
  datatype Bucket = Bucket(start: int, end: int)

  /** A numeric `typicalEnd`, if the node has one. */
  function EndOf(n: GE.Node): Option<int>
  {
    if n.ageBand.Some? then n.ageBand.value.typicalEnd else None
  }

  function StartOf(n: GE.Node): Option<int>
  {
    if n.ageBand.Some? then n.ageBand.value.typicalStart else None
  }

  /** BaselineModal.tsx:50-53: the largest numeric `typicalEnd` over the index's nodes, from 0. */
  function MaxEnd(values: seq<GE.Node>): (m: int)
    ensures m >= 0
    ensures forall i :: 0 <= i < |values| && EndOf(values[i]).Some? ==> EndOf(values[i]).value <= m
    ensures m == 0 || exists i :: 0 <= i < |values| && EndOf(values[i]) == Some(m)
  {
    if values == [] then 0
    else
      var p := MaxEnd(values[..|values| - 1]);
      var e := EndOf(values[|values| - 1]);
      assert forall i :: 0 <= i < |values| - 1 ==> values[i] == values[..|values| - 1][i];
      if e.Some? && e.value > p then e.value else p
  }

  /** The loop bound `Math.max(maxEnd, 6)`. */
  function Limit(maxEnd: int): int
  {
    if maxEnd > 6 then maxEnd else 6
  }

  /**
   * BaselineModal.tsx:54-58: buckets `[s, s + 6)` for `s = 0, 6, ...` while
   * `s <= max(maxEnd, 6)`.
   */
  method SixMonthBuckets(maxEnd: int) returns (buckets: seq<Bucket>)
    ensures |buckets| == Limit(maxEnd) / 6 + 1
    ensures forall k :: 0 <= k < |buckets| ==> buckets[k] == Bucket(6 * k, 6 * k + 6)
  {
    var lim := Limit(maxEnd);
    buckets := [];
    var s := 0;
    while s <= lim
      invariant s == 6 * |buckets| && s <= lim + 6
      invariant forall k :: 0 <= k < |buckets| ==> buckets[k] == Bucket(6 * k, 6 * k + 6)
      decreases lim + 6 - s
    {
      buckets := buckets + [Bucket(s, s + 6)];
      s := s + 6;
    }
  }

  /**
   * At least two buckets, starting at 0; the last one holds the bound
   * `max(maxEnd, 6)` and every bucket before it ends at or below the bound.
   */
  lemma SixMonthBucketsCover(maxEnd: int)
    ensures Limit(maxEnd) / 6 + 1 >= 2
    ensures 6 * (Limit(maxEnd) / 6) <= Limit(maxEnd) < 6 * (Limit(maxEnd) / 6) + 6
  {
  }

  // ---------------------------------------------------------------------
  // Branch items (BaselineModal.tsx:62-74)
  // ---------------------------------------------------------------------

  datatype Item = Item(id: string, name: string, start: Option<int>, end: Option<int>, relevant: bool)

  datatype Branch = Branch(rootId: string, name: string, items: seq<Item>)

  function NodeAt(idx: GE.GenomeIndex, id: string): Option<GE.Node>
  {
    if id in idx.nodeById then Some(idx.nodeById[id]) else None
  }

  /** `idx.rootFor[id] === r` */
  function RootIs(rootFor: map<string, string>, r: string): string -> bool
  {
    id => id in rootFor && rootFor[id] == r
  }

  /** Both band ends are numbers and the age lies between them, inclusive. */
  predicate RelevantAt(n: Option<GE.Node>, age: int)
  {
    n.Some? && StartOf(n.value).Some? && EndOf(n.value).Some?
    && StartOf(n.value).value <= age <= EndOf(n.value).value
  }

  /** `n?.name || id` */
  function NameOr(n: Option<GE.Node>, id: string): string
  {
    if n.Some? && n.value.name != "" then n.value.name else id
  }

  function ItemOf(idx: GE.GenomeIndex, age: int): string -> Item
  {
    id =>
      var n := NodeAt(idx, id);
      Item(id, NameOr(n, id),
           if n.Some? then StartOf(n.value) else None,
           if n.Some? then EndOf(n.value) else None,
           RelevantAt(n, age))
  }

  /** The ids of the branch of `r`, in ascending depth (`depth || 0`), ties in key order. */
  function BranchIds(idx: GE.GenomeIndex, r: string): seq<string>
  {
    SortByKey(Filter(idx.nodeIds, RootIs(idx.rootFor, r)), GE.DepthKey(idx.depth))
  }

  /** BaselineModal.tsx:63-71 */
  function BranchItems(idx: GE.GenomeIndex, r: string, age: int): (items: seq<Item>)
    ensures |items| == |BranchIds(idx, r)|
    ensures forall i :: 0 <= i < |items| ==> items[i].id == BranchIds(idx, r)[i]
  {
    MapSeq(BranchIds(idx, r), ItemOf(idx, age))
  }

  function BranchOf(idx: GE.GenomeIndex, age: int): string -> Branch
  {
    r => Branch(r, NameOr(NodeAt(idx, r), r), BranchItems(idx, r, age))
  }

  /** BaselineModal.tsx:62-74: one branch per root, in root order. */
  function ByBranch(idx: Option<GE.GenomeIndex>, age: int): (bs: seq<Branch>)
    ensures idx.None? ==> bs == []
    ensures idx.Some? ==> |bs| == |idx.value.roots| && forall i :: 0 <= i < |bs| ==> bs[i].rootId == idx.value.roots[i]
  {
    if idx.None? then [] else MapSeq(idx.value.roots, BranchOf(idx.value, age))
  }

  /**
   * A branch lists exactly the nodes whose root is `r`, each as often as
   * the index lists it, in ascending depth.
   */
  lemma BranchItemsExact(idx: GE.GenomeIndex, r: string)
    ensures multiset(BranchIds(idx, r)) == multiset(Filter(idx.nodeIds, RootIs(idx.rootFor, r)))
    ensures forall x :: x in BranchIds(idx, r) <==> x in idx.nodeIds && x in idx.rootFor && idx.rootFor[x] == r
    ensures forall i, j :: 0 <= i < j < |BranchIds(idx, r)| ==>
      GE.DepthKey(idx.depth)(BranchIds(idx, r)[i]) <= GE.DepthKey(idx.depth)(BranchIds(idx, r)[j])
  {
    SortByKeySorted(Filter(idx.nodeIds, RootIs(idx.rootFor, r)), GE.DepthKey(idx.depth));
    forall x ensures x in BranchIds(idx, r) <==> x in idx.nodeIds && x in idx.rootFor && idx.rootFor[x] == r {
      BranchIdMember(idx, r, x);
    }
  }

  lemma BranchIdMember(idx: GE.GenomeIndex, r: string, x: string)
    ensures x in BranchIds(idx, r) <==> x in idx.nodeIds && x in idx.rootFor && idx.rootFor[x] == r
  {
    var f := Filter(idx.nodeIds, RootIs(idx.rootFor, r));
    SortByKeySorted(f, GE.DepthKey(idx.depth));
    assert x in multiset(BranchIds(idx, r)) <==> x in multiset(f);
    FilterMembers(idx.nodeIds, RootIs(idx.rootFor, r), x);
  }

  /** An item is relevant exactly when both band ends are numbers and the age lies between them. */
  lemma ItemRelevance(idx: GE.GenomeIndex, r: string, age: int, i: nat)
    requires i < |BranchItems(idx, r, age)|
    ensures var it := BranchItems(idx, r, age)[i];
      it.relevant <==> it.start.Some? && it.end.Some? && it.start.value <= age <= it.end.value
  {
  }

  // ---------------------------------------------------------------------
  // Selection (BaselineModal.tsx:79-116, 196-199)
  // ---------------------------------------------------------------------

  /** A numeric `typicalEnd` at or below the age. */
  function EndUpTo(idx: GE.GenomeIndex, age: int): string -> bool
  {
    id => id in idx.nodeById && EndOf(idx.nodeById[id]).Some? && EndOf(idx.nodeById[id]).value <= age
  }

  function InBranchUpTo(idx: GE.GenomeIndex, rootId: string, age: int): string -> bool
  {
    id => RootIs(idx.rootFor, rootId)(id) && EndUpTo(idx, age)(id)
  }

  /** One more key considered by `AddWhere`. */
  lemma AddWhereStep(up0: seq<string>, ids: seq<string>, i: nat, p: string -> bool)
    requires i < |ids|
    ensures var u := AddAll(up0, Filter(ids[..i], p));
      AddAll(up0, Filter(ids[..i + 1], p)) == if p(ids[i]) && ids[i] !in u then u + [ids[i]] else u
  {
    FilterSnoc(ids, i, p);
    var f := Filter(ids[..i], p);
    if p(ids[i]) {
      var g := f + [ids[i]];
      AddAllStep(up0, g, |f|);
      assert g[..|f|] == f && g[..|f| + 1] == g;
    } else {
      assert Filter(ids[..i + 1], p) == f;
    }
  }

  /** Add each id of `ids` passing `p`, in order, to the set `up`. */
  method AddWhere(up0: seq<string>, ids: seq<string>, p: string -> bool) returns (up: seq<string>)
    ensures up == AddAll(up0, Filter(ids, p))
  {
    up := up0;
    for i := 0 to |ids|
      invariant up == AddAll(up0, Filter(ids[..i], p))
    {
      AddWhereStep(up0, ids, i, p);
      if p(ids[i]) && ids[i] !in up {
        up := up + [ids[i]];
      }
    }
    assert ids[..|ids|] == ids;
  }

  /**
   * BaselineModal.tsx:85-94: the selection becomes exactly the nodes with a
   * numeric `typicalEnd` at or below the age, in key order; without an index
   * it is left as it is.
   */
  method SelectUpToAge(idx: Option<GE.GenomeIndex>, prev: seq<string>, age: int) returns (sel: seq<string>)
    ensures idx.None? ==> sel == prev
    ensures idx.Some? ==> sel == AddAll([], Filter(idx.value.nodeIds, EndUpTo(idx.value, age)))
  {
    if idx.None? {
      return prev;
    }
    sel := AddWhere([], idx.value.nodeIds, EndUpTo(idx.value, age));
  }

  /**
   * BaselineModal.tsx:96-107: the branch's nodes with a numeric
   * `typicalEnd` at or below the age are added; nothing is removed.
   */
  method SelectBranchUpToAge(idx: Option<GE.GenomeIndex>, prev: seq<string>, rootId: string, age: int)
    returns (sel: seq<string>)
    ensures idx.None? ==> sel == prev
    ensures idx.Some? ==> sel == AddAll(prev, Filter(idx.value.nodeIds, InBranchUpTo(idx.value, rootId, age)))
  {
    if idx.None? {
      return prev;
    }
    sel := AddWhere(prev, idx.value.nodeIds, InBranchUpTo(idx.value, rootId, age));
  }

  /** The members after "select up to age": exactly the qualifying nodes, once each. */
  lemma SelectUpToAgeMembers(idx: GE.GenomeIndex, age: int)
    ensures NoDups(AddAll([], Filter(idx.nodeIds, EndUpTo(idx, age))))
    ensures forall x :: x in AddAll([], Filter(idx.nodeIds, EndUpTo(idx, age))) <==>
      x in idx.nodeIds && x in idx.nodeById && EndOf(idx.nodeById[x]).Some? && EndOf(idx.nodeById[x]).value <= age
  {
    AddAllProps([], Filter(idx.nodeIds, EndUpTo(idx, age)));
  }

  /**
   * The per-branch select keeps the old selection as a prefix, in order,
   * and adds only nodes of the branch that qualify by age.
   */
  lemma SelectBranchKeeps(idx: GE.GenomeIndex, prev: seq<string>, rootId: string, age: int)
    ensures var sel := AddAll(prev, Filter(idx.nodeIds, InBranchUpTo(idx, rootId, age)));
      |sel| >= |prev| && sel[..|prev|] == prev
    ensures NoDups(prev) ==> NoDups(AddAll(prev, Filter(idx.nodeIds, InBranchUpTo(idx, rootId, age))))
    ensures forall x :: x in AddAll(prev, Filter(idx.nodeIds, InBranchUpTo(idx, rootId, age))) <==>
      x in prev || (x in idx.nodeIds && InBranchUpTo(idx, rootId, age)(x))
  {
    AddAllProps(prev, Filter(idx.nodeIds, InBranchUpTo(idx, rootId, age)));
  }

  /** Not among the first `i` keys of the branch. */
  function Kept(ids: seq<string>, rootFor: map<string, string>, rootId: string): string -> bool
  {
    x => !(x in ids && x in rootFor && rootFor[x] == rootId)
  }

  /**
   * BaselineModal.tsx:109-116: every node of the branch is deleted from the
   * selection; the rest keep their order. Without an index nothing changes.
   */
  method ClearBranch(idx: Option<GE.GenomeIndex>, prev: seq<string>, rootId: string) returns (sel: seq<string>)
    ensures idx.None? ==> sel == prev
    ensures idx.Some? ==> sel == Filter(prev, Kept(idx.value.nodeIds, idx.value.rootFor, rootId))
  {
    if idx.None? {
      return prev;
    }
    var ids := idx.value.nodeIds;
    var rootFor := idx.value.rootFor;
    sel := prev;
    FilterAll(prev, Kept(ids[..0], rootFor, rootId));
    for i := 0 to |ids|
      invariant sel == Filter(prev, Kept(ids[..i], rootFor, rootId))
    {
      ClearStep(prev, ids, i, rootFor, rootId);
      if ids[i] in rootFor && rootFor[ids[i]] == rootId {
        sel := Filter(sel, Other(ids[i]));
      }
    }
    assert ids[..|ids|] == ids;
  }

  /** One more key considered by `ClearBranch`. */
  lemma ClearStep(prev: seq<string>, ids: seq<string>, i: nat, rootFor: map<string, string>, rootId: string)
    requires i < |ids|
    ensures var sel := Filter(prev, Kept(ids[..i], rootFor, rootId));
      Filter(prev, Kept(ids[..i + 1], rootFor, rootId))
      == if ids[i] in rootFor && rootFor[ids[i]] == rootId then Filter(sel, Other(ids[i])) else sel
  {
    assert ids[..i + 1] == ids[..i] + [ids[i]];
    if ids[i] in rootFor && rootFor[ids[i]] == rootId {
      FilterRefine(prev, Kept(ids[..i], rootFor, rootId), Other(ids[i]), Kept(ids[..i + 1], rootFor, rootId));
    } else {
      FilterExt(prev, Kept(ids[..i], rootFor, rootId), Kept(ids[..i + 1], rootFor, rootId));
    }
  }

  /** Clearing removes exactly the branch's nodes and keeps every other id. */
  lemma ClearBranchMembers(idx: GE.GenomeIndex, prev: seq<string>, rootId: string, x: string)
    ensures x in Filter(prev, Kept(idx.nodeIds, idx.rootFor, rootId)) <==>
      x in prev && !(x in idx.nodeIds && x in idx.rootFor && idx.rootFor[x] == rootId)
  {
    FilterMembers(prev, Kept(idx.nodeIds, idx.rootFor, rootId), x);
  }

  /**
   * BaselineModal.tsx:196-199: picking a ladder node selects it and its
   * ancestors: `new Set([...prev, ...chain])`.
   */
  method PickLadderNode(idx: GE.GenomeIndex, prev: seq<string>, id: string) returns (sel: seq<string>, ghost chain: seq<string>)
    ensures sel == AddAll([], prev + chain)
    ensures id != "" ==> id in chain
    ensures NoDups(chain) && ParentClosed(idx.parent, chain)
    ensures forall x :: x in chain ==> SI.Reached(idx.parent, [id], x)
  {
    var c := SI.ExpandWithParents(Some(idx), [id]);
    assert [id][0] == id;
    chain := c;
    sel := AddAll([], prev + c);
  }

  /**
   * After picking, the selection holds the old selection, the node and
   * every ancestor of it, and nothing else.
   */
  lemma PickMembers(parent: map<string, Option<string>>, prev: seq<string>, id: string, chain: seq<string>, x: string)
    requires id != "" ==> id in chain
    requires ParentClosed(parent, chain)
    requires forall y :: y in chain ==> SI.Reached(parent, [id], y)
    ensures x in AddAll([], prev + chain) <==> x in prev || (id != "" && exists n: nat :: Up(parent, id, n) == Some(x))
  {
    AddAllProps([], prev + chain);
    if x in chain {
      assert SI.Reached(parent, [id], x);
    }
    if id != "" && exists n: nat :: Up(parent, id, n) == Some(x) {
      var n: nat :| Up(parent, id, n) == Some(x);
      SI.ClosedHoldsAncestors(parent, chain, id, n);
    }
  }

  // ---------------------------------------------------------------------
  // Visible items (BaselineModal.tsx:171-178)
  // ---------------------------------------------------------------------

  /** `buckets[bucketIdx] || {start: 0, end: 0}` */
  function BucketAt(buckets: seq<Bucket>, i: int): Bucket
  {
    if 0 <= i < |buckets| then buckets[i] else Bucket(0, 0)
  }

  /** The item's start, 0 when it is not a number. */
  function ItemStart(it: Item): int
  {
    if it.start.Some? then it.start.value else 0
  }

  function ShownIn(b: Bucket, relevantOnly: bool): Item -> bool
  {
    it => b.start <= ItemStart(it) < b.end && (!relevantOnly || it.relevant)
  }

  /** BaselineModal.tsx:171-178: the items starting in the current bucket, and relevant ones only when asked. */
  function Visible(items: seq<Item>, buckets: seq<Bucket>, bucketIdx: int, relevantOnly: bool): (r: seq<Item>)
    ensures forall it :: it in r <==>
      (it in items && BucketAt(buckets, bucketIdx).start <= ItemStart(it) < BucketAt(buckets, bucketIdx).end
       && (!relevantOnly || it.relevant))
  {
    Filter(items, ShownIn(BucketAt(buckets, bucketIdx), relevantOnly))
  }

  /** With no bucket at the index, nothing is visible. */
  lemma NoBucketNothingVisible(items: seq<Item>, buckets: seq<Bucket>, bucketIdx: int, relevantOnly: bool)
    requires !(0 <= bucketIdx < |buckets|)
    ensures Visible(items, buckets, bucketIdx, relevantOnly) == []
  {
    FilterNone(items, ShownIn(BucketAt(buckets, bucketIdx), relevantOnly));
  }

  /** Turning the relevance filter on never shows more. */
  lemma RelevantOnlyNarrows(items: seq<Item>, buckets: seq<Bucket>, bucketIdx: int)
    ensures forall it :: it in Visible(items, buckets, bucketIdx, true) ==> it in Visible(items, buckets, bucketIdx, false)
  {
  }

  // ---------------------------------------------------------------------
  // Save (BaselineModal.tsx:118-132)
  // ---------------------------------------------------------------------

  datatype Saved = Saved(records: seq<GE.Achievement>, levels: map<string, int>)

  datatype Outcome = PickAChild | Done(saved: Saved)

  function Stamp(now: string): string -> GE.Achievement
  {
    id => GE.Achievement(id, Some(now), None)
  }

  function AchId(a: GE.Achievement): string
  {
    a.nodeId
  }

  /** The records name the ids, in order, each stamped `now`. */
  lemma RecordsOf(ids: seq<string>, now: string)
    ensures MapSeq(MapSeq(ids, Stamp(now)), AchId) == ids
    ensures forall k :: 0 <= k < |ids| ==> MapSeq(ids, Stamp(now))[k].at == Some(now)
  {
  }

  /**
   * BaselineModal.tsx:118-132: without a child, "Pick a child"; otherwise
   * one record stamped `now` per id of the ancestor closure of the
   * selection, in order, and level 3 for each of them.
   */
  method Apply(childId: string, idx: Option<GE.GenomeIndex>, selected: seq<string>, now: string)
    returns (o: Outcome, ghost ids: seq<string>)
    ensures childId == "" <==> o.PickAChild?
    ensures o.Done? ==> o.saved.records == MapSeq(ids, Stamp(now))
    ensures o.Done? ==> o.saved.levels.Keys == (set x | x in ids) && forall x :: x in o.saved.levels ==> o.saved.levels[x] == 3
    ensures idx.None? ==> ids == Dedup(selected)
    ensures idx.Some? ==> NoDups(ids) && ParentClosed(idx.value.parent, ids)
    ensures idx.Some? ==> forall j :: 0 <= j < |selected| && selected[j] != "" ==> selected[j] in ids
    ensures idx.Some? ==> forall x :: x in ids ==> SI.Reached(idx.value.parent, selected, x)
  {
    var all := SI.ExpandWithParents(idx, selected);
    ids := all;
    if childId == "" {
      return PickAChild, ids;
    }
    var levels := SI.LevelsOf(all);
    o := Done(Saved(MapSeq(all, Stamp(now)), levels));
  }
}
