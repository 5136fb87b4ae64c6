/**
 * The planner's data services (`src/planner/services/index.ts`): the
 * planner's activity schema, the normalisation of visualiser-schema activity
 * files into it, the ancestor closure of achieved ids and the mastery levels
 * derived from it.
 *
 * The genome index is a module-level singleton in the source, read through
 * a getter that throws when it is not initialised; here it is passed in as
 * an `Option<GenomeIndex>`, `None` standing for the throw.
 */
module ServicesIndex {
  import opened Common
  import opened GenomeEngine
  import opened ParentChain

  // ---------------------------------------------------------------------
  // The planner's activity schema (index.ts:9-24)
  // ---------------------------------------------------------------------

  datatype ActivityLevel = Foundational | CoreLevel | Stretch

  datatype Level = Level(level: ActivityLevel, targets: seq<string>, adaptations: seq<string>)

  datatype Noise = Low | Medium | High

  datatype Requirements = Requirements(space: string, materials: seq<string>, duration: int, noise: Noise)

  datatype Link = Link(nodeId: string, meetsExit: Option<string>)

  /** `steps` keeps only the text of each step. */
  datatype Activity = Activity(
    activityId: string,
    title: string,
    levels: seq<Level>,
    requirements: Requirements,
    emoji: Option<string>,
    environment: Option<seq<string>>,
    tags: Option<seq<string>>,
    steps: Option<seq<string>>,
    observe: Option<seq<string>>,
    variations: Option<seq<string>>,
    cautions: Option<seq<string>>,
    links: Option<seq<Link>>)

  // ---------------------------------------------------------------------
  // Activity files as read (index.ts:78-124)
  // ---------------------------------------------------------------------

  /** A link as found in a file: `null` entries and missing ids are `None`. */
  datatype RawLink = RawLink(nodeId: Option<string>, meetsExit: Option<string>)

  /** A material is a string, an object with an optional `name`, or anything else. */
  datatype RawMaterial = MaterialName(name: string) | MaterialObject(objectName: Option<string>) | MaterialOther

  /**
   * An activity object of either schema. An array-valued field that is
   * absent or not an array is `None`; `durationMin` is `None` unless it is a
   * number.
   */
  datatype RawActivity = RawActivity(
    id: Option<string>,
    activityId: Option<string>,
    title: Option<string>,
    levels: Option<seq<Level>>,
    links: Option<seq<RawLink>>,
    materials: Option<seq<RawMaterial>>,
    durationMin: Option<int>,
    emoji: Option<string>,
    environment: Option<seq<string>>,
    tags: Option<seq<string>>,
    steps: Option<seq<string>>,
    observe: Option<seq<string>>,
    variations: Option<seq<string>>,
    cautions: Option<seq<string>>)

  /** The parsed file: nothing, a bare array, or an object with an optional `activities` array. */
  datatype RawFile = NoFile | ArrayFile(items: seq<RawActivity>) | ObjectFile(activities: Option<seq<RawActivity>>)

  /**
   * What `loadActivities` returns: the file's objects cast unchanged (both
   * the planner-schema pass-through and the best-effort cast), or objects
   * built by the normalisation.
   */
  datatype Loaded = AsIs(raw: seq<RawActivity>) | Normalised(activities: seq<Activity>)

  /** JavaScript truthiness of an optional string. */
  predicate Truthy(s: Option<string>)
  {
    s.Some? && s.value != ""
  }

  /** index.ts:84 */
  function ItemsOf(f: RawFile): seq<RawActivity>
  {
    match f
    case NoFile => []
    case ArrayFile(items) => items
    case ObjectFile(acts) => GetOr(acts, [])
  }

  function NodeIdText(l: RawLink): string
  {
    GetOr(l.nodeId, "")
  }

  function NonEmpty(s: string): bool
  {
    s != ""
  }

  /** index.ts:98: the truthy `nodeId`s of the links, in link order. */
  function TargetsOf(links: Option<seq<RawLink>>): (r: seq<string>)
    ensures forall x :: x in r <==> x != "" && exists j :: 0 <= j < |GetOr(links, [])| && GetOr(links, [])[j].nodeId == Some(x)
  {
    var ls := GetOr(links, []);
    var r := Filter(MapSeq(ls, NodeIdText), NonEmpty);
    forall x ensures x in r <==> x != "" && exists j :: 0 <= j < |ls| && ls[j].nodeId == Some(x) {
      TargetMember(ls, x);
    }
    r
  }

  lemma TargetMember(ls: seq<RawLink>, x: string)
    ensures x in Filter(MapSeq(ls, NodeIdText), NonEmpty)
        <==> x != "" && exists j :: 0 <= j < |ls| && ls[j].nodeId == Some(x)
  {
    var ids := MapSeq(ls, NodeIdText);
    if x in Filter(ids, NonEmpty) {
      var j :| 0 <= j < |ids| && ids[j] == x;
      assert NodeIdText(ls[j]) == x;
    }
    if x != "" && exists j :: 0 <= j < |ls| && ls[j].nodeId == Some(x) {
      var j :| 0 <= j < |ls| && ls[j].nodeId == Some(x);
      assert ids[j] == x;
    }
  }

  function MaterialText(m: RawMaterial): string
  {
    match m
    case MaterialName(s) => s
    case MaterialObject(n) => GetOr(n, "")
    case MaterialOther => ""
  }

  /** index.ts:99: string materials and the names of object materials, when truthy. */
  function MaterialsOf(ms: Option<seq<RawMaterial>>): (r: seq<string>)
    ensures forall k :: 0 <= k < |r| ==> r[k] != ""
    ensures forall x :: x in r <==> x != "" && exists j :: 0 <= j < |GetOr(ms, [])| && IsMaterial(GetOr(ms, [])[j], x)
  {
    var xs := GetOr(ms, []);
    var r := Filter(MapSeq(xs, MaterialText), NonEmpty);
    forall x ensures x in r <==> x != "" && exists j :: 0 <= j < |xs| && IsMaterial(xs[j], x) {
      MaterialMember(xs, x);
    }
    r
  }

  /** `m` is the string `x` or an object named `x`. */
  predicate IsMaterial(m: RawMaterial, x: string)
  {
    m == MaterialName(x) || m == MaterialObject(Some(x))
  }

  lemma TextIsMaterial(m: RawMaterial, x: string)
    requires MaterialText(m) == x && x != ""
    ensures IsMaterial(m, x)
  {
  }

  lemma MaterialMember(xs: seq<RawMaterial>, x: string)
    ensures x in Filter(MapSeq(xs, MaterialText), NonEmpty)
        <==> x != "" && exists j :: 0 <= j < |xs| && IsMaterial(xs[j], x)
  {
    if x in Filter(MapSeq(xs, MaterialText), NonEmpty) {
      FilterMembers(MapSeq(xs, MaterialText), NonEmpty, x);
      MaterialFound(xs, x);
    }
    if x != "" && exists j :: 0 <= j < |xs| && IsMaterial(xs[j], x) {
      var j :| 0 <= j < |xs| && IsMaterial(xs[j], x);
      MaterialKept(xs, x, j);
    }
  }

  lemma MaterialFound(xs: seq<RawMaterial>, x: string)
    requires x in MapSeq(xs, MaterialText) && x != ""
    ensures exists j :: 0 <= j < |xs| && IsMaterial(xs[j], x)
  {
    var names := MapSeq(xs, MaterialText);
    var j :| 0 <= j < |names| && names[j] == x;
    TextIsMaterial(xs[j], x);
  }

  lemma MaterialKept(xs: seq<RawMaterial>, x: string, j: nat)
    requires x != "" && j < |xs| && IsMaterial(xs[j], x)
    ensures x in Filter(MapSeq(xs, MaterialText), NonEmpty)
  {
    var names := MapSeq(xs, MaterialText);
    assert names[j] == x;
  }

  /** index.ts:100 */
  function DurationOf(d: Option<int>): int
  {
    if d.Some? && d.value > 0 then d.value else 10
  }

  /** index.ts:102-103: the first truthy of the arguments, JavaScript `a || b`. */
  function Or(a: Option<string>, b: string): string
  {
    if Truthy(a) then a.value else b
  }

  function RawLinkToLink(l: RawLink): Link
  {
    Link(GetOr(l.nodeId, ""), l.meetsExit)
  }

  /** index.ts:97-118, for one object; `randomId` stands for the generated `act_…` id. */
  function NormaliseItem(it: RawActivity, randomId: string): Activity
  {
    Activity(
      Or(it.id, Or(it.activityId, randomId)),
      Or(it.title, "Untitled Activity"),
      [Level(CoreLevel, TargetsOf(it.links), [])],
      Requirements("any", MaterialsOf(it.materials), DurationOf(it.durationMin), Medium),
      it.emoji, it.environment, it.tags, it.steps, it.observe, it.variations, it.cautions,
      if it.links.Some? then Some(MapSeq(it.links.value, RawLinkToLink)) else None)
  }

  function NormaliseAll(items: seq<RawActivity>, randomId: nat -> string): (r: seq<Activity>)
    ensures |r| == |items|
    ensures forall i :: 0 <= i < |items| ==> r[i] == NormaliseItem(items[i], randomId(i))
  {
    MapIndexed(items, (i: nat, it: RawActivity) => NormaliseItem(it, randomId(i)))
  }

  /** The planner schema: the first object has a truthy `activityId` and a `levels` array. */
  predicate PlannerSchema(items: seq<RawActivity>)
  {
    |items| > 0 && Truthy(items[0].activityId) && items[0].levels.Some?
  }

  /** The visualiser schema: the first object has a truthy `id` and a `links` array. */
  predicate VisualiserSchema(items: seq<RawActivity>)
  {
    |items| > 0 && Truthy(items[0].id) && items[0].links.Some?
  }

  /**
   * index.ts:84-123. The generated id of the `i`-th object is `randomId(i)`;
   * the file reading itself (index.ts:79-82) is not modelled.
   */
  function LoadActivities(f: RawFile, randomId: nat -> string): (r: Loaded)
    ensures ItemsOf(f) == [] ==> r == Normalised([])
    ensures PlannerSchema(ItemsOf(f)) ==> r == AsIs(ItemsOf(f))
    ensures !PlannerSchema(ItemsOf(f)) && VisualiserSchema(ItemsOf(f)) ==> r.Normalised? && |r.activities| == |ItemsOf(f)|
    ensures ItemsOf(f) != [] && !PlannerSchema(ItemsOf(f)) && !VisualiserSchema(ItemsOf(f)) ==> r == AsIs(ItemsOf(f))
  {
    var arr := ItemsOf(f);
    if arr == [] then Normalised([])
    else if PlannerSchema(arr) then AsIs(arr)
    else if VisualiserSchema(arr) then Normalised(NormaliseAll(arr, randomId))
    else AsIs(arr)
  }

  /**
   * Every normalised object has one `core` level whose targets are exactly
   * the truthy link ids, materials that are exactly the truthy string
   * materials and object names, a positive duration that is `durationMin` when that
   * is a positive number and 10 otherwise, a non-empty title, and an id
   * taken from `id`, else `activityId`, else the generated one.
   */
  lemma NormalisedActivity(f: RawFile, randomId: nat -> string, i: nat)
    requires !PlannerSchema(ItemsOf(f)) && VisualiserSchema(ItemsOf(f)) && i < |ItemsOf(f)|
    ensures var a := LoadActivities(f, randomId).activities[i];
      var it := ItemsOf(f)[i];
      && |a.levels| == 1 && a.levels[0].level == CoreLevel && a.levels[0].adaptations == []
      && (forall x :: x in a.levels[0].targets <==>
           x != "" && exists j :: 0 <= j < |GetOr(it.links, [])| && GetOr(it.links, [])[j].nodeId == Some(x))
      && (forall x :: x in a.requirements.materials <==>
           x != "" && exists j :: 0 <= j < |GetOr(it.materials, [])| && IsMaterial(GetOr(it.materials, [])[j], x))
      && a.requirements.duration > 0
      && (it.durationMin.Some? && it.durationMin.value > 0 ==> a.requirements.duration == it.durationMin.value)
      && (it.durationMin.None? || it.durationMin.value <= 0 ==> a.requirements.duration == 10)
      && a.requirements.space == "any" && a.requirements.noise == Medium
      && a.title != ""
      && (Truthy(it.id) ==> a.activityId == it.id.value)
      && (!Truthy(it.id) && Truthy(it.activityId) ==> a.activityId == it.activityId.value)
      && (!Truthy(it.id) && !Truthy(it.activityId) ==> a.activityId == randomId(i))
  {
  }

  // ---------------------------------------------------------------------
  // Ancestor closure (index.ts:183-200)
  // ---------------------------------------------------------------------

  /** `x` is reached from a truthy input id by following parents. */
  ghost predicate Reached(parent: map<string, Option<string>>, ids: seq<string>, x: string)
  {
    exists j, n :: 0 <= j < |ids| && ids[j] != "" && Up(parent, ids[j], n) == Some(x)
  }

  ghost predicate ExpandInv(parent: map<string, Option<string>>, ids: seq<string>, i: nat, out: seq<string>)
  {
    && i <= |ids|
    && NoDups(out) && ParentClosed(parent, out)
    && (forall j :: 0 <= j < i && ids[j] != "" ==> ids[j] in out)
    && (forall x :: x in out ==> Reached(parent, ids[..i], x))
  }

  lemma ExpandStep(parent: map<string, Option<string>>, ids: seq<string>, i: nat, out0: seq<string>, out: seq<string>)
    requires i < |ids| && ExpandInv(parent, ids, i, out0)
    requires |out| >= |out0| && out[..|out0|] == out0 && NoDups(out) && ParentClosed(parent, out)
    requires forall k :: |out0| <= k < |out| ==> Up(parent, ids[i], k - |out0|) == Some(out[k])
    requires ids[i] == "" || ids[i] in out0 ==> out == out0
    requires ids[i] != "" && ids[i] !in out0 ==> |out| > |out0|
    ensures ExpandInv(parent, ids, i + 1, out)
  {
    var ids' := ids[..i + 1];
    forall j | 0 <= j < i + 1 && ids[j] != "" ensures ids[j] in out {
      if j < i {
        assert ids[j] in out0;
        var k :| 0 <= k < |out0| && out0[k] == ids[j];
        assert out[k] == ids[j];
      } else if ids[i] !in out0 {
        assert Up(parent, ids[i], 0) == Some(out[|out0|]);
      }
    }
    forall x | x in out ensures Reached(parent, ids', x) {
      var k :| 0 <= k < |out| && out[k] == x;
      if k < |out0| {
        assert x in out0 by { assert out0[k] == x; }
        assert Reached(parent, ids[..i], x);
        var j, n :| 0 <= j < i && ids[..i][j] != "" && Up(parent, ids[..i][j], n) == Some(x);
        assert ids'[j] == ids[..i][j];
      } else {
        assert ids[i] != "";
        assert ids'[i] == ids[i];
        assert Up(parent, ids'[i], k - |out0|) == Some(x);
      }
    }
  }

  /**
   * index.ts:183-200. With an index: every truthy input id and, through
   * `Closed`, every ancestor of one, without duplicates, and nothing that is
   * not an input or an ancestor of one. The walk stops at an id already
   * listed, so a cycle of parents ends it. Without an index: the inputs
   * de-duplicated.
   */
  method ExpandWithParents(idx: Option<GenomeIndex>, ids: seq<string>) returns (out: seq<string>)
    ensures idx.None? ==> out == Dedup(ids)
    ensures idx.Some? ==> NoDups(out) && ParentClosed(idx.value.parent, out)
    ensures idx.Some? ==> forall j :: 0 <= j < |ids| && ids[j] != "" ==> ids[j] in out
    ensures idx.Some? ==> forall x :: x in out ==> Reached(idx.value.parent, ids, x)
  {
    if idx.None? {
      return Dedup(ids);
    }
    var parent := idx.value.parent;
    out := [];
    for i := 0 to |ids|
      invariant ExpandInv(parent, ids, i, out)
    {
      var out' := WalkUp(parent, out, ids[i]);
      ExpandStep(parent, ids, i, out, out');
      out := out';
    }
    assert ids[..|ids|] == ids;
  }

  /** A closed list holds every ancestor of each of its ids. */
  lemma {:induction false} ClosedHoldsAncestors(parent: map<string, Option<string>>, s: seq<string>, x: string, n: nat)
    requires ParentClosed(parent, s) && x in s && Up(parent, x, n).Some?
    ensures Up(parent, x, n).value in s
  {
    if n > 0 {
      ClosedHoldsAncestors(parent, s, x, n - 1);
    }
  }

  /** index.ts:205: each expanded id mapped to 3 ("mastered"). */
  method LevelsOf(all: seq<string>) returns (levels: map<string, int>)
    ensures levels.Keys == set x | x in all
    ensures forall x :: x in levels ==> levels[x] == 3
  {
    levels := map[];
    for i := 0 to |all|
      invariant levels.Keys == set x | x in all[..i]
      invariant forall x :: x in levels ==> levels[x] == 3
    {
      assert all[..i + 1] == all[..i] + [all[i]];
      levels := levels[all[i] := 3];
    }
    assert all[..|all|] == all;
  }

  /**
   * index.ts:202-207: the levels map has exactly the expanded ids as keys,
   * each with level 3.
   */
  method ComputeLevelsFromAchievements(idx: Option<GenomeIndex>, ids: seq<string>) returns (levels: map<string, int>)
    ensures forall x :: x in levels ==> levels[x] == 3
    ensures idx.None? ==> levels.Keys == set x | x in ids
    ensures idx.Some? ==> forall j :: 0 <= j < |ids| && ids[j] != "" ==> ids[j] in levels
    ensures idx.Some? ==> forall x :: x in levels ==> Reached(idx.value.parent, ids, x)
    ensures idx.Some? ==> forall x :: x in levels && Next(idx.value.parent, x).Some? ==> Next(idx.value.parent, x).value in levels
  {
    var all := ExpandWithParents(idx, ids);
    if idx.None? {
      forall x ensures x in all <==> x in ids { DedupMembers(ids, x); }
    }
    levels := LevelsOf(all);
  }
}
