/**
 * The greedy weekly planner (`src/planner/services/plannerAI.ts`):
 * activities are scored against the week's focus tags, the available and
 * forbidden materials and the room's zones, ranked, and dealt out one per
 * fillable timetable slot, never repeating an activity in the week.
 */
module PlannerAi {
  import opened Common
  import SI = ServicesIndex

  datatype PlanLink = PlanLink(nodeId: string)

  /** plannerAI.ts:17-25; `requirements?.materials` is `materials`. */
  datatype PlanActivity = PlanActivity(
    activityId: Option<string>, id: Option<string>, title: string,
    tags: Option<seq<string>>, environment: Option<seq<string>>,
    materials: Option<seq<string>>, links: Option<seq<PlanLink>>)

  datatype Materials = Materials(materials: seq<string>, forbidden: Option<seq<string>>)

  datatype Zone = Zone(allowedTags: seq<string>)

  datatype Environment = Environment(zones: seq<Zone>)

  datatype Week = Week(week: int, primaryTags: Option<seq<string>>, targetNodeIds: Option<seq<string>>)

  datatype MindMap = MindMap(weeks: seq<Week>)

  datatype Slot = Slot(time: string, slotType: string)

  datatype AgeGroup = AgeGroup(slots: Option<seq<Slot>>)

  datatype Timetable = Timetable(days: Option<seq<string>>, ageGroups: Option<seq<AgeGroup>>)

  /** plannerAI.ts:15 */
  datatype PlanItem = PlanItem(slotType: string, time: string, activityId: string, nodeId: Option<string>)

  /** plannerAI.ts:27: `activityId || id || ''`. */
  function NormalizeId(a: PlanActivity): (r: string)
    ensures r != "" <==> SI.Truthy(a.activityId) || SI.Truthy(a.id)
    ensures SI.Truthy(a.activityId) ==> r == a.activityId.value
  {
    SI.Or(a.activityId, SI.Or(a.id, ""))
  }

  // ---------------------------------------------------------------------
  // activityScore (plannerAI.ts:30-55)
  // ---------------------------------------------------------------------

  function InSet(s: set<string>): string -> bool
  {
    x => x in s
  }

  function NotInSet(s: set<string>): string -> bool
  {
    x => x !in s
  }

  function Elems(s: seq<string>): set<string>
  {
    set x | x in s
  }

  function TagsOf(a: PlanActivity): seq<string> { GetOr(a.tags, []) }

  /** `new Set(a.requirements?.materials || [])`, in iteration (first-insertion) order. */
  function Need(a: PlanActivity): seq<string> { Dedup(GetOr(a.materials, [])) }

  function AllowedOf(z: Zone): seq<string> { z.allowedTags }

  /** Some required material is forbidden. */
  predicate Blocked(a: PlanActivity, m: Materials)
  {
    exists x :: x in GetOr(a.materials, []) && x in GetOr(m.forbidden, [])
  }

  /** The activity lists environments but none of its tags is allowed in any zone. */
  predicate OffZone(a: PlanActivity, env: Environment)
  {
    && a.environment.Some? && |a.environment.value| > 0
    && forall t :: t in TagsOf(a) ==> t !in Flatten(MapSeq(env.zones, AllowedOf))
  }

  predicate HasLinks(a: PlanActivity)
  {
    a.links.Some? && |a.links.value| > 0
  }

  /**
   * The score: -999 for a forbidden material; otherwise 2 per desired tag the
   * activity has (counting repeats in `desiredTags`), +1 per distinct needed
   * material available and -1 per one missing, -2 off-zone, +1 with links.
   */
  function Score(a: PlanActivity, desiredTags: seq<string>, m: Materials, env: Environment): int
  {
    if Blocked(a, m) then -999
    else
      2 * Count(desiredTags, InSet(Elems(TagsOf(a))))
      + Count(Need(a), InSet(Elems(m.materials))) - Count(Need(a), NotInSet(Elems(m.materials)))
      + (if OffZone(a, env) then -2 else 0)
      + (if HasLinks(a) then 1 else 0)
  }

  lemma CountStep<T>(s: seq<T>, i: nat, p: T -> bool)
    requires i < |s|
    ensures Count(s[..i + 1], p) == Count(s[..i], p) + (if p(s[i]) then 1 else 0)
  {
    assert s[..i + 1][..i] == s[..i];
  }

  /**
   * plannerAI.ts:38-42: the loop over the needed materials, which stops
   * (and the score becomes -999) at the first forbidden one.
   */
  method MaterialsLoop(need: seq<string>, have: set<string>, forbidden: set<string>)
    returns (blocked: bool, points: int)
    ensures blocked <==> exists x :: x in need && x in forbidden
    ensures !blocked ==> points == Count(need, InSet(have)) - Count(need, NotInSet(have))
  {
    points := 0;
    for j := 0 to |need|
      invariant points == Points(need[..j], have)
      invariant forall k :: 0 <= k < j ==> need[k] !in forbidden
    {
      assert need[..j + 1][..j] == need[..j];
      if need[j] in forbidden {
        return true, points;
      }
      if need[j] in have {
        points := points + 1;
      } else {
        points := points - 1;
      }
    }
    assert need[..|need|] == need;
    PointsAreCounts(need, have);
    blocked := false;
  }

  /** +1 per available material and -1 per missing one. */
  function Points(need: seq<string>, have: set<string>): int
  {
    if need == [] then 0
    else Points(need[..|need| - 1], have) + (if need[|need| - 1] in have then 1 else -1)
  }

  lemma {:induction false} PointsAreCounts(need: seq<string>, have: set<string>)
    ensures Points(need, have) == Count(need, InSet(have)) - Count(need, NotInSet(have))
    decreases |need|
  {
    if need != [] {
      PointsAreCounts(need[..|need| - 1], have);
    }
  }

  /** plannerAI.ts:30-55 */
  method ActivityScore(a: PlanActivity, desiredTags: seq<string>, m: Materials, env: Environment) returns (score: int)
    ensures score == Score(a, desiredTags, m, env)
  {
    score := 0;
    var tags := Elems(TagsOf(a));
    for i := 0 to |desiredTags|
      invariant score == 2 * Count(desiredTags[..i], InSet(tags))
    {
      CountStep(desiredTags, i, InSet(tags));
      if desiredTags[i] in tags {
        score := score + 2;
      }
    }
    assert desiredTags[..|desiredTags|] == desiredTags;
    var need := Need(a);
    var have := Elems(m.materials);
    var forbidden := Elems(GetOr(m.forbidden, []));
    var blocked, points := MaterialsLoop(need, have, forbidden);
    if blocked {
      var x :| x in need && x in forbidden;
      DedupMembers(GetOr(a.materials, []), x);
      return -999;
    }
    score := score + points;
    assert !Blocked(a, m) by {
      forall x | x in GetOr(a.materials, []) ensures x !in GetOr(m.forbidden, []) {
        DedupMembers(GetOr(a.materials, []), x);
      }
    }
    if a.environment.Some? && |a.environment.value| > 0 {
      var allAllowed := Elems(Flatten(MapSeq(env.zones, AllowedOf)));
      var anyOk := exists t :: t in TagsOf(a) && t in allAllowed;
      if !anyOk {
        score := score - 2;
      }
    }
    if a.links.Some? && |a.links.value| > 0 {
      score := score + 1;
    }
  }

  /**
   * A forbidden material gives -999 whatever else holds. Otherwise the score
   * lies between `-|need| - 2` and `2 * |desiredTags| + |need| + 1`, where
   * `need` counts distinct materials; so it stays above the ranking cut-off
   * of -500 unless the activity needs 498 or more distinct materials.
   */
  lemma ScoreRange(a: PlanActivity, desiredTags: seq<string>, m: Materials, env: Environment)
    ensures Blocked(a, m) ==> Score(a, desiredTags, m, env) == -999
    ensures !Blocked(a, m) ==>
      -|Need(a)| - 2 <= Score(a, desiredTags, m, env) <= 2 * |desiredTags| + |Need(a)| + 1
    ensures !Blocked(a, m) && |Need(a)| < 498 ==> Score(a, desiredTags, m, env) > -500
  {
  }

  /** Each distinct needed material counts once, +1 if available, -1 if not. */
  lemma {:induction false} MaterialPoints(need: seq<string>, have: set<string>)
    ensures Count(need, InSet(have)) - Count(need, NotInSet(have)) == 2 * Count(need, InSet(have)) - |need|
    decreases |need|
  {
    if need != [] {
      MaterialPoints(need[..|need| - 1], have);
    }
  }

  // ---------------------------------------------------------------------
  // Ranking (plannerAI.ts:74-77)
  // ---------------------------------------------------------------------

  datatype Scored = Scored(a: PlanActivity, score: int)

  function ScoredMaker(desiredTags: seq<string>, m: Materials, env: Environment): PlanActivity -> Scored
  {
    a => Scored(a, Score(a, desiredTags, m, env))
  }

  function Eligible(x: Scored): bool
  {
    x.score > -500 && NormalizeId(x.a) != ""
  }

  function ScoreKey(x: Scored): real { x.score as real }

  /** Scored, filtered and stably sorted by non-increasing score. */
  function Ranked(activities: seq<PlanActivity>, desiredTags: seq<string>, m: Materials, env: Environment): seq<Scored>
  {
    SortDesc(Filter(MapSeq(activities, ScoredMaker(desiredTags, m, env)), Eligible), ScoreKey)
  }

  /** Every ranked entry is an input activity with its own score, above -500 and with an id. */
  lemma RankedFromInput(activities: seq<PlanActivity>, desiredTags: seq<string>, m: Materials, env: Environment)
    ensures var r := Ranked(activities, desiredTags, m, env);
      forall k :: 0 <= k < |r| ==>
        r[k].a in activities && r[k].score == Score(r[k].a, desiredTags, m, env) && Eligible(r[k])
  {
    var scored := MapSeq(activities, ScoredMaker(desiredTags, m, env));
    var f := Filter(scored, Eligible);
    var r := Ranked(activities, desiredTags, m, env);
    assert multiset(r) == multiset(f);
    forall k | 0 <= k < |r|
      ensures r[k].a in activities && r[k].score == Score(r[k].a, desiredTags, m, env) && Eligible(r[k])
    {
      assert r[k] in multiset(f);
      ScoredEntry(activities, desiredTags, m, env, r[k]);
    }
  }

  lemma ScoredEntry(activities: seq<PlanActivity>, desiredTags: seq<string>, m: Materials, env: Environment, x: Scored)
    requires x in Filter(MapSeq(activities, ScoredMaker(desiredTags, m, env)), Eligible)
    ensures x.a in activities && x.score == Score(x.a, desiredTags, m, env) && Eligible(x)
  {
    var maker := ScoredMaker(desiredTags, m, env);
    FilterMapEntry(activities, maker, Eligible, x);
    var i :| 0 <= i < |activities| && x == maker(activities[i]);
  }

  /** Every activity that scores above the cut-off and has an id is ranked. */
  lemma RankedComplete(activities: seq<PlanActivity>, desiredTags: seq<string>, m: Materials, env: Environment)
    ensures var r := Ranked(activities, desiredTags, m, env);
      forall i ::
        0 <= i < |activities| && Score(activities[i], desiredTags, m, env) > -500 && NormalizeId(activities[i]) != ""
        ==> Scored(activities[i], Score(activities[i], desiredTags, m, env)) in r
  {
    var scored := MapSeq(activities, ScoredMaker(desiredTags, m, env));
    var f := Filter(scored, Eligible);
    var r := Ranked(activities, desiredTags, m, env);
    assert multiset(r) == multiset(f);
    forall i | 0 <= i < |activities| && Score(activities[i], desiredTags, m, env) > -500 && NormalizeId(activities[i]) != ""
      ensures Scored(activities[i], Score(activities[i], desiredTags, m, env)) in r
    {
      assert scored[i] == Scored(activities[i], Score(activities[i], desiredTags, m, env));
      assert scored[i] in f;
      assert scored[i] in multiset(r);
    }
  }

  /** The ranking is by non-increasing score. */
  lemma RankedSorted(activities: seq<PlanActivity>, desiredTags: seq<string>, m: Materials, env: Environment)
    ensures var r := Ranked(activities, desiredTags, m, env);
      forall i, j :: 0 <= i < j < |r| ==> r[i].score >= r[j].score
  {
    var f := Filter(MapSeq(activities, ScoredMaker(desiredTags, m, env)), Eligible);
    var r := Ranked(activities, desiredTags, m, env);
    SortDescSorted(f, ScoreKey);
    forall i, j | 0 <= i < j < |r| ensures r[i].score >= r[j].score {
      assert ScoreKey(r[i]) >= ScoreKey(r[j]);
    }
  }

  /** Activities with equal scores keep their input order. */
  lemma RankedStable(activities: seq<PlanActivity>, desiredTags: seq<string>, m: Materials, env: Environment, k: int)
    ensures Filter(Ranked(activities, desiredTags, m, env), KeyIs(ScoreKey, k as real))
         == Filter(Filter(MapSeq(activities, ScoredMaker(desiredTags, m, env)), Eligible), KeyIs(ScoreKey, k as real))
  {
    SortDescStable(Filter(MapSeq(activities, ScoredMaker(desiredTags, m, env)), Eligible), ScoreKey, k as real);
  }

  // ---------------------------------------------------------------------
  // Inputs of the plan (plannerAI.ts:65-71)
  // ---------------------------------------------------------------------

  const DefaultDays: seq<string> := ["Mon", "Tue", "Wed", "Thu", "Fri"]

  /** `timetable?.days || [...]`: an empty list is kept (it is truthy). */
  function PlanDays(t: Timetable): seq<string> { GetOr(t.days, DefaultDays) }

  /** `timetable.ageGroups?.[0]?.slots || []` */
  function PlanSlots(t: Timetable): seq<Slot>
  {
    if t.ageGroups.Some? && |t.ageGroups.value| > 0 && t.ageGroups.value[0].slots.Some?
    then t.ageGroups.value[0].slots.value else []
  }

  function IsWeekOne(w: Week): bool { w.week == 1 }

  /** `mind.weeks.find(w => w.week === 1) || mind.weeks[0]` */
  function FocusWeek(mind: MindMap): (r: Option<Week>)
    ensures r.Some? ==> r.value in mind.weeks
    ensures r.None? <==> mind.weeks == []
    ensures (exists i :: 0 <= i < |mind.weeks| && mind.weeks[i].week == 1) ==> r.Some? && r.value.week == 1
  {
    var ones := Filter(mind.weeks, IsWeekOne);
    if ones != [] then Some(ones[0])
    else if mind.weeks != [] then Some(mind.weeks[0])
    else None
  }

  function DesiredTags(mind: MindMap): seq<string>
  {
    match FocusWeek(mind)
    case None => []
    case Some(w) => GetOr(w.primaryTags, [])
  }

  function TargetNodes(mind: MindMap): set<string>
  {
    match FocusWeek(mind)
    case None => {}
    case Some(w) => Elems(GetOr(w.targetNodeIds, []))
  }

  // ---------------------------------------------------------------------
  // Fillable slots (plannerAI.ts:88)
  // ---------------------------------------------------------------------

  function Lower(c: char): char
  {
    if 'A' <= c <= 'Z' then (c as int + 32) as char else c
  }

  /** `s` starts with `p` up to ASCII case (`p` is lower-case). */
  predicate StartsCI(s: string, p: string)
  {
    |p| <= |s| && forall k :: 0 <= k < |p| ==> Lower(s[k]) == p[k]
  }

  /** Some position of `s` starts with `p` up to ASCII case. */
  predicate OccursCI(s: string, p: string)
    decreases |s|
  {
    StartsCI(s, p) || (|s| > 0 && OccursCI(s[1..], p))
  }

  const FillablePatterns: seq<string> :=
    ["activity a", "activity b", "activity c", "circle time", "read aloud", "standalone", "language", "numeracy"]

  /**
   * `/Activity [ABC]|Circle Time|Read Aloud|Standalone|Language|Numeracy/i`.
   * The patterns are ASCII, and without the `u` flag a non-ASCII character
   * never folds to an ASCII one, so ASCII case folding is exact here.
   */
  predicate IsFillable(slotType: string)
  {
    exists i :: 0 <= i < |FillablePatterns| && OccursCI(slotType, FillablePatterns[i])
  }

  /** A pattern occurs exactly when it matches at some position. */
  lemma {:induction false} OccursAt(s: string, p: string)
    ensures OccursCI(s, p) <==> exists i :: 0 <= i <= |s| && StartsCI(s[i..], p)
    decreases |s|
  {
    assert s[0..] == s;
    if |s| > 0 {
      OccursAt(s[1..], p);
      if exists i :: 0 <= i <= |s[1..]| && StartsCI(s[1..][i..], p) {
        var i :| 0 <= i <= |s[1..]| && StartsCI(s[1..][i..], p);
        assert s[1..][i..] == s[i + 1..];
      }
      if exists i :: 0 <= i <= |s| && StartsCI(s[i..], p) {
        var i :| 0 <= i <= |s| && StartsCI(s[i..], p);
        if i > 0 {
          assert s[1..][i - 1..] == s[i..];
        }
      }
    }
  }

  function FillableSlot(s: Slot): bool { IsFillable(s.slotType) }

  // ---------------------------------------------------------------------
  // Choosing the next activity (plannerAI.ts:92-111)
  // ---------------------------------------------------------------------

  /** `item.links?.[0]?.nodeId` */
  function PrimaryNode(a: PlanActivity): Option<string>
  {
    if HasLinks(a) then Some(a.links.value[0].nodeId) else None
  }

  /** A candidate the loop skips: no id, already used, or off-target. */
  predicate Rejected(a: PlanActivity, used: set<string>, targets: set<string>)
  {
    NormalizeId(a) == "" || NormalizeId(a) in used
    || (|targets| > 0 && SI.Truthy(PrimaryNode(a)) && PrimaryNode(a).value !in targets)
  }

  datatype Pick = Pick(choice: Option<PlanActivity>, cursor: nat)

  /** The rotation from `cursor`, with `spins` candidates already seen. */
  function PickFrom(ranked: seq<Scored>, cursor: nat, spins: nat, used: set<string>, targets: set<string>): Pick
    decreases |ranked| - spins
  {
    if spins >= |ranked| then Pick(None, cursor)
    else
      var item := ranked[cursor % |ranked|].a;
      if Rejected(item, used, targets) then PickFrom(ranked, cursor + 1, spins + 1, used, targets)
      else Pick(Some(item), cursor + 1)
  }

  /**
   * The pick is the first acceptable candidate in rotation order from the
   * cursor; the cursor moves past it. With none, every remaining candidate
   * is rejected and the cursor moves past all of them.
   */
  lemma {:induction false} PickFirst(ranked: seq<Scored>, cursor: nat, spins: nat, used: set<string>, targets: set<string>)
    requires spins <= |ranked|
    ensures var p := PickFrom(ranked, cursor, spins, used, targets);
      && cursor <= p.cursor <= cursor + |ranked| - spins
      && (forall k :: cursor <= k < p.cursor - (if p.choice.Some? then 1 else 0) ==>
            Rejected(ranked[k % |ranked|].a, used, targets))
      && (p.choice.Some? ==>
            p.cursor > cursor && p.choice.value == ranked[(p.cursor - 1) % |ranked|].a && !Rejected(p.choice.value, used, targets))
      && (p.choice.None? ==> p.cursor == cursor + |ranked| - spins)
    decreases |ranked| - spins
  {
    if spins < |ranked| {
      var item := ranked[cursor % |ranked|].a;
      if Rejected(item, used, targets) {
        PickFirst(ranked, cursor + 1, spins + 1, used, targets);
      }
    }
  }

  /** A full rotation that finds nothing has rejected every candidate. */
  lemma PickNoneAllRejected(ranked: seq<Scored>, cursor: nat, used: set<string>, targets: set<string>)
    requires PickFrom(ranked, cursor, 0, used, targets).choice.None?
    ensures forall k :: 0 <= k < |ranked| ==> Rejected(ranked[k].a, used, targets)
  {
    PickFirst(ranked, cursor, 0, used, targets);
    forall k | 0 <= k < |ranked| ensures Rejected(ranked[k].a, used, targets) {
      var c := ModOffset(cursor, k, |ranked|);
      assert c % |ranked| == k;
    }
  }

  /** Some position of the window `[cursor, cursor + n)` lands on slot `k`. */
  lemma ModOffset(cursor: nat, k: int, n: int) returns (c: int)
    requires 0 <= k < n
    ensures cursor <= c < cursor + n && c % n == k
  {
    var off := (k - cursor) % n;
    c := cursor + off;
    assert (k - cursor) == ((k - cursor) / n) * n + off;
    assert c == k - ((k - cursor) / n) * n;
    ModShift(k, -((k - cursor) / n), n);
  }

  lemma {:induction false} MulAtLeast(a: int, n: nat)
    requires a >= 1
    ensures a * n >= n
    decreases a
  {
    if a > 1 {
      MulAtLeast(a - 1, n);
      assert a * n == (a - 1) * n + n;
    }
  }

  lemma GapAtLeast(q: int, q': int, n: nat)
    requires q > q'
    ensures q * n - q' * n >= n
  {
    MulAtLeast(q - q', n);
    assert (q - q') * n == q * n - q' * n;
  }

  lemma ModShift(k: int, q: int, n: int)
    requires 0 <= k < n
    ensures (k + q * n) % n == k
  {
    var x := k + q * n;
    var q', k' := x / n, x % n;
    assert x == q' * n + k';
    if q > q' {
      GapAtLeast(q, q', n);
      assert false;
    } else if q < q' {
      GapAtLeast(q', q, n);
      assert false;
    }
  }

  /** plannerAI.ts:92-111 */
  method PickNext(ranked: seq<Scored>, cursor0: nat, used: set<string>, targets: set<string>)
    returns (choice: Option<PlanActivity>, cursor: nat)
    ensures Pick(choice, cursor) == PickFrom(ranked, cursor0, 0, used, targets)
  {
    cursor := cursor0;
    choice := None;
    var spins: nat := 0;
    while spins < |ranked|
      invariant spins <= |ranked| && cursor == cursor0 + spins
      invariant PickFrom(ranked, cursor, spins, used, targets) == PickFrom(ranked, cursor0, 0, used, targets)
      decreases |ranked| - spins
    {
      var item := ranked[cursor % |ranked|].a;
      cursor := cursor + 1;
      spins := spins + 1;
      var id := NormalizeId(item);
      if id == "" || id in used {
        continue;
      }
      if |targets| > 0 {
        var primaryNode := PrimaryNode(item);
        if SI.Truthy(primaryNode) && primaryNode.value !in targets {
          continue;
        }
      }
      choice := Some(item);
      return;
    }
  }

  // ---------------------------------------------------------------------
  // generateWeeklyPlan (plannerAI.ts:57-126)
  // ---------------------------------------------------------------------

  /** No activity id appears twice anywhere in the week. */
  ghost predicate DistinctIds(weekly: map<string, seq<PlanItem>>)
  {
    forall d1, d2, i, j ::
      d1 in weekly && d2 in weekly && 0 <= i < |weekly[d1]| && 0 <= j < |weekly[d2]| && (d1 != d2 || i != j)
      ==> weekly[d1][i].activityId != weekly[d2][j].activityId
  }

  ghost function UsedIds(weekly: map<string, seq<PlanItem>>): set<string>
  {
    set d, i | d in weekly && 0 <= i < |weekly[d]| :: weekly[d][i].activityId
  }

  /** What every planned item satisfies. */
  ghost predicate ItemOk(it: PlanItem, slots: seq<Slot>, ranked: seq<Scored>, targets: set<string>)
  {
    && IsFillable(it.slotType)
    && (exists s :: s in slots && s.slotType == it.slotType && s.time == it.time)
    && it.activityId != ""
    && (exists k :: 0 <= k < |ranked| && NormalizeId(ranked[k].a) == it.activityId && it.nodeId == PrimaryNode(ranked[k].a))
    && (|targets| > 0 && SI.Truthy(it.nodeId) ==> it.nodeId.value in targets)
  }

  function EqDay(d: string): string -> bool
  {
    x => x == d
  }

  ghost predicate ItemsOk(weekly: map<string, seq<PlanItem>>, slots: seq<Slot>, ranked: seq<Scored>, targets: set<string>)
  {
    forall d, i {:trigger weekly[d][i]} :: d in weekly && 0 <= i < |weekly[d]| ==> ItemOk(weekly[d][i], slots, ranked, targets)
  }

  /** At most one item per fillable slot of each listed occurrence of the day. */
  ghost predicate Within(days: seq<string>, slots: seq<Slot>, weekly: map<string, seq<PlanItem>>, di: nat, si: nat)
    requires di <= |days| && si <= |slots|
  {
    forall d :: d in weekly ==>
      |weekly[d]| <= Count(days[..di], EqDay(d)) * Count(slots, FillableSlot)
                     + (if di < |days| && d == days[di] then Count(slots[..si], FillableSlot) else 0)
  }

  /** The state of the fill after `di` days and, of day `di`, `si` slots. */
  ghost predicate FillInv(days: seq<string>, slots: seq<Slot>, ranked: seq<Scored>, targets: set<string>,
                          weekly: map<string, seq<PlanItem>>, used: set<string>, di: nat, si: nat)
  {
    && di <= |days| && si <= |slots| && (di == |days| ==> si == 0)
    && weekly.Keys == Elems(days)
    && DistinctIds(weekly)
    && used == UsedIds(weekly)
    && ItemsOk(weekly, slots, ranked, targets)
    && Within(days, slots, weekly, di, si)
  }

  lemma PushDistinct(weekly: map<string, seq<PlanItem>>, used: set<string>, d: string, it: PlanItem)
    requires DistinctIds(weekly) && used == UsedIds(weekly) && d in weekly && it.activityId !in used
    ensures DistinctIds(weekly[d := weekly[d] + [it]])
    ensures UsedIds(weekly[d := weekly[d] + [it]]) == used + {it.activityId}
  {
    var w': map<string, seq<PlanItem>> := weekly[d := weekly[d] + [it]];
    forall d1, d2, i, j |
      d1 in w' && d2 in w' && 0 <= i < |w'[d1]| && 0 <= j < |w'[d2]| && (d1 != d2 || i != j)
      ensures w'[d1][i].activityId != w'[d2][j].activityId
    {
      if d1 == d && i == |weekly[d]| {
        assert w'[d2][j] == weekly[d2][j];
        assert weekly[d2][j].activityId in UsedIds(weekly);
      } else if d2 == d && j == |weekly[d]| {
        assert w'[d1][i] == weekly[d1][i];
        assert weekly[d1][i].activityId in UsedIds(weekly);
      } else {
        assert w'[d1][i] == weekly[d1][i];
        assert w'[d2][j] == weekly[d2][j];
      }
    }
    forall x | x in UsedIds(w') ensures x in used + {it.activityId} {
      var d1, i :| d1 in w' && 0 <= i < |w'[d1]| && w'[d1][i].activityId == x;
      if !(d1 == d && i == |weekly[d]|) {
        assert w'[d1][i] == weekly[d1][i];
      }
    }
    forall x | x in used + {it.activityId} ensures x in UsedIds(w') {
      if x == it.activityId {
        assert w'[d][|weekly[d]|] == it;
      } else {
        var d1, i :| d1 in weekly && 0 <= i < |weekly[d1]| && weekly[d1][i].activityId == x;
        assert w'[d1][i] == weekly[d1][i];
      }
    }
  }

  lemma PushItems(weekly: map<string, seq<PlanItem>>, slots: seq<Slot>, ranked: seq<Scored>, targets: set<string>,
                  d: string, it: PlanItem)
    requires ItemsOk(weekly, slots, ranked, targets) && d in weekly && ItemOk(it, slots, ranked, targets)
    ensures ItemsOk(weekly[d := weekly[d] + [it]], slots, ranked, targets)
  {
    var w': map<string, seq<PlanItem>> := weekly[d := weekly[d] + [it]];
    forall d1, i {:trigger w'[d1][i]} | d1 in w' && 0 <= i < |w'[d1]| ensures ItemOk(w'[d1][i], slots, ranked, targets) {
      if !(d1 == d && i == |weekly[d]|) {
        assert w'[d1][i] == weekly[d1][i];
      }
    }
  }

  lemma PushWithin(days: seq<string>, slots: seq<Slot>, weekly: map<string, seq<PlanItem>>, di: nat, si: nat, it: PlanItem)
    requires di < |days| && si < |slots| && Within(days, slots, weekly, di, si)
    requires days[di] in weekly && FillableSlot(slots[si])
    ensures Within(days, slots, weekly[days[di] := weekly[days[di]] + [it]], di, si + 1)
  {
    CountStep(slots, si, FillableSlot);
  }

  lemma PushStep(days: seq<string>, slots: seq<Slot>, ranked: seq<Scored>, targets: set<string>,
                 weekly: map<string, seq<PlanItem>>, used: set<string>, di: nat, si: nat, it: PlanItem)
    requires FillInv(days, slots, ranked, targets, weekly, used, di, si)
    requires di < |days| && si < |slots| && slots[si].slotType == it.slotType && slots[si].time == it.time
    requires IsFillable(it.slotType) && it.activityId !in used
    requires it.activityId != ""
    requires exists k :: 0 <= k < |ranked| && NormalizeId(ranked[k].a) == it.activityId && it.nodeId == PrimaryNode(ranked[k].a)
    requires |targets| > 0 && SI.Truthy(it.nodeId) ==> it.nodeId.value in targets
    ensures days[di] in weekly
    ensures FillInv(days, slots, ranked, targets, weekly[days[di] := weekly[days[di]] + [it]],
                    used + {it.activityId}, di, si + 1)
  {
    var d := days[di];
    assert d in Elems(days);
    assert slots[si] in slots;
    PushDistinct(weekly, used, d, it);
    PushItems(weekly, slots, ranked, targets, d, it);
    PushWithin(days, slots, weekly, di, si, it);
  }

  lemma SkipStep(days: seq<string>, slots: seq<Slot>, ranked: seq<Scored>, targets: set<string>,
                 weekly: map<string, seq<PlanItem>>, used: set<string>, di: nat, si: nat)
    requires FillInv(days, slots, ranked, targets, weekly, used, di, si)
    requires di < |days| && si < |slots|
    ensures FillInv(days, slots, ranked, targets, weekly, used, di, si + 1)
  {
    CountStep(slots, si, FillableSlot);
  }

  lemma DayStep(days: seq<string>, slots: seq<Slot>, ranked: seq<Scored>, targets: set<string>,
                weekly: map<string, seq<PlanItem>>, used: set<string>, di: nat)
    requires FillInv(days, slots, ranked, targets, weekly, used, di, |slots|)
    requires di < |days|
    ensures FillInv(days, slots, ranked, targets, weekly, used, di + 1, 0)
  {
    assert slots[..|slots|] == slots;
    var f := Count(slots, FillableSlot);
    forall d | d in weekly
      ensures |weekly[d]| <= Count(days[..di + 1], EqDay(d)) * f
                            + (if di + 1 < |days| && d == days[di + 1] then Count(slots[..0], FillableSlot) else 0)
    {
      CountStep(days, di, EqDay(d));
      MulSucc(Count(days[..di], EqDay(d)), f);
      assert Count(slots[..0], FillableSlot) == 0;
    }
  }

  lemma FillStart(days: seq<string>, slots: seq<Slot>, ranked: seq<Scored>, targets: set<string>,
                  weekly: map<string, seq<PlanItem>>)
    requires weekly.Keys == Elems(days) && forall d :: d in weekly ==> weekly[d] == []
    ensures FillInv(days, slots, ranked, targets, weekly, {}, 0, 0)
  {
    assert UsedIds(weekly) == {};
  }

  lemma FillEnd(days: seq<string>, slots: seq<Slot>, ranked: seq<Scored>, targets: set<string>,
                weekly: map<string, seq<PlanItem>>, used: set<string>)
    requires FillInv(days, slots, ranked, targets, weekly, used, |days|, 0)
    ensures forall d :: d in weekly ==> |weekly[d]| <= Count(days, EqDay(d)) * Count(slots, FillableSlot)
  {
    assert days[..|days|] == days;
  }

  /** A chosen activity is an acceptable ranked candidate. */
  lemma ChoiceOk(ranked: seq<Scored>, cursor: nat, used: set<string>, targets: set<string>)
    requires PickFrom(ranked, cursor, 0, used, targets).choice.Some?
    ensures var a := PickFrom(ranked, cursor, 0, used, targets).choice.value;
      !Rejected(a, used, targets) && exists k :: 0 <= k < |ranked| && ranked[k].a == a
  {
    PickFirst(ranked, cursor, 0, used, targets);
    var p := PickFrom(ranked, cursor, 0, used, targets);
    var k := (p.cursor - 1) % |ranked|;
    assert ranked[k].a == p.choice.value;
  }

  /** An empty list for each listed day. */
  function EmptyDays(days: seq<string>): map<string, seq<PlanItem>>
  {
    map d | d in Elems(days) :: []
  }

  /** plannerAI.ts:81-82: an empty list per day. */
  method EmptyWeek(days: seq<string>) returns (weekly: map<string, seq<PlanItem>>)
    ensures weekly.Keys == Elems(days) && forall d :: d in weekly ==> weekly[d] == []
    ensures weekly == EmptyDays(days)
  {
    weekly := map[];
    for k := 0 to |days|
      invariant weekly.Keys == Elems(days[..k]) && forall d :: d in weekly ==> weekly[d] == []
    {
      assert days[..k + 1] == days[..k] + [days[k]];
      weekly := weekly[days[k] := []];
    }
    assert days[..|days|] == days;
  }

  // ---------------------------------------------------------------------
  // The greedy fill as a specification (plannerAI.ts:80-123)
  // ---------------------------------------------------------------------

  /** The state the fill carries from slot to slot: the plan, the used ids and the cursor. */
  datatype Fill = Fill(weekly: map<string, seq<PlanItem>>, used: set<string>, cursor: nat)

  function DayOf(weekly: map<string, seq<PlanItem>>, d: string): seq<PlanItem>
  {
    if d in weekly then weekly[d] else []
  }

  /** plannerAI.ts:114-121: the item a chosen activity gives the slot. */
  function ItemFor(slot: Slot, a: PlanActivity): PlanItem
  {
    PlanItem(slot.slotType, slot.time, NormalizeId(a), PrimaryNode(a))
  }

  /**
   * plannerAI.ts:86-121: slot `si` of day `di`. A slot that is not fillable
   * changes nothing; otherwise the rotation from the cursor picks the next
   * acceptable candidate, which is pushed onto the day and marked used; the
   * cursor moves past every candidate the rotation looked at.
   */
  function SlotStep(days: seq<string>, slots: seq<Slot>, ranked: seq<Scored>, targets: set<string>,
                    st: Fill, di: nat, si: nat): Fill
    requires di < |days| && si < |slots|
  {
    if !IsFillable(slots[si].slotType) then st
    else
      var p := PickFrom(ranked, st.cursor, 0, st.used, targets);
      if p.choice.None? then st.(cursor := p.cursor)
      else
        var d := days[di];
        Fill(st.weekly[d := DayOf(st.weekly, d) + [ItemFor(slots[si], p.choice.value)]],
             st.used + {NormalizeId(p.choice.value)}, p.cursor)
  }

  /** The first `n` slots of day `di`, in timetable order. */
  function DaySpec(days: seq<string>, slots: seq<Slot>, ranked: seq<Scored>, targets: set<string>,
                   st: Fill, di: nat, n: nat): Fill
    requires di < |days| && n <= |slots|
    decreases n
  {
    if n == 0 then st else SlotStep(days, slots, ranked, targets, DaySpec(days, slots, ranked, targets, st, di, n - 1), di, n - 1)
  }

  /** The first `n` days, each over all slots. */
  function WeekSpec(days: seq<string>, slots: seq<Slot>, ranked: seq<Scored>, targets: set<string>,
                    st: Fill, n: nat): Fill
    requires n <= |days|
    decreases n
  {
    if n == 0 then st else DaySpec(days, slots, ranked, targets, WeekSpec(days, slots, ranked, targets, st, n - 1), n - 1, |slots|)
  }

  /** The plan the greedy fill produces: every day empty, nothing used, the cursor at 0, then all days. */
  function WeeklyPlan(days: seq<string>, slots: seq<Slot>, ranked: seq<Scored>, targets: set<string>): map<string, seq<PlanItem>>
  {
    WeekSpec(days, slots, ranked, targets, Fill(EmptyDays(days), {}, 0), |days|).weekly
  }

  /**
   * What one fillable slot receives: when the rotation finds nothing, the
   * slot stays empty and every ranked candidate was rejected; otherwise the
   * day gains exactly one item, for an acceptable ranked candidate, which is
   * then used.
   */
  lemma SlotStepChoice(days: seq<string>, slots: seq<Slot>, ranked: seq<Scored>, targets: set<string>,
                       st: Fill, di: nat, si: nat)
    requires di < |days| && si < |slots| && IsFillable(slots[si].slotType)
    ensures var p := PickFrom(ranked, st.cursor, 0, st.used, targets);
      var st' := SlotStep(days, slots, ranked, targets, st, di, si);
      && (p.choice.None? ==>
            st'.weekly == st.weekly && st'.used == st.used
            && forall k :: 0 <= k < |ranked| ==> Rejected(ranked[k].a, st.used, targets))
      && (p.choice.Some? ==>
            !Rejected(p.choice.value, st.used, targets)
            && (exists k :: 0 <= k < |ranked| && ranked[k].a == p.choice.value)
            && st'.weekly[days[di]] == DayOf(st.weekly, days[di]) + [ItemFor(slots[si], p.choice.value)]
            && (forall d :: d != days[di] && d in st.weekly ==> d in st'.weekly && st'.weekly[d] == st.weekly[d])
            && st'.used == st.used + {NormalizeId(p.choice.value)})
  {
    var p := PickFrom(ranked, st.cursor, 0, st.used, targets);
    if p.choice.None? {
      PickNoneAllRejected(ranked, st.cursor, st.used, targets);
    } else {
      ChoiceOk(ranked, st.cursor, st.used, targets);
    }
  }

  /** plannerAI.ts:87-121: one slot of day `di`. */
  method FillSlot(days: seq<string>, slots: seq<Slot>, ranked: seq<Scored>, targetNodes: set<string>,
                  weekly0: map<string, seq<PlanItem>>, used0: set<string>, cursor0: nat, di: nat, si: nat)
    returns (weekly: map<string, seq<PlanItem>>, used: set<string>, cursor: nat)
    requires FillInv(days, slots, ranked, targetNodes, weekly0, used0, di, si) && di < |days| && si < |slots|
    ensures FillInv(days, slots, ranked, targetNodes, weekly, used, di, si + 1)
    ensures Fill(weekly, used, cursor) == SlotStep(days, slots, ranked, targetNodes, Fill(weekly0, used0, cursor0), di, si)
  {
    weekly, used, cursor := weekly0, used0, cursor0;
    var slotType := slots[si].slotType;
    if !IsFillable(slotType) {
      SkipStep(days, slots, ranked, targetNodes, weekly, used, di, si);
      return;
    }
    var choice: Option<PlanActivity>;
    choice, cursor := PickNext(ranked, cursor, used, targetNodes);
    if choice.None? {
      SkipStep(days, slots, ranked, targetNodes, weekly, used, di, si);
      return;
    }
    var id := NormalizeId(choice.value);
    var it := PlanItem(slotType, slots[si].time, id, PrimaryNode(choice.value));
    ChoiceOk(ranked, cursor0, used, targetNodes);
    PushStep(days, slots, ranked, targetNodes, weekly, used, di, si, it);
    used := used + {id};
    weekly := weekly[days[di] := weekly[days[di]] + [it]];
  }

  /** plannerAI.ts:80-123: the greedy fill of the days' slots from the ranking. */
  method FillWeek(days: seq<string>, slots: seq<Slot>, ranked: seq<Scored>, targetNodes: set<string>)
    returns (weekly: map<string, seq<PlanItem>>)
    ensures weekly.Keys == Elems(days)
    ensures DistinctIds(weekly)
    ensures ItemsOk(weekly, slots, ranked, targetNodes)
    ensures forall d :: d in weekly ==> |weekly[d]| <= Count(days, EqDay(d)) * Count(slots, FillableSlot)
    ensures weekly == WeeklyPlan(days, slots, ranked, targetNodes)
  {
    var used: set<string> := {};
    weekly := EmptyWeek(days);
    FillStart(days, slots, ranked, targetNodes, weekly);
    var cursor: nat := 0;
    ghost var st0 := Fill(weekly, used, cursor);
    for di := 0 to |days|
      invariant FillInv(days, slots, ranked, targetNodes, weekly, used, di, 0)
      invariant Fill(weekly, used, cursor) == WeekSpec(days, slots, ranked, targetNodes, st0, di)
    {
      weekly, used, cursor := FillDay(days, slots, ranked, targetNodes, weekly, used, cursor, di);
    }
    FillEnd(days, slots, ranked, targetNodes, weekly, used);
  }

  /** plannerAI.ts:84-122: the slots of day `di`, in timetable order. */
  method FillDay(days: seq<string>, slots: seq<Slot>, ranked: seq<Scored>, targetNodes: set<string>,
                 weekly0: map<string, seq<PlanItem>>, used0: set<string>, cursor0: nat, di: nat)
    returns (weekly: map<string, seq<PlanItem>>, used: set<string>, cursor: nat)
    requires FillInv(days, slots, ranked, targetNodes, weekly0, used0, di, 0) && di < |days|
    ensures FillInv(days, slots, ranked, targetNodes, weekly, used, di + 1, 0)
    ensures Fill(weekly, used, cursor) == DaySpec(days, slots, ranked, targetNodes, Fill(weekly0, used0, cursor0), di, |slots|)
  {
    weekly, used, cursor := weekly0, used0, cursor0;
    for si := 0 to |slots|
      invariant FillInv(days, slots, ranked, targetNodes, weekly, used, di, si)
      invariant Fill(weekly, used, cursor) == DaySpec(days, slots, ranked, targetNodes, Fill(weekly0, used0, cursor0), di, si)
    {
      weekly, used, cursor := FillSlot(days, slots, ranked, targetNodes, weekly, used, cursor, di, si);
    }
    DayStep(days, slots, ranked, targetNodes, weekly, used, di);
  }

  /**
   * plannerAI.ts:57-126: every listed day has an entry; no activity id
   * appears twice in the week; every item fills a fillable slot with a
   * ranked activity, its `nodeId` that activity's primary node, on target
   * when the week has targets; and a day holds at most one item per
   * fillable slot per listing of the day.
   */
  method GenerateWeeklyPlan(mind: MindMap, timetable: Timetable, activities: seq<PlanActivity>,
                            m: Materials, env: Environment)
    returns (weekly: map<string, seq<PlanItem>>)
    ensures weekly.Keys == Elems(PlanDays(timetable))
    ensures DistinctIds(weekly)
    ensures ItemsOk(weekly, PlanSlots(timetable), Ranked(activities, DesiredTags(mind), m, env), TargetNodes(mind))
    ensures forall d :: d in weekly ==>
      |weekly[d]| <= Count(PlanDays(timetable), EqDay(d)) * Count(PlanSlots(timetable), FillableSlot)
    ensures weekly == WeeklyPlan(PlanDays(timetable), PlanSlots(timetable),
                                 Ranked(activities, DesiredTags(mind), m, env), TargetNodes(mind))
  {
    var days := PlanDays(timetable);
    var slots := PlanSlots(timetable);
    var desiredTags := DesiredTags(mind);
    var targetNodes := TargetNodes(mind);
    var ranked := Ranked(activities, desiredTags, m, env);
    weekly := FillWeek(days, slots, ranked, targetNodes);
  }
}
