/**
 * The frontier-hit recommender (`src/planner/services/recommender.ts`):
 * activities are ranked by how many of their level targets lie on the
 * child's frontier. The genome index singleton is an `Option`; without it
 * the activities come back unranked.
 */
module Recommender {
  import opened Common
  import opened GenomeEngine
  import opened ServicesIndex

  /** recommender.ts:13: `levels[1] ?? levels[0]`, the second level if there is one. */
  function PreferredLevel(levels: seq<Level>): (l: Option<Level>)
    ensures |levels| >= 2 ==> l == Some(levels[1])
    ensures |levels| == 1 ==> l == Some(levels[0])
    ensures levels == [] <==> l.None?
  {
    if |levels| > 1 then Some(levels[1])
    else if |levels| == 1 then Some(levels[0])
    else None
  }

  /** recommender.ts:14 */
  function RankedTargets(a: Activity): seq<string>
  {
    match PreferredLevel(a.levels)
    case None => []
    case Some(l) => l.targets
  }

  function InSet(s: set<string>): string -> bool
  {
    x => x in s
  }

  /** recommender.ts:15: the targets on the frontier, counted with multiplicity. */
  function FrontierHits(a: Activity, frontier: set<string>): nat
  {
    |Filter(RankedTargets(a), InSet(frontier))|
  }

  function HitScore(frontier: set<string>): Activity -> real
  {
    a => FrontierHits(a, frontier) as real
  }

  function FrontierSet(idx: GenomeIndex, ach: seq<Achievement>): set<string>
  {
    set x | x in Derived(idx, ach).frontierAll
  }

  /** recommender.ts:5-24 */
  function RecommendForChild(idx: Option<GenomeIndex>, activities: seq<Activity>, ach: seq<Achievement>): (r: seq<Activity>)
    ensures multiset(r) == multiset(activities)
    ensures idx.None? ==> r == activities
  {
    if idx.None? then activities
    else SortDesc(activities, HitScore(FrontierSet(idx.value, ach)))
  }

  /** The score is the number of target entries on the frontier, and 0 exactly when none is. */
  lemma HitsCount(a: Activity, frontier: set<string>)
    ensures FrontierHits(a, frontier) == Count(RankedTargets(a), InSet(frontier))
    ensures FrontierHits(a, frontier) == 0 <==> forall t :: t in RankedTargets(a) ==> t !in frontier
  {
    CountIsFilterLength(RankedTargets(a), InSet(frontier));
  }

  /** Ranked by non-increasing frontier hits. */
  lemma RecommendSorted(idx: GenomeIndex, activities: seq<Activity>, ach: seq<Achievement>)
    ensures var r := RecommendForChild(Some(idx), activities, ach);
      forall i, j :: 0 <= i < j < |r| ==>
        FrontierHits(r[i], FrontierSet(idx, ach)) >= FrontierHits(r[j], FrontierSet(idx, ach))
  {
    var score := HitScore(FrontierSet(idx, ach));
    SortDescSorted(activities, score);
    var r := RecommendForChild(Some(idx), activities, ach);
    forall i, j | 0 <= i < j < |r| ensures FrontierHits(r[i], FrontierSet(idx, ach)) >= FrontierHits(r[j], FrontierSet(idx, ach)) {
      assert score(r[i]) >= score(r[j]);
    }
  }

  function HitsAre(frontier: set<string>, k: nat): Activity -> bool
  {
    a => FrontierHits(a, frontier) == k
  }

  /** Activities with equal scores keep their input order (the sort is stable). */
  lemma RecommendStable(idx: GenomeIndex, activities: seq<Activity>, ach: seq<Achievement>, k: nat)
    ensures Filter(RecommendForChild(Some(idx), activities, ach), HitsAre(FrontierSet(idx, ach), k))
         == Filter(activities, HitsAre(FrontierSet(idx, ach), k))
  {
    var f := FrontierSet(idx, ach);
    var score := HitScore(f);
    var r := RecommendForChild(Some(idx), activities, ach);
    SortDescStable(activities, score, k as real);
    forall a ensures HitsAre(f, k)(a) == KeyIs(score, k as real)(a) { }
    FilterExt(r, HitsAre(f, k), KeyIs(score, k as real));
    FilterExt(activities, HitsAre(f, k), KeyIs(score, k as real));
  }
}
