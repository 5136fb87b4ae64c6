/**
 * The visualiser's recommended-activities panel (`src/ui/RecommendedLibrary.tsx`):
 * every activity is scored by how many of its links hit the frontier (the
 * next milestones), with a small boost when a hitting link marks an exit
 * criterion; activities with a positive score are ranked by non-increasing
 * score, the first 20 are listed, and "Add" targets the first hitting link
 * or else the first frontier id.
 *
 * The frontier `Set` is only queried for membership, so it is the list of
 * frontier ids itself. `activities` is `None` when the document is missing
 * or its `activities` field is not an array.
 */
module RecommendedLibrary {
  import opened Common
  import opened Types

  /** `{ a, score, firstHit }`; `firstHit` is `None` for `null`. */
  datatype Scored = Scored(a: Activity, score: real, firstHit: Option<string>)

  /** `frontier.has(l.nodeId)` */
  function InFrontier(frontier: seq<string>): ActivityLink -> bool
  {
    (l: ActivityLink) => l.nodeId in frontier
  }

  /** `h.meetsExit` is truthy: present and not the empty string. */
  predicate MarksExit(l: ActivityLink)
  {
    l.meetsExit.Some? && l.meetsExit.value != ""
  }

  /** RecommendedLibrary.tsx:26: the links that hit the frontier, in link order. */
  function Hits(a: Activity, frontier: seq<string>): seq<ActivityLink>
  {
    Filter(a.links, InFrontier(frontier))
  }

  function Boost(hits: seq<ActivityLink>): real
  {
    if exists i :: 0 <= i < |hits| && MarksExit(hits[i]) then 0.25 else 0.0
  }

  /** RecommendedLibrary.tsx:24-29: score and first hit of one activity. */
  function ScoreOf(frontier: seq<string>): Activity -> Scored
  {
    a =>
      var hits := Hits(a, frontier);
      Scored(a, |hits| as real + Boost(hits),
             if |hits| > 0 && hits[0].nodeId != "" then Some(hits[0].nodeId) else None)
  }

  function Positive(x: Scored): bool
  {
    x.score > 0.0
  }

  function ScoreKey(x: Scored): real
  {
    x.score
  }

  /** RecommendedLibrary.tsx:17-32: the positive-score activities, best first. */
  function Ranked(activities: Option<seq<Activity>>, frontier: seq<string>): (r: seq<Scored>)
    ensures activities.None? ==> r == []
  {
    if activities.None? then []
    else SortDesc(Filter(MapSeq(activities.value, ScoreOf(frontier)), Positive), ScoreKey)
  }

  /** RecommendedLibrary.tsx:34-49: nothing without a frontier, else `scored.slice(0, 20)`. */
  function Listed(activities: Option<seq<Activity>>, frontierIds: seq<string>): (r: seq<Scored>)
    ensures |r| <= 20
    ensures frontierIds == [] ==> r == []
    ensures frontierIds != [] ==> r == Take(Ranked(activities, frontierIds), 20)
  {
    if frontierIds == [] then [] else Take(Ranked(activities, frontierIds), 20)
  }

  /**
   * RecommendedLibrary.tsx:71-76: the node "Add" targets, `firstHit ||
   * frontierIds[0]`; `None` when that is missing or empty (the alert).
   */
  function AddTarget(x: Scored, frontierIds: seq<string>): (t: Option<string>)
    ensures t.Some? ==> t.value != ""
    ensures x.firstHit.Some? && x.firstHit.value != "" ==> t == x.firstHit
    ensures (x.firstHit.None? || x.firstHit.value == "") ==>
      t == if |frontierIds| > 0 && frontierIds[0] != "" then Some(frontierIds[0]) else None
  {
    if x.firstHit.Some? && x.firstHit.value != "" then x.firstHit
    else if |frontierIds| > 0 && frontierIds[0] != "" then Some(frontierIds[0])
    else None
  }

  // ---------------------------------------------------------------------
  // Properties
  // ---------------------------------------------------------------------

  /**
   * The score is the number of links hitting the frontier, counted with
   * multiplicity, plus 0.25 exactly when one of those links marks an exit.
   */
  lemma ScoreCounts(a: Activity, frontier: seq<string>)
    ensures var n := Count(a.links, InFrontier(frontier)) as real;
      var s := ScoreOf(frontier)(a).score;
      (s == n || s == n + 0.25)
      && (s == n + 0.25 <==> exists i :: 0 <= i < |a.links| && a.links[i].nodeId in frontier && MarksExit(a.links[i]))
  {
    CountIsFilterLength(a.links, InFrontier(frontier));
    BoostIff(a, frontier);
  }

  /** The boost is given exactly when a link hitting the frontier marks an exit. */
  lemma BoostIff(a: Activity, frontier: seq<string>)
    ensures Boost(Hits(a, frontier)) == 0.25 <==>
      exists i :: 0 <= i < |a.links| && a.links[i].nodeId in frontier && MarksExit(a.links[i])
  {
    var hits := Hits(a, frontier);
    if exists i :: 0 <= i < |a.links| && a.links[i].nodeId in frontier && MarksExit(a.links[i]) {
      var i :| 0 <= i < |a.links| && a.links[i].nodeId in frontier && MarksExit(a.links[i]);
      assert a.links[i] in hits;
      var k :| 0 <= k < |hits| && hits[k] == a.links[i];
      assert MarksExit(hits[k]);
    }
    if exists k :: 0 <= k < |hits| && MarksExit(hits[k]) {
      var k :| 0 <= k < |hits| && MarksExit(hits[k]);
      assert hits[k] in a.links;
    }
  }

  /** An activity is kept exactly when at least one of its links hits the frontier. */
  lemma PositiveIffHit(a: Activity, frontier: seq<string>)
    ensures Positive(ScoreOf(frontier)(a)) <==> exists i :: 0 <= i < |a.links| && a.links[i].nodeId in frontier
  {
    var hits := Hits(a, frontier);
    if exists i :: 0 <= i < |a.links| && a.links[i].nodeId in frontier {
      var i :| 0 <= i < |a.links| && a.links[i].nodeId in frontier;
      assert a.links[i] in hits;
    }
    if |hits| > 0 {
      assert hits[0] in a.links;
    } else {
      assert Boost(hits) == 0.0;
    }
  }

  /**
   * `firstHit` names the first link in link order whose node is in the
   * frontier; it is `null` when no link hits or that link's id is empty.
   */
  lemma FirstHitIsFirst(a: Activity, frontier: seq<string>)
    ensures var f := ScoreOf(frontier)(a).firstHit;
      (f.Some? ==> exists i :: (0 <= i < |a.links| && a.links[i].nodeId == f.value && f.value in frontier
                               && forall j :: 0 <= j < i ==> a.links[j].nodeId !in frontier))
      && ((forall i :: 0 <= i < |a.links| ==> a.links[i].nodeId !in frontier) ==> f.None?)
  {
    var p := InFrontier(frontier);
    if exists x :: x in a.links && p(x) {
      var i := FirstMatch(a.links, p);
      FilterHead(a.links, p, i);
    } else {
      FilterNone(a.links, p);
    }
  }

  /**
   * The ranking holds the scored activities with a hit, each as often as
   * the input lists it, by non-increasing score; equal scores keep the
   * input order (the sort is stable).
   */
  lemma RankedProps(activities: seq<Activity>, frontier: seq<string>, k: real)
    ensures var all := MapSeq(activities, ScoreOf(frontier));
      var r := Ranked(Some(activities), frontier);
      multiset(r) == multiset(Filter(all, Positive))
      && (forall i, j :: 0 <= i < j < |r| ==> r[i].score >= r[j].score)
      && Filter(r, KeyIs(ScoreKey, k)) == Filter(Filter(all, Positive), KeyIs(ScoreKey, k))
  {
    var f := Filter(MapSeq(activities, ScoreOf(frontier)), Positive);
    SortDescSorted(f, ScoreKey);
    SortDescStable(f, ScoreKey, k);
  }

  /** Every ranked entry is the score of an input activity that hits the frontier, and every such activity is ranked. */
  lemma RankedMembers(activities: seq<Activity>, frontier: seq<string>, x: Scored)
    ensures x in Ranked(Some(activities), frontier) <==>
      exists i :: 0 <= i < |activities| && x == ScoreOf(frontier)(activities[i]) && Positive(x)
  {
    var all := MapSeq(activities, ScoreOf(frontier));
    var f := Filter(all, Positive);
    var r := Ranked(Some(activities), frontier);
    assert multiset(r) == multiset(f);
    assert x in r <==> x in f by {
      assert x in multiset(r) <==> x in multiset(f);
    }
    FilterMembers(all, Positive, x);
    if x in all {
      var i :| 0 <= i < |all| && all[i] == x;
    }
  }

  /** With an empty frontier nothing scores, so nothing is ranked. */
  lemma EmptyFrontierRanksNothing(activities: Option<seq<Activity>>)
    ensures Ranked(activities, []) == []
  {
    if activities.Some? {
      var all := MapSeq(activities.value, ScoreOf([]));
      forall i | 0 <= i < |all| ensures !Positive(all[i]) {
        PositiveIffHit(activities.value[i], []);
      }
      FilterNone(all, Positive);
    }
  }
}
