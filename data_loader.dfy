/**
 * The visualiser's data loader (`src/dataLoader.ts`): public URLs under the
 * deployment base, and loading the activities document from the first of
 * two candidate paths that loads, indexed by activity id.
 *
 * The network is a parameter: `fetch` maps a URL to what loading and
 * parsing it gave (a failure with its error message, JSON `null`, or a
 * document). The deployment base `BASE_URL` is a parameter too.
 */
module DataLoader {
  import opened Common
  import opened Types

  // ---------------------------------------------------------------------
  // Public URLs (dataLoader.ts:4-8)
  // ---------------------------------------------------------------------

  /** `s.replace(/\/+$/, '')` */
  function StripTrailingSlashes(s: string): (r: string)
    ensures |r| <= |s| && s[..|r|] == r
    ensures r == [] || r[|r| - 1] != '/'
    ensures forall i :: |r| <= i < |s| ==> s[i] == '/'
  {
    if s != [] && s[|s| - 1] == '/' then StripTrailingSlashes(s[..|s| - 1]) else s
  }

  /** `s.replace(/^\/+/, '')` */
  function StripLeadingSlashes(s: string): (r: string)
    ensures |r| <= |s| && s[|s| - |r|..] == r
    ensures r == [] || r[0] != '/'
    ensures forall i :: 0 <= i < |s| - |r| ==> s[i] == '/'
  {
    if s != [] && s[0] == '/' then StripLeadingSlashes(s[1..]) else s
  }

  /** `BASE_URL || '/'`: a missing or empty base is the site root. */
  function Base(envBase: Option<string>): string
  {
    if envBase.Some? && envBase.value != "" then envBase.value else "/"
  }

  /** dataLoader.ts:4-8 */
  function PublicUrl(envBase: Option<string>, path: string): string
  {
    StripTrailingSlashes(Base(envBase)) + "/" + StripLeadingSlashes(path)
  }

  /**
   * The URL is the base without all of its trailing slashes, exactly one
   * slash, and the path without all of its leading slashes.
   */
  lemma PublicUrlShape(envBase: Option<string>, path: string)
    ensures var base := Base(envBase);
      exists n, m :: (0 <= n <= |base| && 0 <= m <= |path|
        && PublicUrl(envBase, path) == base[..n] + "/" + path[m..]
        && (n == 0 || base[n - 1] != '/') && (forall i :: n <= i < |base| ==> base[i] == '/')
        && (m == |path| || path[m] != '/') && (forall i :: 0 <= i < m ==> path[i] == '/'))
  {
    var base := Base(envBase);
    var a := StripTrailingSlashes(base);
    var b := StripLeadingSlashes(path);
    var n, m := |a|, |path| - |b|;
    assert a == base[..n];
    assert b == path[m..];
  }

  /** Slashes at the end of the base or the start of the path do not matter. */
  lemma PublicUrlIgnoresSlashes(base: string, path: string)
    requires base != ""
    ensures PublicUrl(Some(base + "/"), path) == PublicUrl(Some(base), path)
    ensures PublicUrl(Some(base), "/" + path) == PublicUrl(Some(base), path)
  {
    assert (base + "/")[..|base + "/"| - 1] == base;
    assert ("/" + path)[1..] == path;
  }

  /** Without a base, a relative path is served from the site root. */
  lemma PublicUrlDefault(path: string)
    requires path == [] || path[0] != '/'
    ensures PublicUrl(None, path) == "/" + path
  {
    assert "/"[..0] == "";
  }

  // ---------------------------------------------------------------------
  // Loading the activities (dataLoader.ts:25-39)
  // ---------------------------------------------------------------------

  /** What fetching and parsing one URL gave. */
  datatype Fetched = Failed(err: string) | JsonNull | Doc(activities: seq<Activity>)

  /** The result of `loadActivities`: the index, or the error it throws. */
  datatype LoadResult = Loaded(index: map<string, Activity>) | Thrown(message: string)

  const Paths: seq<string> := ["data/activities/activities.json", "data/activities.json"]

  const NotFound: string := "activities.json not found"

  function ActId(a: Activity): string
  {
    a.id
  }

  /**
   * The document the loop ends with: the first result that is not a
   * failure stops it; `lastErr` is the error of the latest failure. `None`
   * means no document (all failed, or the first success was `null`).
   */
  function Outcome(rs: seq<Fetched>, lastErr: Option<string>): (o: Result)
    decreases |rs|
  {
    if rs == [] then NoDoc(lastErr)
    else match rs[0]
      case Failed(e) => Outcome(rs[1..], Some(e))
      case JsonNull => NoDoc(lastErr)
      case Doc(acts) => Got(acts)
  }

  datatype Result = Got(acts: seq<Activity>) | NoDoc(lastErr: Option<string>)

  /** The results of trying the paths in order. */
  function Tries(envBase: Option<string>, fetch: string -> Fetched): seq<Fetched>
  {
    [fetch(PublicUrl(envBase, Paths[0])), fetch(PublicUrl(envBase, Paths[1]))]
  }

  /** dataLoader.ts:36-37: `idx[a.id] = a` for each activity in order. */
  method IndexActivities(acts: seq<Activity>) returns (idx: map<string, Activity>)
    ensures idx == IndexBy(acts, ActId)
  {
    idx := map[];
    for i := 0 to |acts|
      invariant idx == IndexBy(acts[..i], ActId)
    {
      assert acts[..i + 1][..i] == acts[..i];
      idx := idx[acts[i].id := acts[i]];
    }
    assert acts[..|acts|] == acts;
  }

  /**
   * dataLoader.ts:25-39: the paths are tried in order until one does not
   * fail; a document is indexed by id, otherwise the latest error is thrown,
   * or "activities.json not found" when there was none.
   */
  method LoadActivities(envBase: Option<string>, fetch: string -> Fetched) returns (r: LoadResult)
    ensures Outcome(Tries(envBase, fetch), None).Got? ==> r == Loaded(IndexBy(Outcome(Tries(envBase, fetch), None).acts, ActId))
    ensures Outcome(Tries(envBase, fetch), None).NoDoc? ==> r == Thrown(GetOr(Outcome(Tries(envBase, fetch), None).lastErr, NotFound))
  {
    ghost var rs := Tries(envBase, fetch);
    var data: Option<seq<Activity>> := None;
    var lastErr: Option<string> := None;
    var k := 0;
    while k < |Paths|
      invariant 0 <= k <= |Paths|
      invariant data.None? ==> Outcome(rs, None) == Outcome(rs[k..], lastErr)
      invariant data.Some? ==> Outcome(rs, None) == Got(data.value)
      decreases |Paths| - k, if data.None? then 1 else 0
    {
      var got := fetch(PublicUrl(envBase, Paths[k]));
      assert got == rs[k];
      match got {
        case Failed(e) =>
          lastErr := Some(e);
          k := k + 1;
        case JsonNull =>
          break;
        case Doc(acts) =>
          data := Some(acts);
          break;
      }
    }
    if data.None? {
      return Thrown(GetOr(lastErr, NotFound));
    }
    var idx := IndexActivities(data.value);
    r := Loaded(idx);
  }

  // ---------------------------------------------------------------------
  // Properties of the fallback
  // ---------------------------------------------------------------------

  /** A loaded document is the first result that is not a failure; every earlier try failed. */
  lemma {:induction false} GotIsFirstSuccess(rs: seq<Fetched>, lastErr: Option<string>)
    requires Outcome(rs, lastErr).Got?
    ensures exists i :: (0 <= i < |rs| && rs[i] == Doc(Outcome(rs, lastErr).acts)
                         && forall j :: 0 <= j < i ==> rs[j].Failed?)
    decreases |rs|
  {
    if rs[0].Failed? {
      GotIsFirstSuccess(rs[1..], Some(rs[0].err));
      var i :| 0 <= i < |rs[1..]| && rs[1..][i] == Doc(Outcome(rs[1..], Some(rs[0].err)).acts)
        && forall j :: 0 <= j < i ==> rs[1..][j].Failed?;
      assert rs[i + 1] == rs[1..][i];
      assert forall j :: 1 <= j < i + 1 ==> rs[j] == rs[1..][j - 1];
    }
  }

  /** When every try fails, the error of the last one is thrown. */
  lemma {:induction false} AllFailedThrowsLast(rs: seq<Fetched>, lastErr: Option<string>)
    requires |rs| > 0 && forall i :: 0 <= i < |rs| ==> rs[i].Failed?
    ensures Outcome(rs, lastErr) == NoDoc(Some(rs[|rs| - 1].err))
    decreases |rs|
  {
    if |rs| > 1 {
      assert forall i :: 0 <= i < |rs[1..]| ==> rs[1..][i] == rs[i + 1];
      AllFailedThrowsLast(rs[1..], Some(rs[0].err));
      assert rs[1..][|rs[1..]| - 1] == rs[|rs| - 1];
    } else {
      assert rs[1..] == [];
    }
  }

  /** The first path wins when it loads; the second is used only when the first fails. */
  lemma FallbackOrder(r0: Fetched, r1: Fetched)
    ensures r0.Doc? ==> Outcome([r0, r1], None) == Got(r0.activities)
    ensures r0.JsonNull? ==> Outcome([r0, r1], None) == NoDoc(None)
    ensures r0.Failed? && r1.Doc? ==> Outcome([r0, r1], None) == Got(r1.activities)
    ensures r0.Failed? && r1.JsonNull? ==> Outcome([r0, r1], None) == NoDoc(Some(r0.err))
    ensures r0.Failed? && r1.Failed? ==> Outcome([r0, r1], None) == NoDoc(Some(r1.err))
  {
    var rs := [r0, r1];
    assert rs[1..] == [r1];
    assert [r1][1..] == [];
    if r0.Failed? && r1.Failed? {
      AllFailedThrowsLast(rs, None);
    }
  }
}
