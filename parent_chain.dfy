/**
 * Walking up parent pointers. Both the planner's index (`parent`) and the
 * baseline modal's parent map store, per node id, a parent id or `null`;
 * the walks follow `parent[cur] || null`, so a missing entry, a `null` and
 * an empty id all end the chain.
 */
module ParentChain {
  import opened Common

  /** The next id up from `cur` (`parent[cur] || null`). */
  function Next(parent: map<string, Option<string>>, cur: string): (r: Option<string>)
    ensures r.Some? ==> r.value != "" && cur in parent && parent[cur] == r
    ensures r.None? ==> cur !in parent || parent[cur].None? || parent[cur].value == ""
  {
    if cur in parent && parent[cur].Some? && parent[cur].value != "" then parent[cur] else None
  }

  /** The id reached from `a` after `n` steps up, if the chain is that long. */
  function Up(parent: map<string, Option<string>>, a: string, n: nat): Option<string>
  {
    if n == 0 then Some(a)
    else match Up(parent, a, n - 1)
      case None => None
      case Some(x) => Next(parent, x)
  }

  /** Every id some entry points to. */
  function Targets(parent: map<string, Option<string>>): set<string>
  {
    set k | k in parent && parent[k].Some? :: parent[k].value
  }

  function Elems(s: seq<string>): set<string>
  {
    set x | x in s
  }

  /** Distinct ids drawn from a set are no more than the set has. */
  lemma {:induction false} DistinctBound(s: seq<string>, u: set<string>)
    requires NoDups(s) && forall k :: 0 <= k < |s| ==> s[k] in u
    ensures |s| <= |u|
    decreases |s|
  {
    if s != [] {
      var x := s[|s| - 1];
      var s' := s[..|s| - 1];
      forall k | 0 <= k < |s'| ensures s'[k] in u - {x} {
        assert s'[k] == s[k];
      }
      DistinctBound(s', u - {x});
    }
  }

  /** A list that contains the parent of each of its ids. */
  ghost predicate ParentClosed(parent: map<string, Option<string>>, s: seq<string>)
  {
    forall x :: x in s && Next(parent, x).Some? ==> Next(parent, x).value in s
  }

  /** The state of the walk from `id` after `n` steps, appending to `out0`. */
  ghost predicate WalkInv(parent: map<string, Option<string>>, out0: seq<string>, id: string,
                          out: seq<string>, cur: Option<string>, n: nat)
  {
    && |out| == |out0| + n && out[..|out0|] == out0 && NoDups(out)
    && (forall k :: |out0| <= k < |out| ==> Up(parent, id, k - |out0|) == Some(out[k]))
    && cur == (if id == "" then None else Up(parent, id, n))
    && (id == "" || id in out0 ==> n == 0)
    && (cur.Some? ==> cur.value in Targets(parent) + {id} && cur.value != "")
  }

  lemma WalkStep(parent: map<string, Option<string>>, out0: seq<string>, id: string,
                 out: seq<string>, cur: Option<string>, n: nat)
    requires WalkInv(parent, out0, id, out, cur, n)
    requires cur.Some? && cur.value !in out
    ensures WalkInv(parent, out0, id, out + [cur.value], Next(parent, cur.value), n + 1)
    ensures n + 1 <= |Targets(parent) + {id}|
  {
    var c, u := cur.value, Targets(parent) + {id};
    var out' := out + [c];
    assert out'[..|out0|] == out0 by { assert out'[..|out|] == out; }
    forall k | |out0| <= k < |out'| ensures Up(parent, id, k - |out0|) == Some(out'[k]) {
      if k < |out| { assert out'[k] == out[k]; }
    }
    var nx := Next(parent, c);
    if nx.Some? {
      assert nx.value == parent[c].value;
      assert nx.value in Targets(parent);
    }
    var seg := out'[|out0|..];
    forall k | 0 <= k < |seg| ensures seg[k] in u {
      assert seg[k] == out'[|out0| + k];
      if k > 0 {
        assert Up(parent, id, k - 1) == Some(out'[|out0| + k - 1]);
        assert Next(parent, out'[|out0| + k - 1]) == Some(out'[|out0| + k]);
      }
    }
    assert NoDups(seg);
    DistinctBound(seg, u);
  }

  /**
   * The walk from `id` up its parents, appending each id not yet in `out0`
   * and stopping at a missing parent or at an id already listed. An empty
   * `id` adds nothing.
   */
  method WalkUp(parent: map<string, Option<string>>, out0: seq<string>, id: string) returns (out: seq<string>)
    requires NoDups(out0)
    ensures |out| >= |out0| && out[..|out0|] == out0 && NoDups(out)
    ensures forall k :: |out0| <= k < |out| ==> Up(parent, id, k - |out0|) == Some(out[k])
    ensures id == "" || id in out0 ==> out == out0
    ensures id != "" && id !in out0 ==> |out| > |out0|
    ensures |out| > |out0| ==> Next(parent, out[|out| - 1]).None? || Next(parent, out[|out| - 1]).value in out
    ensures ParentClosed(parent, out0) ==> ParentClosed(parent, out)
  {
    out := out0;
    var cur: Option<string> := if id != "" then Some(id) else None;
    ghost var n: nat := 0;
    assert out[..|out0|] == out0;
    while cur.Some?
      invariant WalkInv(parent, out0, id, out, cur, n)
      invariant n <= |Targets(parent) + {id}|
      decreases |Targets(parent) + {id}| - n
    {
      if cur.value in out {
        break;
      }
      WalkStep(parent, out0, id, out, cur, n);
      out := out + [cur.value];
      cur := Next(parent, cur.value);
      n := n + 1;
    }
    WalkClosed(parent, out0, id, out, cur, n);
  }

  lemma WalkClosed(parent: map<string, Option<string>>, out0: seq<string>, id: string,
                   out: seq<string>, cur: Option<string>, n: nat)
    requires WalkInv(parent, out0, id, out, cur, n)
    requires cur.None? || cur.value in out
    ensures |out| >= |out0| && out[..|out0|] == out0 && NoDups(out)
    ensures forall k :: |out0| <= k < |out| ==> Up(parent, id, k - |out0|) == Some(out[k])
    ensures id == "" || id in out0 ==> out == out0
    ensures id != "" && id !in out0 ==> |out| > |out0|
    ensures |out| > |out0| ==> Next(parent, out[|out| - 1]).None? || Next(parent, out[|out| - 1]).value in out
    ensures ParentClosed(parent, out0) ==> ParentClosed(parent, out)
  {
    if |out| > |out0| {
      assert cur == Next(parent, out[|out| - 1]) by {
        assert Up(parent, id, n - 1) == Some(out[|out| - 1]);
      }
    }
    if ParentClosed(parent, out0) {
      forall x | x in out && Next(parent, x).Some? ensures Next(parent, x).value in out {
        var k :| 0 <= k < |out| && out[k] == x;
        if k < |out0| {
          assert x in out0 by { assert out0[k] == x; }
          var p := Next(parent, x).value;
          assert p in out0;
          var m :| 0 <= m < |out0| && out0[m] == p;
          assert out[m] == p;
        } else if k < |out| - 1 {
          assert Up(parent, id, k + 1 - |out0|) == Some(out[k + 1]);
        }
      }
    }
  }

  /** The parent of an id is a target of the map. */
  lemma NextInTargets(parent: map<string, Option<string>>, x: string)
    requires Next(parent, x).Some?
    ensures Next(parent, x).value in Targets(parent)
  {
    assert parent[x].Some?;
  }

  /**
   * The walk as a value: the ids from `id` up its parents, stopping at a
   * missing parent or at an id already listed; nothing for an empty `id`.
   */
  function Chain(parent: map<string, Option<string>>, id: string): (r: seq<string>)
    ensures id == "" <==> r == []
    ensures NoDups(r)
    ensures forall k :: 0 <= k < |r| ==> Up(parent, id, k) == Some(r[k])
    ensures |r| > 0 ==> Next(parent, r[|r| - 1]).None? || Next(parent, r[|r| - 1]).value in r
  {
    if id == "" then [] else ChainFrom(parent, id, [id])
  }

  /** The walk ends at a root, or where the next step would revisit an id. */
  predicate Stopped(parent: map<string, Option<string>>, r: seq<string>)
  {
    |r| > 0 && (Next(parent, r[|r| - 1]).None? || Next(parent, r[|r| - 1]).value in r)
  }

  function ChainFrom(parent: map<string, Option<string>>, id: string, out: seq<string>): (r: seq<string>)
    requires id != "" && |out| > 0 && NoDups(out)
    requires forall k {:trigger Up(parent, id, k)} :: 0 <= k < |out| ==> Up(parent, id, k) == Some(out[k])
    ensures |r| >= |out| && r[..|out|] == out && NoDups(r)
    ensures forall k {:trigger Up(parent, id, k)} :: 0 <= k < |r| ==> Up(parent, id, k) == Some(r[k])
    ensures Stopped(parent, r)
    decreases |Targets(parent) + {id}| - |out|
  {
    var nx := Next(parent, out[|out| - 1]);
    if nx.None? || nx.value in out then out
    else
      var out' := out + [nx.value];
      Extend(parent, id, out, nx.value);
      ChainBound(parent, id, out');
      var r := ChainFrom(parent, id, out');
      assert r[..|out|] == out by { assert r[..|out'|][..|out|] == out; }
      r
  }

  lemma Extend(parent: map<string, Option<string>>, id: string, out: seq<string>, x: string)
    requires |out| > 0 && NoDups(out) && x !in out && Next(parent, out[|out| - 1]) == Some(x)
    requires forall k :: 0 <= k < |out| ==> Up(parent, id, k) == Some(out[k])
    ensures NoDups(out + [x])
    ensures forall k :: 0 <= k < |out| + 1 ==> Up(parent, id, k) == Some((out + [x])[k])
  {
    assert Up(parent, id, |out| - 1) == Some(out[|out| - 1]);
  }

  /** A duplicate-free walk from `id` is no longer than the ids it can meet. */
  lemma ChainBound(parent: map<string, Option<string>>, id: string, out: seq<string>)
    requires NoDups(out)
    requires forall k :: 0 <= k < |out| ==> Up(parent, id, k) == Some(out[k])
    ensures |out| <= |Targets(parent) + {id}|
  {
    var u := Targets(parent) + {id};
    forall k | 0 <= k < |out| ensures out[k] in u {
      if k > 0 {
        assert Up(parent, id, k - 1) == Some(out[k - 1]);
        assert Up(parent, id, k) == Some(out[k]);
        NextInTargets(parent, out[k - 1]);
      }
    }
    DistinctBound(out, u);
  }

  /** The walk's contract determines its result: it is `Chain`. */
  lemma WalkIsChain(parent: map<string, Option<string>>, id: string, out: seq<string>)
    requires NoDups(out)
    requires forall k :: 0 <= k < |out| ==> Up(parent, id, k) == Some(out[k])
    requires id == "" <==> out == []
    requires |out| > 0 ==> Next(parent, out[|out| - 1]).None? || Next(parent, out[|out| - 1]).value in out
    ensures out == Chain(parent, id)
  {
    var c := Chain(parent, id);
    if |out| > 0 {
      StoppedEarly(parent, id, out, c);
      StoppedEarly(parent, id, c, out);
    }
    assert |out| == |c|;
    forall k | 0 <= k < |out| ensures out[k] == c[k] {
      assert Up(parent, id, k) == Some(out[k]);
    }
  }

  /** A root's chain is itself alone. */
  lemma ChainOfRoot(parent: map<string, Option<string>>, id: string)
    requires id != "" && Next(parent, id).None?
    ensures Chain(parent, id) == [id]
  {
    var r := Chain(parent, id);
    StoppedEarly(parent, id, [id], r);
    assert Up(parent, id, 0) == Some(r[0]);
  }

  /** The chain of a root's child is the child, then the root. */
  lemma ChainOfRootChild(parent: map<string, Option<string>>, id: string, p: string)
    requires id != "" && Next(parent, id) == Some(p) && p != id && Next(parent, p).None?
    ensures Chain(parent, id) == [id, p]
  {
    var r := Chain(parent, id);
    assert Up(parent, id, 1) == Some(p);
    StoppedEarly(parent, id, [id, p], r);
    StoppedEarly(parent, id, r, [id, p]);
    assert Up(parent, id, 0) == Some(r[0]);
    assert Up(parent, id, 1) == Some(r[1]);
  }

  lemma StoppedEarly(parent: map<string, Option<string>>, id: string, a: seq<string>, b: seq<string>)
    requires 0 < |a| && NoDups(b)
    requires forall k :: 0 <= k < |a| ==> Up(parent, id, k) == Some(a[k])
    requires forall k :: 0 <= k < |b| ==> Up(parent, id, k) == Some(b[k])
    requires Next(parent, a[|a| - 1]).None? || Next(parent, a[|a| - 1]).value in a
    ensures |b| <= |a|
  {
    if |a| < |b| {
      RepeatAt(parent, id, a, b);
      assert false;
    }
  }

  /** A walk that ran past where `a` stopped revisits one of `a`'s ids. */
  lemma RepeatAt(parent: map<string, Option<string>>, id: string, a: seq<string>, b: seq<string>)
    requires 0 < |a| < |b|
    requires forall k :: 0 <= k < |a| ==> Up(parent, id, k) == Some(a[k])
    requires forall k :: 0 <= k < |b| ==> Up(parent, id, k) == Some(b[k])
    requires Next(parent, a[|a| - 1]).None? || Next(parent, a[|a| - 1]).value in a
    ensures exists j :: 0 <= j < |a| && b[j] == b[|a|]
  {
    var n := |a|;
    assert Up(parent, id, n - 1) == Some(a[n - 1]);
    assert Up(parent, id, n) == Some(b[n]);
    assert Next(parent, a[n - 1]) == Some(b[n]);
    var j :| 0 <= j < n && a[j] == b[n];
    assert Up(parent, id, j) == Some(a[j]);
    assert b[j] == a[j];
  }

  /** An id is on the chain iff it is `id` or one of its ancestors. */
  lemma ChainMembers(parent: map<string, Option<string>>, id: string, x: string)
    ensures x in Chain(parent, id) <==> id != "" && exists k: nat :: Up(parent, id, k) == Some(x)
  {
    var c := Chain(parent, id);
    if x in c {
      var k :| 0 <= k < |c| && c[k] == x;
      assert Up(parent, id, k) == Some(x);
    }
    if id != "" && exists k: nat :: Up(parent, id, k) == Some(x) {
      var k: nat :| Up(parent, id, k) == Some(x);
      UpOnChain(parent, id, k);
    }
  }

  lemma {:induction false} UpOnChain(parent: map<string, Option<string>>, id: string, k: nat)
    requires id != "" && Up(parent, id, k).Some?
    ensures Up(parent, id, k).value in Chain(parent, id)
  {
    var c := Chain(parent, id);
    if k == 0 {
      assert c[0] == id;
    } else {
      UpOnChain(parent, id, k - 1);
      var y := Up(parent, id, k - 1).value;
      var j :| 0 <= j < |c| && c[j] == y;
      assert Up(parent, id, j) == Some(y);
      if j + 1 < |c| {
        assert Up(parent, id, j + 1) == Next(parent, y);
      }
    }
  }
}
