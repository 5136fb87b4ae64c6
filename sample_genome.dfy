/**
 * The built-in sample skill forest (`src/sampleGenome.ts`): seven ladders
 * of one to six nodes, and the initial progress of a child over a genome.
 *
 * Only the fields the properties below are about are written out: ids,
 * ladder ids, parents and age bands; every name is left empty. The
 * sample's gates use a different
 * shape (`requiresAll` with a minimum level) from the expression gates of
 * `Types.Gate` and are not part of this model.
 */
module SampleGenome {
  import opened Common
  import opened Types
  import App

  // ---------------------------------------------------------------------
  // initialChildState (sampleGenome.ts:44-50)
  // ---------------------------------------------------------------------

  /** `n.parentId ? ... : ...` treats a missing or empty parent as a root. */
  predicate IsRoot(n: Node)
  {
    n.parentId.None? || n.parentId.value == ""
  }

  /** The starting progress of one node: roots are taken as begun. */
  function Initial(n: Node): NodeState
  {
    if IsRoot(n) then NodeState(1.0, 0.7, 0) else NodeState(0.0, 0.4, 0)
  }

  function NodeId(n: Node): string
  {
    n.id
  }

  /**
   * sampleGenome.ts:44-50: every node id gets an entry and nothing else
   * does; the entry is the one for the LAST node with that id; roots start
   * at level 1 with confidence 0.7, other nodes at level 0 with confidence
   * 0.4; evidence is 0 everywhere.
   */
  method InitialChildState(g: Genome) returns (st: App.ChildState)
    ensures st.Keys == NodeIds(g.nodes)
    ensures forall k :: k in st ==> st[k] == Initial(IndexBy(g.nodes, NodeId)[k])
    ensures forall k :: k in st ==>
      (st[k].evidence == 0
       && (st[k].level == 1.0 <==> IsRoot(IndexBy(g.nodes, NodeId)[k]))
       && (st[k].confidence == if st[k].level == 1.0 then 0.7 else 0.4))
  {
    st := map[];
    for i := 0 to |g.nodes|
      invariant st.Keys == NodeIds(g.nodes[..i])
      invariant forall k :: k in st ==> k in IndexBy(g.nodes[..i], NodeId) && st[k] == Initial(IndexBy(g.nodes[..i], NodeId)[k])
    {
      var n := g.nodes[i];
      assert g.nodes[..i + 1] == g.nodes[..i] + [n];
      assert g.nodes[..i + 1][..i] == g.nodes[..i];
      st := st[n.id := if n.parentId.Some? && n.parentId.value != "" then NodeState(0.0, 0.4, 0) else NodeState(1.0, 0.7, 0)];
    }
    assert g.nodes[..|g.nodes|] == g.nodes;
  }

  // ---------------------------------------------------------------------
  // The sample genome (sampleGenome.ts:2-42)
  // ---------------------------------------------------------------------

  function N(id: string, ladderId: string, parentId: Option<string>, name: string, start: int, end: int): Node
  {
    Node(id, ladderId, parentId, name, Some(AgeBand(Some(start), Some(end))), None, None)
  }

  const ExpressiveId: string := "communication.expressive"
  const ReceptiveId: string := "communication.receptive"

  const Ladders: seq<Ladder> := [
    Ladder("gross_motor.mobility", "Mobility", "GM-PROP-PRONE-01"),
    Ladder("fine_motor.grasp_release", "Grasp & Release", "FM-RAKE-01"),
    Ladder(ExpressiveId, "Babble -> Words", "EX-BABBLE-CANON-01"),
    Ladder(ReceptiveId, "Attend & Follow", "RC-NAME-ORIENT-01"),
    Ladder("social.joint_attention", "Joint Attention", "SE-GAZE-SHIFT-01"),
    Ladder("cognition.object_permanence", "Object Permanence", "CO-SEARCH-COVER-01"),
    Ladder("self_help.feeding", "Feeding", "SH-FINGER-FEED-01")
  ]

  // Each ladder's nodes, root first; every further node is the child of the one before it.

  function GrossMotor(): seq<Node>
  {
    [
      N("GM-PROP-PRONE-01", "gross_motor.mobility", None, "", 8, 11),
      N("GM-CRAWL-01", "gross_motor.mobility", Some("GM-PROP-PRONE-01"), "", 9, 12),
      N("GM-PULL-TO-STAND-01", "gross_motor.mobility", Some("GM-CRAWL-01"), "", 9, 12),
      N("GM-CRUISE-01", "gross_motor.mobility", Some("GM-PULL-TO-STAND-01"), "", 10, 13),
      N("GM-STAND-ALONE-01", "gross_motor.mobility", Some("GM-CRUISE-01"), "", 11, 14),
      N("GM-FIRST-STEPS-01", "gross_motor.mobility", Some("GM-STAND-ALONE-01"), "", 11, 15)
    ]
  }

  function FineMotor(): seq<Node>
  {
    [
      N("FM-RAKE-01", "fine_motor.grasp_release", None, "", 7, 9),
      N("FM-INFERIOR-PINCER-01", "fine_motor.grasp_release", Some("FM-RAKE-01"), "", 9, 11),
      N("FM-FINE-PINCER-01", "fine_motor.grasp_release", Some("FM-INFERIOR-PINCER-01"), "", 10, 12),
      N("FM-RELEASE-CONTAINER-01", "fine_motor.grasp_release", Some("FM-FINE-PINCER-01"), "", 11, 14)
    ]
  }

  /** `ex` is the ladder id written on the two non-root nodes. */
  function Expressive(ex: string): seq<Node>
  {
    [
      N("EX-BABBLE-CANON-01", ExpressiveId, None, "", 6, 10),
      N("EX-VARIEGATED-01", ex, Some("EX-BABBLE-CANON-01"), "", 9, 12),
      N("EX-FIRST-WORDS-01", ex, Some("EX-VARIEGATED-01"), "", 11, 15)
    ]
  }

  /** `rc` is the ladder id written on all three nodes. */
  function Receptive(rc: string): seq<Node>
  {
    [
      N("RC-NAME-ORIENT-01", rc, None, "", 7, 10),
      N("RC-NO-UNDERSTAND-01", rc, Some("RC-NAME-ORIENT-01"), "", 9, 12),
      N("RC-JOINT-ATTEND-01", rc, Some("RC-NO-UNDERSTAND-01"), "", 10, 13)
    ]
  }

  function Social(): seq<Node>
  {
    [
      N("SE-GAZE-SHIFT-01", "social.joint_attention", None, "", 9, 12),
      N("SE-PROTO-IMPER-01", "social.joint_attention", Some("SE-GAZE-SHIFT-01"), "", 11, 14)
    ]
  }

  function Cognition(): seq<Node>
  {
    [
      N("CO-SEARCH-COVER-01", "cognition.object_permanence", None, "", 8, 10),
      N("CO-A-NOT-B-RESOLVE-01", "cognition.object_permanence", Some("CO-SEARCH-COVER-01"), "", 10, 13)
    ]
  }

  function SelfHelp(): seq<Node>
  {
    [
      N("SH-FINGER-FEED-01", "self_help.feeding", None, "", 9, 12),
      N("SH-CUP-ASSIST-01", "self_help.feeding", Some("SH-FINGER-FEED-01"), "", 11, 14)
    ]
  }

  /** The nodes ladder by ladder, in the order of `Ladders`. */
  function Runs(ex: string, rc: string): seq<seq<Node>>
  {
    [GrossMotor(), FineMotor(), Expressive(ex), Receptive(rc), Social(), Cognition(), SelfHelp()]
  }

  /** sampleGenome.ts:2-42, as written. */
  function Sample(): Genome
  {
    Genome(Ladders, Flatten(Runs("communication_expressive", "communication_receptive")))
  }

  /** The sample with the ladder ids its ladders declare. */
  function CorrectedSample(): Genome
  {
    Genome(Ladders, Flatten(Runs(ExpressiveId, ReceptiveId)))
  }

  // ---------------------------------------------------------------------
  // Data invariants of a genome
  // ---------------------------------------------------------------------

  /** Every parent named in `g` is a node of `g`. */
  predicate ParentsKnown(g: Genome)
  {
    forall n :: n in g.nodes && n.parentId.Some? ==> exists m :: m in g.nodes && m.id == n.parentId.value
  }

  /** Every ladder's root is a node without a parent. */
  predicate LaddersRooted(g: Genome)
  {
    forall l :: 0 <= l < |g.ladders| ==> exists n :: n in g.nodes && n.id == g.ladders[l].rootNodeId && n.parentId.None?
  }

  predicate BandForward(n: Node)
  {
    n.ageBand.Some? && n.ageBand.value.typicalStart.Some? && n.ageBand.value.typicalEnd.Some?
    ==> n.ageBand.value.typicalStart.value <= n.ageBand.value.typicalEnd.value
  }

  /** Every age band runs forward. */
  predicate BandsOrdered(g: Genome)
  {
    forall n :: n in g.nodes ==> BandForward(n)
  }

  /** Every node lies on a declared ladder. */
  predicate LadderIdsDeclared(g: Genome)
  {
    forall n :: n in g.nodes ==> exists l :: 0 <= l < |g.ladders| && g.ladders[l].id == n.ladderId
  }

  // ---------------------------------------------------------------------
  // Properties of the sample
  // ---------------------------------------------------------------------

  /** A run: a parentless root, then each node the child of the one before; bands forward. */
  predicate IsRun(c: seq<Node>)
  {
    |c| > 0 && c[0].parentId.None?
    && (forall i :: 0 < i < |c| ==> c[i].parentId == Some(c[i - 1].id))
    && (forall i :: 0 <= i < |c| ==> BandForward(c[i]))
  }

  predicate OnLadder(c: seq<Node>, id: string)
  {
    forall i :: 0 <= i < |c| ==> c[i].ladderId == id
  }

  lemma GrossMotorIsRun() ensures IsRun(GrossMotor()) && OnLadder(GrossMotor(), Ladders[0].id) {}
  lemma FineMotorIsRun() ensures IsRun(FineMotor()) && OnLadder(FineMotor(), Ladders[1].id) {}
  lemma ExpressiveIsRun(ex: string) ensures IsRun(Expressive(ex)) && OnLadder(Expressive(ExpressiveId), Ladders[2].id) {}
  lemma ReceptiveIsRun(rc: string) ensures IsRun(Receptive(rc)) && OnLadder(Receptive(ReceptiveId), Ladders[3].id) {}
  lemma SocialIsRun() ensures IsRun(Social()) && OnLadder(Social(), Ladders[4].id) {}
  lemma CognitionIsRun() ensures IsRun(Cognition()) && OnLadder(Cognition(), Ladders[5].id) {}
  lemma SelfHelpIsRun() ensures IsRun(SelfHelp()) && OnLadder(SelfHelp(), Ladders[6].id) {}

  lemma RunsAreRuns(ex: string, rc: string)
    ensures forall k :: 0 <= k < |Runs(ex, rc)| ==> IsRun(Runs(ex, rc)[k])
  {
    GrossMotorIsRun();
    FineMotorIsRun();
    ExpressiveIsRun(ex);
    ReceptiveIsRun(rc);
    SocialIsRun();
    CognitionIsRun();
    SelfHelpIsRun();
  }

  /** Concatenated runs: parents are known and bands run forward. */
  lemma RunsWellFormed(ls: seq<Ladder>, cs: seq<seq<Node>>)
    requires forall k :: 0 <= k < |cs| ==> IsRun(cs[k])
    ensures ParentsKnown(Genome(ls, Flatten(cs)))
    ensures BandsOrdered(Genome(ls, Flatten(cs)))
  {
    var ns := Flatten(cs);
    forall n | n in ns
      ensures BandForward(n)
      ensures n.parentId.Some? ==> exists m :: m in ns && m.id == n.parentId.value
    {
      RunNode(cs, n);
    }
  }

  /** A node of concatenated runs runs forward, and its parent precedes it in the same run. */
  lemma RunNode(cs: seq<seq<Node>>, n: Node)
    requires forall k :: 0 <= k < |cs| ==> IsRun(cs[k])
    requires n in Flatten(cs)
    ensures BandForward(n)
    ensures n.parentId.Some? ==> exists m :: m in Flatten(cs) && m.id == n.parentId.value
  {
    FlattenMembers(cs, n);
    var k :| 0 <= k < |cs| && n in cs[k];
    var c := cs[k];
    var i :| 0 <= i < |c| && c[i] == n;
    RunMember(c, i);
    if n.parentId.Some? {
      var m := c[i - 1];
      assert m in cs[k];
      FlattenMembers(cs, m);
      assert m in Flatten(cs) && m.id == n.parentId.value;
    }
  }

  lemma RunMember(c: seq<Node>, i: nat)
    requires IsRun(c) && i < |c|
    ensures BandForward(c[i])
    ensures c[i].parentId.Some? ==> 0 < i && c[i].parentId.value == c[i - 1].id
  {
  }

  /** Runs headed by the ladders' roots make every ladder rooted at a parentless node. */
  lemma RunsRooted(ls: seq<Ladder>, cs: seq<seq<Node>>)
    requires |cs| == |ls|
    requires forall k :: 0 <= k < |cs| ==> IsRun(cs[k]) && ls[k].rootNodeId == cs[k][0].id
    ensures LaddersRooted(Genome(ls, Flatten(cs)))
  {
    forall l | 0 <= l < |ls|
      ensures exists n: Node :: n in Flatten(cs) && n.id == ls[l].rootNodeId && n.parentId.None?
    {
      FlattenMembers(cs, cs[l][0]);
    }
  }

  /** The ladders' roots are the heads of the runs, in order. */
  lemma RootsAreHeads(ex: string, rc: string)
    ensures |Runs(ex, rc)| == |Ladders|
    ensures forall l :: 0 <= l < |Ladders| ==> IsRun(Runs(ex, rc)[l]) && Ladders[l].rootNodeId == Runs(ex, rc)[l][0].id
  {
    RunsAreRuns(ex, rc);
  }

  /**
   * sampleGenome.ts:13-40: whatever ladder ids the nodes carry, every
   * parent named is a node of the sample.
   */
  lemma SampleParentsKnown(ex: string, rc: string)
    ensures ParentsKnown(Genome(Ladders, Flatten(Runs(ex, rc))))
  {
    RunsAreRuns(ex, rc);
    RunsWellFormed(Ladders, Runs(ex, rc));
  }

  /** sampleGenome.ts:13-40: every sample age band runs forward. */
  lemma SampleBandsOrdered(ex: string, rc: string)
    ensures BandsOrdered(Genome(Ladders, Flatten(Runs(ex, rc))))
  {
    RunsAreRuns(ex, rc);
    RunsWellFormed(Ladders, Runs(ex, rc));
  }

  /** sampleGenome.ts:4-10: every ladder's root is a parentless node of the sample. */
  lemma SampleLaddersRooted(ex: string, rc: string)
    ensures LaddersRooted(Genome(Ladders, Flatten(Runs(ex, rc))))
  {
    RootsAreHeads(ex, rc);
    RunsRooted(Ladders, Runs(ex, rc));
  }

  // ---------------------------------------------------------------------
  // The ladder ids of the sample (finding)
  // ---------------------------------------------------------------------

  /**
   * As written, "EX-VARIEGATED-01" and "EX-FIRST-WORDS-01" carry a ladder id
   * that no ladder declares, and so do the receptive nodes. The main screen
   * loads its genome from `data/genome.json` (App.tsx:39), not from this
   * sample; if this sample were given to it, the per-ladder node list
   * (`App.InLadder`, App.tsx:76) would leave both expressive nodes out of the
   * expressive ladder, and the receptive root "RC-NAME-ORIENT-01" would be on
   * no ladder's list at all.
   */
  lemma SampleLadderMismatch()
    ensures var n := Expressive("communication_expressive")[1];
      n in Sample().nodes && n.id == "EX-VARIEGATED-01"
      && (forall l :: 0 <= l < |Ladders| ==> Ladders[l].id != n.ladderId)
      && n !in Filter(Sample().nodes, App.InLadder(ExpressiveId))
    ensures var m := Expressive("communication_expressive")[2];
      m in Sample().nodes && m.id == "EX-FIRST-WORDS-01" && m.ladderId == "communication_expressive"
      && m !in Filter(Sample().nodes, App.InLadder(ExpressiveId))
    ensures var r := Receptive("communication_receptive")[0];
      r in Sample().nodes && r.id == "RC-NAME-ORIENT-01"
      && forall l :: 0 <= l < |Ladders| ==> r !in Filter(Sample().nodes, App.InLadder(Ladders[l].id))
    ensures !LadderIdsDeclared(Sample())
  {
    var n := Expressive("communication_expressive")[1];
    var m := Expressive("communication_expressive")[2];
    var r := Receptive("communication_receptive")[0];
    UndeclaredIds();
    SampleHolds(n, m, r);
    var ns := Sample().nodes;
    FilterMembers(ns, App.InLadder(ExpressiveId), n);
    FilterMembers(ns, App.InLadder(ExpressiveId), m);
    forall l | 0 <= l < |Ladders|
      ensures r !in Filter(ns, App.InLadder(Ladders[l].id))
    {
      FilterMembers(ns, App.InLadder(Ladders[l].id), r);
    }
  }

  /** The two misfiled nodes and their ladder ids. */
  lemma UndeclaredIds()
    ensures var n := Expressive("communication_expressive")[1];
      n.id == "EX-VARIEGATED-01" && forall l :: 0 <= l < |Ladders| ==> Ladders[l].id != n.ladderId
    ensures var r := Receptive("communication_receptive")[0];
      r.id == "RC-NAME-ORIENT-01" && forall l :: 0 <= l < |Ladders| ==> Ladders[l].id != r.ladderId
  {
  }

  lemma SampleHolds(n: Node, m: Node, r: Node)
    requires n == Expressive("communication_expressive")[1] && m == Expressive("communication_expressive")[2]
    requires r == Receptive("communication_receptive")[0]
    ensures n in Sample().nodes && m in Sample().nodes && r in Sample().nodes
  {
    var cs := Runs("communication_expressive", "communication_receptive");
    assert n == cs[2][1] && m == cs[2][2] && r == cs[3][0];
    assert n in cs[2] && m in cs[2] && r in cs[3];
    FlattenMembers(cs, n);
    FlattenMembers(cs, m);
    FlattenMembers(cs, r);
  }

  /** Runs each on its own ladder make every node's ladder declared and listed with its ladder. */
  lemma RunsOnLadders(ls: seq<Ladder>, cs: seq<seq<Node>>)
    requires |cs| == |ls|
    requires forall k :: 0 <= k < |cs| ==> OnLadder(cs[k], ls[k].id)
    ensures LadderIdsDeclared(Genome(ls, Flatten(cs)))
    ensures forall k, n :: 0 <= k < |cs| && n in cs[k] ==> n in Filter(Flatten(cs), App.InLadder(ls[k].id))
  {
    forall n | n in Flatten(cs)
      ensures exists l :: 0 <= l < |ls| && ls[l].id == n.ladderId
    {
      FlattenMembers(cs, n);
      var k :| 0 <= k < |cs| && n in cs[k];
      var i :| 0 <= i < |cs[k]| && cs[k][i] == n;
    }
    forall k, n | 0 <= k < |cs| && n in cs[k]
      ensures n in Filter(Flatten(cs), App.InLadder(ls[k].id))
    {
      FlattenMembers(cs, n);
      FilterMembers(Flatten(cs), App.InLadder(ls[k].id), n);
      var i :| 0 <= i < |cs[k]| && cs[k][i] == n;
    }
  }

  lemma CorrectedOnLadders()
    ensures forall k :: 0 <= k < |Runs(ExpressiveId, ReceptiveId)| ==> OnLadder(Runs(ExpressiveId, ReceptiveId)[k], Ladders[k].id)
    ensures |Runs(ExpressiveId, ReceptiveId)| == |Ladders|
  {
    GrossMotorIsRun();
    FineMotorIsRun();
    ExpressiveIsRun(ExpressiveId);
    ReceptiveIsRun(ReceptiveId);
    SocialIsRun();
    CognitionIsRun();
    SelfHelpIsRun();
  }

  /**
   * With the declared ladder ids, every node lies on a declared ladder and
   * every node of a ladder is on that ladder's node list.
   */
  lemma CorrectedSampleConsistent()
    ensures LadderIdsDeclared(CorrectedSample())
    ensures forall k, n :: 0 <= k < |Ladders| && n in Runs(ExpressiveId, ReceptiveId)[k] ==>
      n in Filter(CorrectedSample().nodes, App.InLadder(Ladders[k].id))
  {
    CorrectedOnLadders();
    RunsOnLadders(Ladders, Runs(ExpressiveId, ReceptiveId));
  }
}
