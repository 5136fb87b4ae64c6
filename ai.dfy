/**
 * The rule-based fallback of the planner's AI service
 * (`src/planner/services/ai.ts`): one readiness suggestion per child for an
 * activity, and the grouping of suggestions that share readiness and notes.
 * The LLM call it falls back from is not modelled.
 */
module Ai {
  import opened Common
  import opened GenomeEngine
  import SI = ServicesIndex

  datatype Readiness = Ready | Stretch | Scaffold

  datatype FocusTarget = FocusTarget(id: string, name: string)

  datatype ChildRef = ChildRef(childId: string, name: string)

  /** ai.ts:4-10 */
  datatype Suggestion = Suggestion(
    childId: string, childName: string, readiness: Readiness,
    focusTargets: seq<FocusTarget>, notes: seq<string>)

  /** ai.ts:12-18 */
  datatype Group = Group(
    readiness: Readiness, focusTargets: seq<FocusTarget>, notes: seq<string>,
    childIds: seq<string>, childNames: seq<string>)

  const NoteReady: string := "Minimal prompts; encourage independent attempt on frontier target(s)."
  const NoteStretch: string := "Add challenge: increase set size, vary materials, or add 2-step direction."
  const NoteScaffold: string := "Backchain prerequisite: model + hand-over-hand as needed; reduce visual field."
  /** The source file stores this note with its en dash mis-decoded as three characters. */
  const NoteNoIndex: string := "Model and wait; tailor language to 2\U{00E2}\U{20AC}\U{201C}3 words."

  // ---------------------------------------------------------------------
  // rulesBasedFallback (ai.ts:129-161)
  // ---------------------------------------------------------------------

  function LevelTargets(l: SI.Level): seq<string> { l.targets }

  /** ai.ts:131: the targets of all levels, without duplicates, in first-occurrence order. */
  function ActivityTargets(a: SI.Activity): seq<string>
  {
    Dedup(Flatten(MapSeq(a.levels, LevelTargets)))
  }

  /** `{ id, name: nodeById[id]?.name || id }` */
  function FocusOf(nodeById: map<string, Node>): string -> FocusTarget
  {
    id => FocusTarget(id, if id in nodeById && nodeById[id].name != "" then nodeById[id].name else id)
  }

  function InSet(s: set<string>): string -> bool
  {
    x => x in s
  }

  /** ai.ts:137-158, for one child whose derived state (when there is an index) is `d`. */
  function SuggestionFrom(c: ChildRef, targets: seq<string>, nodeById: map<string, Node>,
                          d: Option<DerivedState>): (s: Suggestion)
    ensures s.childId == c.childId && s.childName == c.name
  {
    var all := MapSeq(targets, FocusOf(nodeById));
    if d.None? then Suggestion(c.childId, c.name, Ready, all, [NoteNoIndex])
    else
      var readyHits := Filter(targets, InSet(set x | x in d.value.frontierAll));
      var achievedHits := Filter(targets, InSet(d.value.achievedSet));
      if |readyHits| > 0 then Suggestion(c.childId, c.name, Ready, MapSeq(readyHits, FocusOf(nodeById)), [NoteReady])
      else if |achievedHits| > 0 then Suggestion(c.childId, c.name, Stretch, MapSeq(achievedHits, FocusOf(nodeById)), [NoteStretch])
      else Suggestion(c.childId, c.name, Scaffold, all, [NoteScaffold])
  }

  /** ai.ts:133-159: the child's state is derived from `getChildAchievements(childId) || []`. */
  function SuggestionFor(idx: Option<GenomeIndex>, targets: seq<string>, nodeById: map<string, Node>,
                         achievementsOf: string -> seq<Achievement>, c: ChildRef): (s: Suggestion)
    ensures s.childId == c.childId && s.childName == c.name
  {
    SuggestionFrom(c, targets, nodeById, if idx.None? then None else Some(Derived(idx.value, achievementsOf(c.childId))))
  }

  function SuggestionMaker(idx: Option<GenomeIndex>, targets: seq<string>, nodeById: map<string, Node>,
                           achievementsOf: string -> seq<Achievement>): ChildRef -> Suggestion
  {
    c => SuggestionFor(idx, targets, nodeById, achievementsOf, c)
  }

  /** ai.ts:129-161 */
  function RulesBasedFallback(activity: SI.Activity, children: seq<ChildRef>, nodeById: map<string, Node>,
                              achievementsOf: string -> seq<Achievement>, idx: Option<GenomeIndex>): (r: seq<Suggestion>)
    ensures |r| == |children|
    ensures forall i :: 0 <= i < |r| ==> r[i].childId == children[i].childId && r[i].childName == children[i].name
  {
    MapSeq(children, SuggestionMaker(idx, ActivityTargets(activity), nodeById, achievementsOf))
  }

  function FocusId(f: FocusTarget): string { f.id }

  /** The targets are the union of the levels' targets, each once. */
  lemma TargetsAreUnion(a: SI.Activity, x: string)
    ensures NoDups(ActivityTargets(a))
    ensures x in ActivityTargets(a) <==> exists l :: 0 <= l < |a.levels| && x in a.levels[l].targets
  {
    var ts := MapSeq(a.levels, LevelTargets);
    DedupMembers(Flatten(ts), x);
    FlattenMembers(ts, x);
    if exists l :: 0 <= l < |a.levels| && x in a.levels[l].targets {
      var l :| 0 <= l < |a.levels| && x in a.levels[l].targets;
      assert ts[l] == a.levels[l].targets;
    }
    if exists l :: 0 <= l < |ts| && x in ts[l] {
      var l :| 0 <= l < |ts| && x in ts[l];
      assert ts[l] == a.levels[l].targets;
    }
  }

  lemma FocusIds(ts: seq<string>, nodeById: map<string, Node>)
    ensures MapSeq(MapSeq(ts, FocusOf(nodeById)), FocusId) == ts
  {
  }

  /**
   * ai.ts:137-158: with an index, a child is `ready` when some target is on
   * their frontier (focus: those targets), else `stretch` when some target
   * is achieved (focus: those), else `scaffold` (focus: every target);
   * without an index, `ready` with every target.
   */
  /** The readiness rule for one child, given the child's derived state. */
  lemma RuleFrom(c: ChildRef, ts: seq<string>, nodeById: map<string, Node>, d: Option<DerivedState>)
    ensures var s := SuggestionFrom(c, ts, nodeById, d);
      && (d.None? ==> s.readiness == Ready && MapSeq(s.focusTargets, FocusId) == ts && s.notes == [NoteNoIndex])
      && (d.Some? ==>
           var onFrontier := Filter(ts, InSet(set x | x in d.value.frontierAll));
           var achieved := Filter(ts, InSet(d.value.achievedSet));
           && (s.readiness == Ready <==> exists t :: t in ts && t in d.value.frontierAll)
           && (s.readiness == Stretch <==>
                (forall t :: t in ts ==> t !in d.value.frontierAll) && exists t :: t in ts && t in d.value.achievedSet)
           && (s.readiness == Ready ==> MapSeq(s.focusTargets, FocusId) == onFrontier && s.notes == [NoteReady])
           && (s.readiness == Stretch ==> MapSeq(s.focusTargets, FocusId) == achieved && s.notes == [NoteStretch])
           && (s.readiness == Scaffold ==> MapSeq(s.focusTargets, FocusId) == ts && s.notes == [NoteScaffold]))
  {
    FocusIds(ts, nodeById);
    if d.Some? {
      var fs := set x | x in d.value.frontierAll;
      FocusIds(Filter(ts, InSet(fs)), nodeById);
      FocusIds(Filter(ts, InSet(d.value.achievedSet)), nodeById);
      EmptyFilterIff(ts, InSet(fs));
      EmptyFilterIff(ts, InSet(d.value.achievedSet));
    }
  }

  /**
   * ai.ts:137-158: with an index, a child is `ready` when some target is on
   * their frontier (focus: those targets), else `stretch` when some target
   * is achieved (focus: those), else `scaffold` (focus: every target);
   * without an index, `ready` with every target.
   */
  lemma ReadinessRule(activity: SI.Activity, children: seq<ChildRef>, nodeById: map<string, Node>,
                      achievementsOf: string -> seq<Achievement>, idx: Option<GenomeIndex>, i: nat)
    requires i < |children|
    ensures var s := RulesBasedFallback(activity, children, nodeById, achievementsOf, idx)[i];
      var ts := ActivityTargets(activity);
      && (idx.None? ==> s.readiness == Ready && MapSeq(s.focusTargets, FocusId) == ts && s.notes == [NoteNoIndex])
      && (idx.Some? ==>
           var d := Derived(idx.value, achievementsOf(children[i].childId));
           var onFrontier := Filter(ts, InSet(set x | x in d.frontierAll));
           var achieved := Filter(ts, InSet(d.achievedSet));
           && (s.readiness == Ready <==> exists t :: t in ts && t in d.frontierAll)
           && (s.readiness == Stretch <==>
                (forall t :: t in ts ==> t !in d.frontierAll) && exists t :: t in ts && t in d.achievedSet)
           && (s.readiness == Ready ==> MapSeq(s.focusTargets, FocusId) == onFrontier && s.notes == [NoteReady])
           && (s.readiness == Stretch ==> MapSeq(s.focusTargets, FocusId) == achieved && s.notes == [NoteStretch])
           && (s.readiness == Scaffold ==> MapSeq(s.focusTargets, FocusId) == ts && s.notes == [NoteScaffold]))
  {
    var ts := ActivityTargets(activity);
    var c := children[i];
    var d := if idx.None? then None else Some(Derived(idx.value, achievementsOf(c.childId)));
    assert RulesBasedFallback(activity, children, nodeById, achievementsOf, idx)[i] == SuggestionFrom(c, ts, nodeById, d);
    RuleFrom(c, ts, nodeById, d);
  }

  lemma EmptyFilterIff(s: seq<string>, p: string -> bool)
    ensures |Filter(s, p)| > 0 <==> exists t :: t in s && p(t)
  {
    if exists t :: t in s && p(t) {
      var t :| t in s && p(t);
      var k :| 0 <= k < |s| && s[k] == t;
    }
  }

  // ---------------------------------------------------------------------
  // groupFromSuggestions (ai.ts:168-180)
  // ---------------------------------------------------------------------

  /** `JSON.stringify({ r: readiness, n: notes })`: one key per (readiness, notes) pair. */
  type GroupKey = (Readiness, seq<string>)

  function KeyOf(sg: Suggestion): GroupKey { (sg.readiness, sg.notes) }

  function HasKey(k: GroupKey): Suggestion -> bool
  {
    sg => KeyOf(sg) == k
  }

  function ChildIdOf(sg: Suggestion): string { sg.childId }

  function ChildNameOf(sg: Suggestion): string { sg.childName }

  function FocusIdSet(fs: seq<FocusTarget>): set<string>
  {
    set f | f in fs :: f.id
  }

  function IdNotIn(ids: set<string>): FocusTarget -> bool
  {
    (f: FocusTarget) => f.id !in ids
  }

  /** ai.ts:176-177: the ids are taken once, before the new targets are added. */
  function AppendNew(ft: seq<FocusTarget>, fs: seq<FocusTarget>): seq<FocusTarget>
  {
    ft + Filter(fs, IdNotIn(FocusIdSet(ft)))
  }

  /** The focus targets of a group whose members, in order, are `sgs`. */
  function MergedFocus(sgs: seq<Suggestion>): seq<FocusTarget>
  {
    if sgs == [] then []
    else if |sgs| == 1 then sgs[0].focusTargets
    else AppendNew(MergedFocus(sgs[..|sgs| - 1]), sgs[|sgs| - 1].focusTargets)
  }

  /** The group of key `k` after the suggestions `sugg`. */
  function GroupFor(sugg: seq<Suggestion>, k: GroupKey): Group
  {
    var members := Filter(sugg, HasKey(k));
    Group(k.0, MergedFocus(members), k.1, MapSeq(members, ChildIdOf), MapSeq(members, ChildNameOf))
  }

  function GroupMaker(sugg: seq<Suggestion>): GroupKey -> Group
  {
    k => GroupFor(sugg, k)
  }

  /** The keys of `sugg`, each once, in order of first occurrence. */
  function DistinctKeys(sugg: seq<Suggestion>): seq<GroupKey>
  {
    if sugg == [] then []
    else
      var p := DistinctKeys(sugg[..|sugg| - 1]);
      var k := KeyOf(sugg[|sugg| - 1]);
      if k in p then p else p + [k]
  }

  /** The keys in order of first occurrence, and the group of each. */
  function Grouped(sugg: seq<Suggestion>): seq<Group>
  {
    MapSeq(DistinctKeys(sugg), GroupMaker(sugg))
  }

  /** A group as first created for `sg` (ai.ts:172). */
  function Fresh(sg: Suggestion): Group
  {
    Group(sg.readiness, sg.focusTargets, sg.notes, [], [])
  }

  /** A group after `sg` joins it (ai.ts:173-178). */
  function Extend(g: Group, sg: Suggestion): Group
  {
    g.(childIds := g.childIds + [sg.childId], childNames := g.childNames + [sg.childName],
       focusTargets := AppendNew(g.focusTargets, sg.focusTargets))
  }

  /** `keys` and `groups` after the suggestions `done`. */
  ghost predicate GroupsInv(done: seq<Suggestion>, keys: seq<GroupKey>, groups: map<GroupKey, Group>)
  {
    && keys == DistinctKeys(done)
    && (forall k :: k in groups <==> k in keys)
    && (forall k {:trigger groups[k]} :: k in groups ==> groups[k] == GroupFor(done, k))
  }

  lemma FilterPush(s: seq<Suggestion>, x: Suggestion, k: GroupKey)
    ensures Filter(s + [x], HasKey(k)) == Filter(s, HasKey(k)) + (if KeyOf(x) == k then [x] else [])
  {
    assert (s + [x])[..|s|] == s;
  }

  lemma MapPush<T, U>(s: seq<T>, x: T, f: T -> U)
    ensures MapSeq(s + [x], f) == MapSeq(s, f) + [f(x)]
  {
    assert (s + [x])[..|s|] == s;
  }

  /** A suggestion's own targets add nothing to themselves. */
  lemma AppendOwn(fs: seq<FocusTarget>)
    ensures AppendNew(fs, fs) == fs
  {
    forall j | 0 <= j < |fs| ensures !IdNotIn(FocusIdSet(fs))(fs[j]) { }
    FilterNone(fs, IdNotIn(FocusIdSet(fs)));
  }

  lemma KeysStep(pre: seq<Suggestion>, sg: Suggestion)
    ensures var ks := DistinctKeys(pre);
      DistinctKeys(pre + [sg]) == if KeyOf(sg) in ks then ks else ks + [KeyOf(sg)]
  {
    assert (pre + [sg])[..|pre|] == pre;
  }

  /** A key is listed exactly when some suggestion has it. */
  lemma {:induction false} KeyMembers(pre: seq<Suggestion>, k: GroupKey)
    ensures k in DistinctKeys(pre) <==> Filter(pre, HasKey(k)) != []
    decreases |pre|
  {
    if pre != [] {
      KeyMembers(pre[..|pre| - 1], k);
    }
  }

  lemma {:induction false} KeyOccurs(sugg: seq<Suggestion>, k: GroupKey)
    ensures k in DistinctKeys(sugg) <==> exists i :: 0 <= i < |sugg| && KeyOf(sugg[i]) == k
    decreases |sugg|
  {
    if sugg != [] {
      var init := sugg[..|sugg| - 1];
      KeyOccurs(init, k);
      if exists i :: 0 <= i < |init| && KeyOf(init[i]) == k {
        var i :| 0 <= i < |init| && KeyOf(init[i]) == k;
        assert sugg[i] == init[i];
      }
      if exists i :: 0 <= i < |sugg| && KeyOf(sugg[i]) == k {
        var i :| 0 <= i < |sugg| && KeyOf(sugg[i]) == k;
        if i < |init| { assert init[i] == sugg[i]; }
      }
    }
  }

  lemma {:induction false} KeysDistinct(sugg: seq<Suggestion>)
    ensures NoDups(DistinctKeys(sugg))
    decreases |sugg|
  {
    if sugg != [] {
      KeysDistinct(sugg[..|sugg| - 1]);
    }
  }

  lemma GroupForStep(pre: seq<Suggestion>, sg: Suggestion, k: GroupKey)
    ensures KeyOf(sg) != k ==> GroupFor(pre + [sg], k) == GroupFor(pre, k)
    ensures KeyOf(sg) == k ==>
      GroupFor(pre + [sg], k) == Extend(if k !in DistinctKeys(pre) then Fresh(sg) else GroupFor(pre, k), sg)
  {
    FilterPush(pre, sg, k);
    var old_ := Filter(pre, HasKey(k));
    if KeyOf(sg) != k {
      assert Filter(pre + [sg], HasKey(k)) == old_ + [];
      assert old_ + [] == old_;
    } else {
      KeyMembers(pre, k);
      var members := old_ + [sg];
      MapPush(old_, sg, ChildIdOf);
      MapPush(old_, sg, ChildNameOf);
      assert members[..|members| - 1] == old_;
      if old_ == [] {
        AppendOwn(sg.focusTargets);
      }
    }
  }

  /** The key list after `sg`. */
  function NextKeys(keys: seq<GroupKey>, groups: map<GroupKey, Group>, sg: Suggestion): seq<GroupKey>
  {
    if KeyOf(sg) in groups then keys else keys + [KeyOf(sg)]
  }

  /** The group map after `sg`. */
  function NextGroups(groups: map<GroupKey, Group>, sg: Suggestion): map<GroupKey, Group>
  {
    var k := KeyOf(sg);
    groups[k := Extend(if k in groups then groups[k] else Fresh(sg), sg)]
  }

  lemma GroupsStepAtKey(pre: seq<Suggestion>, sg: Suggestion, keys: seq<GroupKey>, groups: map<GroupKey, Group>)
    requires GroupsInv(pre, keys, groups)
    ensures NextGroups(groups, sg)[KeyOf(sg)] == GroupFor(pre + [sg], KeyOf(sg))
  {
    GroupForStep(pre, sg, KeyOf(sg));
  }

  lemma GroupsStepOthers(pre: seq<Suggestion>, sg: Suggestion, keys: seq<GroupKey>, groups: map<GroupKey, Group>)
    requires GroupsInv(pre, keys, groups)
    ensures forall k2 {:trigger NextGroups(groups, sg)[k2]} :: k2 in NextGroups(groups, sg) && k2 != KeyOf(sg) ==>
      NextGroups(groups, sg)[k2] == GroupFor(pre + [sg], k2)
  {
    forall k2 | k2 in NextGroups(groups, sg) && k2 != KeyOf(sg)
      ensures NextGroups(groups, sg)[k2] == GroupFor(pre + [sg], k2)
    {
      GroupForStep(pre, sg, k2);
    }
  }

  lemma GroupsStep(pre: seq<Suggestion>, sg: Suggestion, keys: seq<GroupKey>, groups: map<GroupKey, Group>)
    requires GroupsInv(pre, keys, groups)
    ensures GroupsInv(pre + [sg], NextKeys(keys, groups, sg), NextGroups(groups, sg))
  {
    KeysStep(pre, sg);
    GroupsStepAtKey(pre, sg, keys, groups);
    GroupsStepOthers(pre, sg, keys, groups);
  }

  /** ai.ts:176-177: append the targets of `fs` whose ids `ft` lacks. */
  method MergeTargets(ft0: seq<FocusTarget>, fs: seq<FocusTarget>) returns (ft: seq<FocusTarget>)
    ensures ft == AppendNew(ft0, fs)
  {
    var ftIds := FocusIdSet(ft0);
    ft := ft0;
    for j := 0 to |fs|
      invariant ft == ft0 + Filter(fs[..j], IdNotIn(ftIds))
    {
      FilterSnoc(fs, j, IdNotIn(ftIds));
      if fs[j].id !in ftIds {
        ft := ft + [fs[j]];
      }
    }
    assert fs[..|fs|] == fs;
  }

  /** ai.ts:170-178: the loop body for one suggestion. */
  method AddSuggestion(keys: seq<GroupKey>, groups: map<GroupKey, Group>, sg: Suggestion)
    returns (keys': seq<GroupKey>, groups': map<GroupKey, Group>)
    ensures keys' == NextKeys(keys, groups, sg) && groups' == NextGroups(groups, sg)
  {
    var key := KeyOf(sg);
    keys', groups' := keys, groups;
    if key !in groups' {
      groups' := groups'[key := Group(sg.readiness, sg.focusTargets, sg.notes, [], [])];
      keys' := keys' + [key];
    }
    var g := groups'[key];
    g := g.(childIds := g.childIds + [sg.childId], childNames := g.childNames + [sg.childName]);
    var ft := MergeTargets(g.focusTargets, sg.focusTargets);
    groups' := groups'[key := g.(focusTargets := ft)];
  }

  /** `Object.values(groups)`: the groups in key insertion order. */
  method ValuesInOrder(keys: seq<GroupKey>, groups: map<GroupKey, Group>) returns (out: seq<Group>)
    requires forall k :: k in keys ==> k in groups
    ensures |out| == |keys| && forall j :: 0 <= j < |keys| ==> out[j] == groups[keys[j]]
  {
    out := [];
    for g := 0 to |keys|
      invariant |out| == g && forall j :: 0 <= j < g ==> out[j] == groups[keys[j]]
    {
      out := out + [groups[keys[g]]];
    }
  }

  lemma SliceStep<T>(s: seq<T>, i: nat)
    requires i < |s|
    ensures s[..i + 1] == s[..i] + [s[i]]
  {
  }

  /** Read back in key order, the groups of `GroupsInv` are `Grouped`. */
  lemma ValuesAreGrouped(sugg: seq<Suggestion>, keys: seq<GroupKey>, groups: map<GroupKey, Group>, out: seq<Group>)
    requires GroupsInv(sugg, keys, groups)
    requires |out| == |keys| && forall j :: 0 <= j < |keys| ==> out[j] == groups[keys[j]]
    ensures out == Grouped(sugg)
  {
    forall j | 0 <= j < |keys| ensures out[j] == Grouped(sugg)[j] {
      assert keys[j] in groups;
      assert out[j] == GroupFor(sugg, keys[j]);
    }
  }

  /**
   * ai.ts:168-180. The groups are kept in a map from key to group and the
   * key order in a list (the insertion order `Object.values` reads back).
   */
  method GroupFromSuggestions(sugg: seq<Suggestion>) returns (out: seq<Group>)
    ensures out == Grouped(sugg)
  {
    var groups: map<GroupKey, Group> := map[];
    var keys: seq<GroupKey> := [];
    for i := 0 to |sugg|
      invariant GroupsInv(sugg[..i], keys, groups)
    {
      GroupsStep(sugg[..i], sugg[i], keys, groups);
      SliceStep(sugg, i);
      keys, groups := AddSuggestion(keys, groups, sugg[i]);
    }
    assert sugg[..|sugg|] == sugg;
    out := ValuesInOrder(keys, groups);
    ValuesAreGrouped(sugg, keys, groups, out);
  }

  // ---------------------------------------------------------------------
  // Properties of the grouping
  // ---------------------------------------------------------------------

  /**
   * One group per distinct (readiness, notes) pair, in order of first
   * occurrence; each group's readiness and notes are its key.
   */
  lemma GroupKeys(sugg: seq<Suggestion>)
    ensures MapSeq(Grouped(sugg), GroupKeyOf) == DistinctKeys(sugg)
  {
    var ks := DistinctKeys(sugg);
    forall i | 0 <= i < |ks| ensures MapSeq(Grouped(sugg), GroupKeyOf)[i] == ks[i] {
      assert Grouped(sugg)[i] == GroupFor(sugg, ks[i]);
    }
  }

  lemma GroupsByKey(sugg: seq<Suggestion>)
    ensures var gs := Grouped(sugg);
      && NoDups(MapSeq(gs, GroupKeyOf))
      && (forall k :: k in MapSeq(gs, GroupKeyOf) <==> exists i :: 0 <= i < |sugg| && KeyOf(sugg[i]) == k)
  {
    GroupKeys(sugg);
    KeysDistinct(sugg);
    forall k ensures k in DistinctKeys(sugg) <==> exists i :: 0 <= i < |sugg| && KeyOf(sugg[i]) == k {
      KeyOccurs(sugg, k);
    }
  }

  function GroupKeyOf(g: Group): GroupKey { (g.readiness, g.notes) }

  /** Entry `j` of the group's children comes from a suggestion with the group's key. */
  ghost predicate FromMember(sugg: seq<Suggestion>, gr: Group, j: nat)
    requires j < |gr.childIds| && j < |gr.childNames|
  {
    exists m :: 0 <= m < |sugg| && gr.childIds[j] == sugg[m].childId && gr.childNames[j] == sugg[m].childName
      && KeyOf(sugg[m]) == GroupKeyOf(gr)
  }

  /** A group's ids and names are index-aligned and come from its members. */
  lemma GroupMembers(sugg: seq<Suggestion>, g: nat)
    requires g < |Grouped(sugg)|
    ensures var gr := Grouped(sugg)[g];
      && |gr.childIds| == |gr.childNames|
      && forall j :: 0 <= j < |gr.childIds| ==> FromMember(sugg, gr, j)
  {
    var gr := Grouped(sugg)[g];
    var k := DistinctKeys(sugg)[g];
    assert gr == GroupFor(sugg, k);
    var members := Filter(sugg, HasKey(k));
    forall j | 0 <= j < |gr.childIds| ensures FromMember(sugg, gr, j) {
      assert members[j] in sugg;
      var m :| 0 <= m < |sugg| && sugg[m] == members[j];
      assert gr.childIds[j] == members[j].childId && gr.childNames[j] == members[j].childName;
    }
  }

  /** A member's child id is among its group's ids. */
  lemma MemberListed(sugg: seq<Suggestion>, k: GroupKey, i: nat)
    requires i < |sugg| && KeyOf(sugg[i]) == k
    ensures sugg[i].childId in GroupFor(sugg, k).childIds
  {
    var members := Filter(sugg, HasKey(k));
    assert sugg[i] in members;
    var j :| 0 <= j < |members| && members[j] == sugg[i];
    assert MapSeq(members, ChildIdOf)[j] == sugg[i].childId;
  }

  /** Each child's suggestion is listed in exactly one group: the one of its key. */
  lemma ChildInOneGroup(sugg: seq<Suggestion>, i: nat)
    requires i < |sugg|
    ensures var gs := Grouped(sugg);
      && (exists g :: 0 <= g < |gs| && GroupKeyOf(gs[g]) == KeyOf(sugg[i]) && sugg[i].childId in gs[g].childIds)
      && (forall g1, g2 ::
            0 <= g1 < |gs| && 0 <= g2 < |gs| && GroupKeyOf(gs[g1]) == KeyOf(sugg[i]) && GroupKeyOf(gs[g2]) == KeyOf(sugg[i])
            ==> g1 == g2)
  {
    ChildListed(sugg, i);
    OneGroupPerKey(sugg, KeyOf(sugg[i]));
  }

  lemma ChildListed(sugg: seq<Suggestion>, i: nat)
    requires i < |sugg|
    ensures var gs := Grouped(sugg);
      exists g :: 0 <= g < |gs| && GroupKeyOf(gs[g]) == KeyOf(sugg[i]) && sugg[i].childId in gs[g].childIds
  {
    var gs := Grouped(sugg);
    var ks := DistinctKeys(sugg);
    var k := KeyOf(sugg[i]);
    GroupKeys(sugg);
    KeyOccurs(sugg, k);
    var g :| 0 <= g < |ks| && ks[g] == k;
    assert gs[g] == GroupFor(sugg, k);
    MemberListed(sugg, k, i);
    assert GroupKeyOf(gs[g]) == k by { assert MapSeq(gs, GroupKeyOf)[g] == ks[g]; }
  }

  lemma OneGroupPerKey(sugg: seq<Suggestion>, k: GroupKey)
    ensures var gs := Grouped(sugg);
      forall g1, g2 :: 0 <= g1 < |gs| && 0 <= g2 < |gs| && GroupKeyOf(gs[g1]) == k && GroupKeyOf(gs[g2]) == k
        ==> g1 == g2
  {
    var gs := Grouped(sugg);
    var ks := DistinctKeys(sugg);
    GroupKeys(sugg);
    KeysDistinct(sugg);
    forall g1, g2 | 0 <= g1 < |gs| && 0 <= g2 < |gs| && GroupKeyOf(gs[g1]) == k && GroupKeyOf(gs[g2]) == k
      ensures g1 == g2
    {
      assert ks[g1] == MapSeq(gs, GroupKeyOf)[g1];
      assert ks[g2] == MapSeq(gs, GroupKeyOf)[g2];
    }
  }

  /**
   * Every member's focus target ids are in its group, and the first
   * member's targets come first, unchanged.
   */
  lemma {:induction false} MergedFocusCovers(sgs: seq<Suggestion>, m: nat)
    requires m < |sgs|
    ensures FocusIdSet(sgs[m].focusTargets) <= FocusIdSet(MergedFocus(sgs))
    ensures sgs[0].focusTargets <= MergedFocus(sgs)
    decreases |sgs|
  {
    if |sgs| > 1 {
      var init := sgs[..|sgs| - 1];
      var last := sgs[|sgs| - 1].focusTargets;
      var prev := MergedFocus(init);
      assert init[0] == sgs[0];
      if m < |sgs| - 1 {
        assert init[m] == sgs[m];
        MergedFocusCovers(init, m);
      } else {
        MergedFocusCovers(init, 0);
        forall x | x in FocusIdSet(last) ensures x in FocusIdSet(MergedFocus(sgs)) {
          var f :| f in last && f.id == x;
          if x !in FocusIdSet(prev) {
            assert f in Filter(last, IdNotIn(FocusIdSet(prev)));
          }
        }
      }
      MergedFocusCovers(init, 0);
    }
  }

  /** ai.ts:163-166 */
  method RulesBasedFallbackGrouped(activity: SI.Activity, children: seq<ChildRef>, nodeById: map<string, Node>,
                                   achievementsOf: string -> seq<Achievement>, idx: Option<GenomeIndex>)
    returns (out: seq<Group>)
    ensures out == Grouped(RulesBasedFallback(activity, children, nodeById, achievementsOf, idx))
  {
    var sugg := RulesBasedFallback(activity, children, nodeById, achievementsOf, idx);
    out := GroupFromSuggestions(sugg);
  }
}
