# Genome planner: a verified Dafny model

This project models the decision logic of a child-development planner. The planner works over a *genome*: a forest of milestone nodes with parent links, age bands, gates, tags and linked activities. The model covers the following parts:

- **GenomeEngine** (`genome_engine.dfy`). This is the forest index: children, in-degrees, parents, roots, and the queue walk that assigns `depth` and `rootFor`. It also covers the per-child state derivation: the achieved set, one branch per root with its latest achieved node and frontier, and the frontier union.
- **Logic** (`logic.dfy`). This is the gate expression pipeline: textual substitution of `age()`, `level('ID')` and `confidence('ID')`, then the character allow-list, then an evaluator that stays abstract. It also covers the gate-based readiness score.
- **ServicesIndex** and **ParentChain** (`services_index.dfy`, `parent_chain.dfy`). These are the ancestor closure of a set of ids, the levels derived from achievements, and the normalisation of visualiser-schema activities.
- **Recommender** (`recommender.dfy`). Activities are ranked by how many of their targets are on the child's frontier.
- **Ai** (`ai.dfy`). This is the rule-based readiness classifier, and the grouping of its suggestions by readiness and note.
- **PlannerAi** (`planner_ai.dfy`). This is the activity score against a week's focus tags, the materials and the zones, and the greedy weekly plan filler.
- **UI handlers**. These are the state updates of the visualiser's screens and the planner's screens, each a new value computed from the old one:
  - `app.dfy`: next step per ladder, expand/collapse, evidence bump, progression path;
  - `ui_baseline_modal.dfy`: baseline evaluation, age buckets, achievement overlay, tag cells;
  - `planner_baseline_modal.dfy`: six-month buckets, branch items, age-based selection;
  - `recommended_library.dfy`: library scoring and the add target;
  - `plan_view.dfy`: schedule edits.
- **DataLoader** (`data_loader.dfy`). This is public URL joining and the two-path fallback that loads the activities.
- **SampleGenome** (`sample_genome.dfy`). This is the bundled sample genome, its initial child state, and its data invariants.

Shared modules:

- `Common` holds lists: filter, map, de-duplication, a stable sort and "last wins" indexing.
- `Types` holds the shared record types.

Where the source updates state step by step, the model has a `method` with loops and invariants. Each such method is proved equal to a specification function, and the properties are proved about that function. The source code's pure `map`/`filter`/`sort` chains are modelled as functions.

**Modelling conventions.**

- **Truthiness.** JavaScript truthiness is modelled wherever the code relies on it. In particular, an empty id is falsy.
- **Key order.** `Object.keys` order is insertion order.
- **Sorting.** `Array.prototype.sort` with a numeric comparator is a stable insertion sort, as ECMAScript 2019 requires.
- **Arithmetic.** Scores are exact reals. Ages and months are integers.
- **The global index.** The planner's global genome index is passed in as an `Option`.

**Where the specification and the code disagree, the model follows the code:**

- **Depths.** The specification says a node's depth comes from whichever path the walk found. The code keeps the smaller depth each time it reaches a node again (genomeEngine.ts:59). So the model's depth is the shortest distance from a root.
- **Prereq gates.** The specification says nothing about the effect of a passing prereq gate. The code raises the gate score to at least 0.6 (logic.ts:71). The model does the same.
- **The weighted readiness formula.** The specification describes a weighted formula. That formula is not in `src/logic.ts`. The functions App.tsx imports for it stay parameters.
- **Frontier and achieved set.** The specification states, as an invariant, that the frontier and the achieved set are disjoint. The code does not guarantee this. The model proves it only for linear branches whose root is achieved.
- **The recommender's index.** The specification has the index injected into the recommender. The code reads a global singleton. The model passes it as an `Option`.

## Model

| member | source | states |
|---|---|---|
| GenomeEngine.IndexNodes | src/planner/services/genomeEngine.ts:31-32 | the node dictionary is last-wins by id, and its key order is first-occurrence order |
| GenomeEngine.NodeIdsAreKeys | src/planner/services/genomeEngine.ts:31-32 | the key list and the dictionary hold exactly the same ids |
| GenomeEngine.InitAdjacency | src/planner/services/genomeEngine.ts:34-37 | before any edge, every node has no children, in-degree 0 and parent null |
| GenomeEngine.AddEdges | src/planner/services/genomeEngine.ts:40-46 | after the edge loop, children, in-degrees and parents are those of the valid edges, in edge order |
| GenomeEngine.InvalidEdgeIgnored | src/planner/services/genomeEngine.ts:42 | an edge with an unknown end changes no children list, in-degree or parent |
| GenomeEngine.ParentIsLastEdge | src/planner/services/genomeEngine.ts:40-46 | a node's parent is the source of the last valid edge into it, and the node is among that parent's children |
| GenomeEngine.NoParentIffNoIncoming | src/planner/services/genomeEngine.ts:44-45 | parent is null exactly when the in-degree is zero |
| GenomeEngine.AdjacencyIsSpec | src/planner/services/genomeEngine.ts:34-48 | the maps built by the loops equal the specification maps of the genome, and the root test `(indeg[id] or 0) === 0` is "no valid incoming edge" |
| GenomeEngine.RootsHaveNoIncoming | src/planner/services/genomeEngine.ts:48 | the roots are exactly the nodes with in-degree zero |
| GenomeEngine.RootsAreNodes | src/planner/services/genomeEngine.ts:48 | every root is a node with an adjacency entry |
| GenomeEngine.ChildrenNotRoots | src/planner/services/genomeEngine.ts:43-48 | no root is anyone's child |
| GenomeEngine.ChildrenInMap | src/planner/services/genomeEngine.ts:42-43 | every child id is itself a node with an adjacency entry |
| GenomeEngine.ChildFacts | src/planner/services/genomeEngine.ts:42-44 | a child and its parent are nodes, and the child has in-degree at least one |
| GenomeEngine.TwoParents | src/planner/services/genomeEngine.ts:43-44 | a node that is the child of two different nodes has in-degree at least two |
| GenomeEngine.GraphOfGenome | src/planner/services/genomeEngine.ts:40-48 | every child is a node, no root is anyone's child, every root is a node, and a genome of in-degree at most one has unique parents |
| GenomeEngine.TreeParentOfChild | src/planner/services/genomeEngine.ts:45 | on a tree-shaped genome the recorded parent of every child is the node it hangs from |
| GenomeEngine.BuildAdjacency | src/planner/services/genomeEngine.ts:31-48 | the node dictionary, its key order, the children, the parents and the roots equal their specifications |
| GenomeEngine.VisitChild | src/planner/services/genomeEngine.ts:59-60 | a child's depth is lowered to `d + 1` if undefined or larger, and its root is set only when missing or empty |
| GenomeEngine.VisitChildren | src/planner/services/genomeEngine.ts:57-62 | visiting one dequeued entry keeps the walk's invariant and lowers the termination measure by one |
| GenomeEngine.WalkRoot | src/planner/services/genomeEngine.ts:54-63 | the walk from one root gives it depth 0 and root itself, and drains the queue keeping the walk's invariant |
| GenomeEngine.AssignDepths | src/planner/services/genomeEngine.ts:49-64 | every root has depth 0 and is its own root; every reached child is reached with depth at most its parent's plus one; every non-root reached node has a parent one level up; every recorded root is a root; on unique parents, every child has depth parent + 1 and the parent's root |
| GenomeEngine.DepthZeroIsRoot | src/planner/services/genomeEngine.ts:53-55 | a node at depth 0 is a root and its own root |
| GenomeEngine.BuildGenomeIndex | src/planner/services/genomeEngine.ts:30-67 | the index's maps and roots equal their specifications, and depth and rootFor satisfy the walk's facts (tree facts on a tree-shaped genome) |
| GenomeEngine.AchievedIds | src/planner/services/genomeEngine.ts:83 | the achieved set holds exactly the achievements' node ids |
| GenomeEngine.AchievedOrderFree | src/planner/services/genomeEngine.ts:83 | two achievement lists naming the same node ids, in any order, with any repetitions and timestamps, give the same achieved set and the same derived state |
| GenomeEngine.GroupByRoot | src/planner/services/genomeEngine.ts:84-90 | each root's group is the nodes with that truthy root in key order, and the group keys are listed in first-occurrence order |
| GenomeEngine.SortBranches | src/planner/services/genomeEngine.ts:91-94 | every group is replaced by its stable sort by `depth[x] or 0` and no group is added or lost |
| GenomeEngine.GroupsGiveChains | src/planner/services/genomeEngine.ts:98 | the chain read for a root is its sorted group, or the root alone |
| GenomeEngine.ChainByDepth | src/planner/services/genomeEngine.ts:84-98 | a chain holds exactly the nodes whose root is that root (or the root alone), ordered by depth |
| GenomeEngine.ChainStartsAtRoot | src/planner/services/genomeEngine.ts:91-98 | on a built index the root heads its own chain |
| GenomeEngine.PrefixLen | src/planner/services/genomeEngine.ts:101-106 | the length of the longest all-achieved prefix of the chain: all before it achieved, the next one not |
| GenomeEngine.LatestAchieved | src/planner/services/genomeEngine.ts:100-106 | the scan stops at the first unachieved node and returns the last achieved one before it |
| GenomeEngine.DeriveBranch | src/planner/services/genomeEngine.ts:97-116 | one root's branch: its latest achieved node and its frontier by the rules of lines 107-115 |
| GenomeEngine.DeriveBranches | src/planner/services/genomeEngine.ts:96-117 | one branch per root, in roots order |
| GenomeEngine.DeriveStateForChild | src/planner/services/genomeEngine.ts:82-121 | the derived state equals its specification (achieved set, branches, de-duplicated frontier union) |
| GenomeEngine.BranchPerRoot | src/planner/services/genomeEngine.ts:96-117 | there are as many branches as roots, and branch i belongs to root i |
| GenomeEngine.BranchAt | src/planner/services/genomeEngine.ts:97-116 | branch i is the branch of root i |
| GenomeEngine.LatestNoneIffRootMissing | src/planner/services/genomeEngine.ts:100-106 | on a built index, a branch has no latest achieved node exactly when its root is not achieved |
| GenomeEngine.LatestEndsAchievedPrefix | src/planner/services/genomeEngine.ts:100-106 | the latest achieved node ends the longest achieved prefix of the chain |
| GenomeEngine.FrontierAllIsUnion | src/planner/services/genomeEngine.ts:119 | `frontierAll` has no duplicates and holds exactly the nodes on some branch's frontier |
| GenomeEngine.LinearFrontierNotAchieved | src/planner/services/genomeEngine.ts:107-115 | on a linear branch whose root is achieved, no frontier node is achieved |
| Logic.MakeDefaultState | src/logic.ts:22-26 | every level and confidence is 0 and the age is the one given |
| Logic.MatchCall | src/logic.ts:33-34 | a match of `name(\s*'([^']+)'\s*)` at the start of the text is non-empty and lies within the text |
| Logic.CallMatches | src/logic.ts:33-34 | a call with any white space around a non-empty quote-free id is matched in full and yields that id |
| Logic.CallReplaced | src/logic.ts:33-36 | each call `name('ID')` is replaced by the provider's value for ID, and text before it that cannot start a call is kept |
| Logic.CallThenEnds | src/logic.ts:33-36 | the text after a matched call is left for the rest of the scan |
| Logic.ReplaceCallsPlain | src/logic.ts:33-36 | text holding no first letter of the call name passes through the replacement unchanged |
| Logic.AgeReplaced | src/logic.ts:32 | each `age()` is replaced by the age shown as text |
| Logic.AgePlain | src/logic.ts:32 | text with no `a` passes through the `age()` replacement unchanged |
| Logic.StripKeeps | src/logic.ts:41 | removing a doubled character such as `&&` keeps every other character and adds none |
| Logic.AcceptedIffAllowed | src/logic.ts:39-46 | the second, stripped allow-list test never accepts a string the first rejected, so a string is accepted exactly when every character is in the first allow-list |
| Logic.EvalGateExpr | src/logic.ts:29-57 | the gate passes exactly when the substituted string is allowed and the evaluator returns true; a rejection or an evaluation error gives false |
| Logic.UnsafeBlocked | src/logic.ts:39-46 | a substituted string with a character outside the allow-list never passes, whatever the evaluator says |
| Logic.ReadinessScore | src/logic.ts:60-79 | the loop with its early returns computes the specification fold of the gates |
| Logic.FoldOne | src/logic.ts:67-77 | a failing prereq or a passing block stops the score; a passing prereq raises it to at least 0.6; a passing boost adds 0.2 capped at 1; anything else leaves it |
| Logic.StoppedStaysStopped | src/logic.ts:70-73 | once a gate has stopped the score, no later gate revives it |
| Logic.StopIffStopping | src/logic.ts:69-73 | the score is 0 exactly when some gate stops it, whatever boosts came before |
| Logic.ScoreBounds | src/logic.ts:66-78 | a score that was not stopped lies in [0.5, 1], and is at least 0.6 when there is a prereq |
| Logic.ReadinessRange | src/logic.ts:65-78 | the readiness is 0 or lies in [0.5, 1]; it is 0.5 when gates are absent or empty |
| ParentChain.Next | src/planner/services/index.ts:192 | the next id up is the recorded parent when it is a non-empty id, and nothing when the entry is missing, null or empty |
| ParentChain.WalkUp | src/planner/services/index.ts:188-193 | the walk from one id appends, in order, the id and its ancestors until a missing parent or an id already listed; the earlier list is kept as a prefix and nothing is listed twice; an empty or already listed id adds nothing |
| ParentChain.WalkIsChain | src/ui/BaselineModal.tsx:12-22 | walking from an empty list gives exactly the chain value of the id |
| ParentChain.Chain | src/ui/BaselineModal.tsx:12-22 | the chain starts with the id, each element is the parent of the one before, nothing repeats, and it ends at a missing parent or at a parent already on it; empty exactly for an empty id |
| ParentChain.ChainBound | src/ui/BaselineModal.tsx:16 | a duplicate-free walk is no longer than the ids it can meet, so the walk terminates even on a cycle of parents |
| ParentChain.ChainMembers | src/ui/BaselineModal.tsx:12-22 | an id is on the chain exactly when it is the start or one of its ancestors |
| ParentChain.ChainOfRoot | src/ui/BaselineModal.tsx:16-19 | a parentless id's chain is itself alone |
| ParentChain.ChainOfRootChild | src/ui/BaselineModal.tsx:16-19 | the chain of a root's child is the child, then the root |
| ServicesIndex.ExpandWithParents | src/planner/services/index.ts:183-200 | with an index: every truthy input id and every ancestor of one, without duplicates, closed under parents, and nothing else; without an index: the input ids de-duplicated |
| ServicesIndex.ClosedHoldsAncestors | src/planner/services/index.ts:189-193 | a parent-closed list holds every ancestor of each of its ids |
| ServicesIndex.LevelsOf | src/planner/services/index.ts:204-205 | the level map has exactly the listed ids as keys, each at level 3 |
| ServicesIndex.ComputeLevelsFromAchievements | src/planner/services/index.ts:202-207 | every key is at level 3; the keys are the inputs and their ancestors with an index, the inputs alone without |
| ServicesIndex.TargetsOf | src/planner/services/index.ts:98 | the targets are exactly the truthy `nodeId`s of the links |
| ServicesIndex.MaterialsOf | src/planner/services/index.ts:99 | every material is a truthy string, and a string is a material exactly when it is non-empty and some entry is that string or an object of that name |
| ServicesIndex.NormaliseAll | src/planner/services/index.ts:97-118 | one normalised activity per input object, in order |
| ServicesIndex.LoadActivities | src/planner/services/index.ts:84-123 | no items give an empty list; planner-schema items and items of unknown schema are passed through unchanged; visualiser-schema items are normalised one for one |
| ServicesIndex.NormalisedActivity | src/planner/services/index.ts:97-107 | a normalised activity has one `core` level with exactly the truthy link ids as targets, materials exactly the truthy string entries and object names, duration `durationMin` when positive else 10, a non-empty title, and id from `id`, else `activityId`, else the generated one |
| Recommender.PreferredLevel | src/planner/services/recommender.ts:13 | the second level when there are two or more, else the first, else none |
| Recommender.RecommendForChild | src/planner/services/recommender.ts:5-24 | the result is a permutation of the activities, and the activities themselves when no index is available |
| Recommender.HitsCount | src/planner/services/recommender.ts:13-15 | the score counts, with multiplicity, the preferred level's targets that are on the frontier, and is 0 exactly when none is |
| Recommender.RecommendSorted | src/planner/services/recommender.ts:18 | the result is ordered by non-increasing score |
| Recommender.RecommendStable | src/planner/services/recommender.ts:18 | activities with the same score keep their input order |
| Ai.TargetsAreUnion | src/planner/services/ai.ts:131 | the activity's targets are the union of all its levels' targets, each listed once |
| Ai.SuggestionFor | src/planner/services/ai.ts:132-159 | a child's suggestion carries that child's id and name |
| Ai.RulesBasedFallback | src/planner/services/ai.ts:129-161 | exactly one suggestion per child, in input order, carrying the child's id and name |
| Ai.RuleFrom | src/planner/services/ai.ts:136-158 | the readiness rule for one child's derived state: ready with the frontier targets, else stretch with the achieved targets, else scaffold with every target; without an index, ready with every target; each with its note |
| Ai.ReadinessRule | src/planner/services/ai.ts:137-158 | the suggestion of child i follows the readiness rule for that child's own achievements |
| Ai.FocusIds | src/planner/services/ai.ts:136 | the focus targets carry the target ids, in order |
| Ai.MergeTargets | src/planner/services/ai.ts:176-177 | later focus targets are appended, in order, only when their id is not already in the group |
| Ai.AddSuggestion | src/planner/services/ai.ts:170-178 | one loop step adds the suggestion to its key's group, creating the group (and its key) on first occurrence |
| Ai.ValuesInOrder | src/planner/services/ai.ts:179 | the groups are read back in key insertion order |
| Ai.GroupFromSuggestions | src/planner/services/ai.ts:168-180 | the loop over suggestions gives exactly the specification grouping |
| Ai.GroupKeys | src/planner/services/ai.ts:169-172 | one group per distinct (readiness, notes) pair, in order of first occurrence |
| Ai.GroupsByKey | src/planner/services/ai.ts:169-172 | group keys are distinct, and a key has a group exactly when some suggestion has that key |
| Ai.GroupMembers | src/planner/services/ai.ts:173-174 | a group's child ids and names are equal in length, index-aligned, and come from one suggestion of that key each |
| Ai.MemberListed | src/planner/services/ai.ts:173 | a suggestion's child id is among its group's ids |
| Ai.ChildInOneGroup | src/planner/services/ai.ts:170-174 | every suggestion's child is listed in the group of its key, and only one group has that key |
| Ai.OneGroupPerKey | src/planner/services/ai.ts:171-172 | no two groups share a key |
| Ai.MergedFocusCovers | src/planner/services/ai.ts:172-177 | every member's focus target ids are in its group, and the first member's targets come first, unchanged |
| Ai.AppendOwn | src/planner/services/ai.ts:176-177 | merging a suggestion's own targets into themselves adds nothing |
| Ai.RulesBasedFallbackGrouped | src/planner/services/ai.ts:163-166 | the grouped fallback is the grouping of the per-child suggestions |
| PlannerAi.NormalizeId | src/planner/services/plannerAI.ts:27 | the id is `activityId` when truthy, else `id`, and is empty exactly when neither is truthy |
| PlannerAi.MaterialsLoop | src/planner/services/plannerAI.ts:38-42 | the loop is blocked exactly when a needed material is forbidden; otherwise it adds one per available and subtracts one per missing material |
| PlannerAi.MaterialPoints | src/planner/services/plannerAI.ts:40-41 | the material points are twice the available ones minus the distinct needed ones |
| PlannerAi.ActivityScore | src/planner/services/plannerAI.ts:30-55 | the loops compute the specification score: 2 per desired tag present, the material points, -2 when environments are listed but no tag is allowed by a zone, +1 with links, and -999 on a forbidden material |
| PlannerAi.ScoreRange | src/planner/services/plannerAI.ts:30-55 | a forbidden material gives -999; otherwise the score lies between minus the needed materials minus 2 and twice the desired tags plus the needed materials plus 1 |
| PlannerAi.RankedFromInput | src/planner/services/plannerAI.ts:74-77 | every ranked entry is an input activity with its own score, above -500 and with a non-empty id |
| PlannerAi.RankedComplete | src/planner/services/plannerAI.ts:74-77 | every activity scoring above -500 with a non-empty id is ranked |
| PlannerAi.RankedSorted | src/planner/services/plannerAI.ts:77 | the ranking is by non-increasing score |
| PlannerAi.RankedStable | src/planner/services/plannerAI.ts:77 | entries with equal scores keep their input order |
| PlannerAi.FocusWeek | src/planner/services/plannerAI.ts:69 | the focus week is a week with number 1 when one exists, else the first week, and none only when there are no weeks |
| PlannerAi.OccursAt | src/planner/services/plannerAI.ts:88 | a case-insensitive pattern occurs exactly when it matches at some position of the slot type |
| PlannerAi.PickFirst | src/planner/services/plannerAI.ts:92-111 | the pick is the first acceptable candidate in rotation order from the cursor, every candidate passed over is rejected, and the cursor moves past it |
| PlannerAi.PickNoneAllRejected | src/planner/services/plannerAI.ts:94-113 | a full rotation that finds nothing has rejected every candidate |
| PlannerAi.PickNext | src/planner/services/plannerAI.ts:92-111 | the spin loop returns the specification pick and cursor |
| PlannerAi.ChoiceOk | src/planner/services/plannerAI.ts:98-110 | a chosen activity is a ranked candidate with an unused, non-empty id that is on target when there are targets |
| PlannerAi.EmptyWeek | src/planner/services/plannerAI.ts:81-82 | every listed day gets an entry, initialised to empty, and no other day does (the map `EmptyDays(days)`) |
| PlannerAi.SlotStepChoice | src/planner/services/plannerAI.ts:86-121 | at a fillable slot, a rotation that finds nothing leaves plan and used ids unchanged and every ranked candidate was rejected; otherwise that day gains exactly the chosen item (an acceptable ranked candidate), other days are untouched, and its id becomes used |
| PlannerAi.FillSlot | src/planner/services/plannerAI.ts:86-121 | the new plan, used ids and cursor are one step of the specification fold (skip a non-fillable slot; else push the rotation's pick, or advance the cursor only); the fill invariant is kept |
| PlannerAi.FillDay | src/planner/services/plannerAI.ts:86-122 | the state after a day is the specification fold over all its slots, and the fill invariant moves to the next day |
| PlannerAi.FillWeek | src/planner/services/plannerAI.ts:80-123 | the plan is exactly the specification fold from empty days, nothing used and cursor 0, with the cursor carried across slots and days; ids are distinct across the week, every item is valid, at most one item per fillable slot of each day |
| PlannerAi.GenerateWeeklyPlan | src/planner/services/plannerAI.ts:57-126 | every listed day has an entry; no activity id appears twice in the week; every item fills a fillable slot with a ranked activity, its `nodeId` that activity's first link node, on target when there are targets; at most one item per fillable slot; and the plan is exactly `WeeklyPlan` of the timetable's days and slots, the ranked candidates and the target nodes |
| App.InitialChildState | src/ui/App.tsx:15-19 | every node id, and only those, starts at level 0, confidence 0, no evidence |
| App.Present | src/ui/App.tsx:86 | `.filter(Boolean)` keeps exactly the non-null entries, never more than there were |
| App.CandidateIff | src/ui/App.tsx:76-78 | a candidate is exactly a node of the ladder whose gate is satisfied and whose level is below 2 |
| App.BestOfIsBest | src/ui/App.tsx:79-85 | the first of the candidates sorted by descending score: none exactly when there are none, otherwise a candidate of the ladder with maximal score that no earlier candidate reaches |
| App.LadderNextIsBest | src/ui/App.tsx:75-85 | a ladder has a next step exactly when it has a candidate, and the step is a best-scoring candidate, ties going to the first in genome order |
| App.NextStepsFromLadders | src/ui/App.tsx:75-86 | every next step is some ladder's step, every ladder with a step contributes it, and there are no more steps than ladders |
| App.PresentMapMembers | src/ui/App.tsx:75-86 | `.map(f).filter(Boolean)` keeps exactly the values `f` gives some element |
| App.OneStepPerLadder | src/ui/App.tsx:75-86 | with distinct ladder ids, no ladder has two next steps |
| App.ToggleNode | src/ui/App.tsx:90-98 | the node's membership in its ladder's expanded set flips; every other node and every other ladder is unchanged |
| App.ToggleTwice | src/ui/App.tsx:90-98 | toggling a node twice restores the ladder's set |
| App.ExpandedAll | src/ui/App.tsx:99-107 | the ladder's set gains exactly the ids of the ladder's nodes; other ladders are unchanged |
| App.ExpandAllInLadder | src/ui/App.tsx:99-107 | the loop adding the ladder's node ids gives `ExpandedAll` |
| App.CollapseAll | src/ui/App.tsx:108-112 | the ladder's set becomes empty; other ladders are unchanged |
| App.ExpandCollapse | src/ui/App.tsx:99-112 | expanding all is idempotent, and collapsing after expanding is collapsing |
| App.Bump | src/ui/App.tsx:115-124 | the node's level rises by the delta capped at 3, confidence by its delta capped at 1, evidence by one; other nodes are unchanged |
| App.CapAdd | src/ui/App.tsx:119-120 | after a non-negative step, capping before the step as well changes nothing |
| App.BumpTimesLevel | src/ui/App.tsx:119 | `n` bumps raise the level by `n` deltas, capped once at 3 |
| App.BumpTimesConfidence | src/ui/App.tsx:120 | `n` bumps raise the confidence by `n` deltas, capped once at 1 |
| App.BumpTimesEvidence | src/ui/App.tsx:121 | `n` bumps add `n` pieces of evidence and leave every other node |
| App.ParentNode | src/ui/App.tsx:133 | a parent node is found exactly when the node has a non-empty parent id present in the index |
| App.Progression | src/ui/App.tsx:126-135 | empty without a selection; otherwise it ends at the selected node, starts at a node without a parent in the index, and each node is the parent of the next |
| UiBaselineModal.BuildParentMap | src/ui/BaselineModal.tsx:6-10 | the keys are the node ids, and each id maps to the parent id of the last node with that id |
| UiBaselineModal.ExpandWithParents | src/ui/BaselineModal.tsx:12-22 | the loop gives the chain of parents from `id`, which stops at a missing or empty parent or a repeated id |
| UiBaselineModal.CeilDiv | src/ui/BaselineModal.tsx:26 | `Math.ceil(a / b)`: the least `c` with `c * b >= a` |
| UiBaselineModal.Bucketize | src/ui/BaselineModal.tsx:24-32 | bucket `k` spans `k * step` to `k * step + step`, and there are `max(step, ceil(maxEnd / step) * step) / step` of them |
| UiBaselineModal.BucketsCover | src/ui/BaselineModal.tsx:26-27 | the buckets reach `maxEnd` and at least `step`, with no bucket wholly beyond `maxEnd` unless there is only one |
| UiBaselineModal.MaxEnd | src/ui/BaselineModal.tsx:41 | the largest typical end over the nodes, or 0, and never below 0 |
| UiBaselineModal.MergeEval | src/ui/BaselineModal.tsx:61-66 | the level-derived evaluations override the saved ones, which fill the rest |
| UiBaselineModal.EvalOfMonotone | src/ui/BaselineModal.tsx:63 | a higher level never gives a lower evaluation |
| UiBaselineModal.MergeIdempotent | src/ui/BaselineModal.tsx:66 | merging the same levels twice is merging once |
| UiBaselineModal.NextEval | src/ui/BaselineModal.tsx:98 | the evaluation cycles 0, 1, 2, 0 |
| UiBaselineModal.CycleState | src/ui/BaselineModal.tsx:95-107 | the node moves one step round the cycle; on reaching 2 the node and its whole chain of parents are set to 2; nothing else changes |
| UiBaselineModal.SetTwoProps | src/ui/BaselineModal.tsx:102 | setting ids to 2 adds them all with value 2 and leaves other entries |
| UiBaselineModal.AppendedIds | src/ui/BaselineModal.tsx:85 | the appended records name exactly the ids not already listed, in order, each stamped `now` |
| UiBaselineModal.AppendAbsent | src/ui/BaselineModal.tsx:85 | the loop appends those records to the list |
| UiBaselineModal.MarkAchievedOverlay | src/ui/BaselineModal.tsx:76-93 | the stored list gains the records for the chain ids not yet listed; the levels give 3 to every listed id and to nothing else |
| UiBaselineModal.AppendedCovers | src/ui/BaselineModal.tsx:85 | after appending, every id of the chain is listed |
| UiBaselineModal.OverlayProps | src/ui/BaselineModal.tsx:82-85 | the overlay lists every chain id afterwards, adds each missing one exactly once and none already listed |
| UiBaselineModal.ChainsMembers | src/ui/BaselineModal.tsx:119 | an id is visited exactly when it is on the chain of an achieved key |
| UiBaselineModal.CollectChains | src/ui/BaselineModal.tsx:119 | the loop over the achieved ids collects their chains in order |
| UiBaselineModal.SaveAll | src/ui/BaselineModal.tsx:109-128 | as written: every visited chain id not in the list as it was before the loop is appended, once per visit, then levels 3 per listed id |
| UiBaselineModal.SaveAllDuplicates | src/ui/BaselineModal.tsx:117-119 | a child and its root both achieved: the root is appended twice |
| UiBaselineModal.ChildThenRoot | src/ui/BaselineModal.tsx:119 | a child listed before its root gives the root's chain twice |
| UiBaselineModal.FreshIdsIsFilterDedup | src/ui/BaselineModal.tsx:117-119 | the ids the corrected save appends are the de-duplicated visited ids less those already listed |
| UiBaselineModal.AppendFresh | src/ui/BaselineModal.tsx:119 | with `have` updated after each push, the loop appends each fresh id once |
| UiBaselineModal.PushIfAbsent | src/ui/BaselineModal.tsx:119 | a record is pushed exactly when the id is not yet listed |
| UiBaselineModal.SaveAllOnce | src/ui/BaselineModal.tsx:109-128 | the corrected save: each fresh id appended once, then levels 3 per listed id |
| UiBaselineModal.SaveAllOnceProps | src/ui/BaselineModal.tsx:117-124 | the corrected save adds no id twice, none already listed, and afterwards lists every id on the chain of every achieved key |
| UiBaselineModal.SaveAllIdsMembers | src/ui/BaselineModal.tsx:112-119 | the visited ids are exactly the members of the chains of keys at 2 |
| UiBaselineModal.AllTags | src/ui/BaselineModal.tsx:46-47 | the set of tags, before sorting, has no duplicates |
| UiBaselineModal.AllTagsMembers | src/ui/BaselineModal.tsx:46-47 | a tag is in that set exactly when some node carries it |
| UiBaselineModal.TagList | src/ui/BaselineModal.tsx:45-49 | the tag list is in collation order, a permutation of the tag set, and has no duplicates |
| UiBaselineModal.TagListMembers | src/ui/BaselineModal.tsx:45-49 | a tag is in the sorted list exactly when some node carries it |
| UiBaselineModal.Lower | src/ui/BaselineModal.tsx:148 | lower-casing keeps the length and maps each character |
| UiBaselineModal.TrimStart | src/ui/BaselineModal.tsx:148 | a suffix of the text that does not start with white space |
| UiBaselineModal.TrimEnd | src/ui/BaselineModal.tsx:148 | a prefix of the text that does not end with white space |
| UiBaselineModal.FilteredTags | src/ui/BaselineModal.tsx:148 | a tag is shown exactly when its lower-cased text contains the trimmed, lower-cased search |
| UiBaselineModal.BlankSearchKeepsAll | src/ui/BaselineModal.tsx:148 | a blank search shows every tag, in order |
| UiBaselineModal.BucketIndexPlacement | src/ui/BaselineModal.tsx:137-138 | a node goes to the 3-month bucket holding its start, or to the last bucket when it starts beyond them |
| UiBaselineModal.Push | src/ui/BaselineModal.tsx:142 | the node is appended to exactly one cell, which then exists; other cells are unchanged |
| UiBaselineModal.AddNode | src/ui/BaselineModal.tsx:140-143 | the node is appended to the cells of its tags in its bucket, once per occurrence of a tag, and only there |
| UiBaselineModal.CellNodes | src/ui/BaselineModal.tsx:134-146 | each cell holds, in node order, the nodes with that tag and bucket; no empty cell is created |
| UiBaselineModal.CellMembers | src/ui/BaselineModal.tsx:134-146 | a node is in a cell exactly when it carries the tag and its bucket index is the column |
| PlannerBaselineModal.MaxEnd | src/planner/components/BaselineModal.tsx:50-53 | the largest numeric typical end over the index's nodes, or 0, never below 0 |
| PlannerBaselineModal.SixMonthBuckets | src/planner/components/BaselineModal.tsx:54-58 | bucket `k` spans `6k` to `6k + 6`, and there is one per multiple of 6 up to `max(maxEnd, 6)` |
| PlannerBaselineModal.SixMonthBucketsCover | src/planner/components/BaselineModal.tsx:55 | at least two buckets, and the last one holds the bound `max(maxEnd, 6)` |
| PlannerBaselineModal.BranchItems | src/planner/components/BaselineModal.tsx:63-71 | one item per node of the branch, carrying that node's id, in branch order |
| PlannerBaselineModal.ByBranch | src/planner/components/BaselineModal.tsx:62-74 | nothing without an index; otherwise one branch per root, in root order |
| PlannerBaselineModal.BranchItemsExact | src/planner/components/BaselineModal.tsx:63-65 | a branch lists exactly the nodes whose root is that root, each as often as the index lists it, by non-decreasing depth |
| PlannerBaselineModal.ItemRelevance | src/planner/components/BaselineModal.tsx:69 | an item is relevant exactly when both band ends are numbers and the age lies between them |
| PlannerBaselineModal.AddWhere | src/planner/components/BaselineModal.tsx:88-92 | the loop adds each passing id, in order, to the set |
| PlannerBaselineModal.SelectUpToAge | src/planner/components/BaselineModal.tsx:85-94 | without an index nothing changes; otherwise the selection becomes the nodes with a numeric typical end at or below the age |
| PlannerBaselineModal.SelectUpToAgeMembers | src/planner/components/BaselineModal.tsx:88-93 | that selection holds exactly the qualifying nodes, once each |
| PlannerBaselineModal.SelectBranchUpToAge | src/planner/components/BaselineModal.tsx:96-107 | without an index nothing changes; otherwise the branch's qualifying nodes are added |
| PlannerBaselineModal.SelectBranchKeeps | src/planner/components/BaselineModal.tsx:98-105 | the old selection stays, in order, as a prefix; no duplicate appears; only qualifying branch nodes are added |
| PlannerBaselineModal.ClearBranch | src/planner/components/BaselineModal.tsx:109-116 | without an index nothing changes; otherwise every node of the branch is removed and the rest keep their order |
| PlannerBaselineModal.ClearBranchMembers | src/planner/components/BaselineModal.tsx:113 | an id survives exactly when it was selected and is not a node of the branch |
| PlannerBaselineModal.PickLadderNode | src/planner/components/BaselineModal.tsx:196-199 | the selection gains the node and its ancestor chain, which holds the node, has no duplicates, is closed under parents and holds only ids reachable upwards |
| PlannerBaselineModal.PickMembers | src/planner/components/BaselineModal.tsx:198-199 | after picking, the selection holds the old selection, the node and its ancestors, and nothing else |
| PlannerBaselineModal.Visible | src/planner/components/BaselineModal.tsx:171-178 | an item is shown exactly when it starts within the current bucket and, when asked, is relevant |
| PlannerBaselineModal.NoBucketNothingVisible | src/planner/components/BaselineModal.tsx:174 | with no bucket at the index nothing is shown |
| PlannerBaselineModal.RelevantOnlyNarrows | src/planner/components/BaselineModal.tsx:176 | the relevance filter never shows more |
| PlannerBaselineModal.RecordsOf | src/planner/components/BaselineModal.tsx:122-123 | one record per id, in order, each stamped `now` |
| PlannerBaselineModal.Apply | src/planner/components/BaselineModal.tsx:118-132 | without a child the error "Pick a child"; otherwise one record per id of the selection's ancestor closure and level 3 for each of them, and for nothing else |
| RecommendedLibrary.Ranked | src/ui/RecommendedLibrary.tsx:17-32 | nothing without an activities document |
| RecommendedLibrary.Listed | src/ui/RecommendedLibrary.tsx:34-49 | nothing without a frontier; otherwise the first 20 ranked activities |
| RecommendedLibrary.AddTarget | src/ui/RecommendedLibrary.tsx:71-76 | the first hit when it is non-empty, else the first frontier id when non-empty, else none (the alert) |
| RecommendedLibrary.ScoreCounts | src/ui/RecommendedLibrary.tsx:26-27 | the score is the number of links hitting the frontier plus 0.25 exactly when one of them marks an exit |
| RecommendedLibrary.BoostIff | src/ui/RecommendedLibrary.tsx:27 | the boost is given exactly when a hitting link marks an exit |
| RecommendedLibrary.PositiveIffHit | src/ui/RecommendedLibrary.tsx:30 | an activity is kept exactly when one of its links hits the frontier |
| RecommendedLibrary.FirstHitIsFirst | src/ui/RecommendedLibrary.tsx:28 | the first hit names the first link in the frontier, and is null when no link hits |
| RecommendedLibrary.RankedProps | src/ui/RecommendedLibrary.tsx:23-31 | the ranking is a permutation of the hitting activities, by non-increasing score, stable for equal scores |
| RecommendedLibrary.RankedMembers | src/ui/RecommendedLibrary.tsx:23-31 | an entry is ranked exactly when it is the score of an input activity with a hit |
| RecommendedLibrary.EmptyFrontierRanksNothing | src/ui/RecommendedLibrary.tsx:26-30 | with an empty frontier nothing is ranked |
| PlanView.AddToCenters | src/planner/views/Plan.tsx:12-15 | every "centers" block gains the activity for the selected children at level core, at the end; other blocks and the block order are unchanged |
| PlanView.SetLevel | src/planner/views/Plan.tsx:39-42 | in every block with the id, assignment `idx` gets the new level; everything else is unchanged |
| PlanView.SetLevelUndo | src/planner/views/Plan.tsx:39-42 | setting a level and then the old level restores each such block |
| PlanView.DropAt | src/planner/views/Plan.tsx:50 | the entry at `idx` is deleted and the rest keep their order; an index out of range deletes nothing |
| PlanView.Remove | src/planner/views/Plan.tsx:49-51 | in every block with the id, assignment `idx` is deleted; other blocks are unchanged |
| PlanView.DropAtIsSplice | src/planner/views/Plan.tsx:50 | removing keeps every other entry: as multisets, the result and the removed entry make up the list |
| DataLoader.StripTrailingSlashes | src/dataLoader.ts:7 | the longest prefix not ending in a slash, all that is cut being slashes |
| DataLoader.StripLeadingSlashes | src/dataLoader.ts:7 | the longest suffix not starting with a slash, all that is cut being slashes |
| DataLoader.PublicUrlShape | src/dataLoader.ts:4-8 | the URL is the base without its trailing slashes, one slash, and the path without its leading slashes |
| DataLoader.PublicUrlIgnoresSlashes | src/dataLoader.ts:7 | extra slashes at the end of the base or the start of the path do not change the URL |
| DataLoader.PublicUrlDefault | src/dataLoader.ts:6-7 | without a base, a relative path is served from the site root |
| DataLoader.IndexActivities | src/dataLoader.ts:36-37 | the loop gives the index by id, the last activity with an id winning |
| DataLoader.LoadActivities | src/dataLoader.ts:25-39 | the document of the first try that does not fail, indexed; otherwise the latest error, or "activities.json not found" |
| DataLoader.GotIsFirstSuccess | src/dataLoader.ts:29-34 | a loaded document is the first result that is not a failure, and every earlier try failed |
| DataLoader.AllFailedThrowsLast | src/dataLoader.ts:33-35 | when every try fails, the error of the last one is thrown |
| DataLoader.FallbackOrder | src/dataLoader.ts:29-35 | the first path wins when it loads; the second is used only after the first fails; a `null` document throws the error so far |
| SampleGenome.InitialChildState | src/sampleGenome.ts:44-50 | every node id, and only those, gets an entry, from the last node with that id: roots at level 1 with confidence 0.7, others at level 0 with confidence 0.4, no evidence |
| SampleGenome.SampleParentsKnown | src/sampleGenome.ts:13-40 | every parent named in the sample is a node of it |
| SampleGenome.SampleBandsOrdered | src/sampleGenome.ts:13-40 | every sample age band starts no later than it ends |
| SampleGenome.SampleLaddersRooted | src/sampleGenome.ts:3-11 | every ladder's root is a parentless node of the sample |
| SampleGenome.RootsAreHeads | src/sampleGenome.ts:3-40 | the ladders' roots head the node runs, in ladder order |
| SampleGenome.SampleLadderMismatch | src/sampleGenome.ts:26-31 | as written, "EX-VARIEGATED-01" and "EX-FIRST-WORDS-01" carry a ladder id no ladder declares, so if the sample were loaded both would be missing from the expressive ladder's node list, and the receptive root would be on no ladder's list |
| SampleGenome.UndeclaredIds | src/sampleGenome.ts:26-31 | as written, the expressive and receptive nodes name undeclared ladder ids |
| SampleGenome.CorrectedSampleConsistent | src/sampleGenome.ts:6-7 | with the declared ladder ids, every node is on a declared ladder and on that ladder's node list |
| Common.Filter | src/planner/services/plannerAI.ts:76 | `Array.prototype.filter`: a subsequence holding the passing elements, and each passing element |
| Common.FilterMembers | src/planner/services/plannerAI.ts:76 | an element is kept exactly when it occurs and passes |
| Common.Take | src/ui/RecommendedLibrary.tsx:49 | `slice(0, n)`: the first `n` elements, or all of them |
| Common.Dedup | src/ui/BaselineModal.tsx:45-48 | the distinct elements, once each, each an input element and covering all of them |
| Common.DedupOrder | src/ui/BaselineModal.tsx:45-48 | the distinct elements come in order of first occurrence |
| Common.IndexByLastWins | src/dataLoader.ts:36-37 | the entry for a key is the last element carrying it |
| Common.SortBy | src/planner/services/recommender.ts:18 | the stable key sort is a permutation of its input |
| Common.SortBySorted | src/planner/services/recommender.ts:18 | the result is ordered by key |
| Common.SortByStable | src/planner/services/recommender.ts:18 | elements sharing a key keep their input order |
| Common.SortByHead | src/ui/App.tsx:84-85 | the head is the first input element whose key may precede every other |
| Common.SortByKeySorted | src/planner/services/genomeEngine.ts:93 | the ascending sort by depth is ordered |
| Common.SortByKeyFirstIsMin | src/planner/services/genomeEngine.ts:93 | the head of that sort is an input element of least key |
| Common.SortDescSorted | src/planner/services/plannerAI.ts:77 | the descending sort by score is ordered |
| Common.SortDescStable | src/planner/services/plannerAI.ts:77 | equal scores keep their input order |
| Common.ToggleMembers | src/planner/views/Plan.tsx:10 | only the toggled id changes membership |
| Common.ToggleKeepsOthers | src/planner/views/Plan.tsx:10 | every other id keeps its place |
| Common.ToggleKeepsNoDups | src/planner/components/BaselineModal.tsx:79-83 | a duplicate-free selection stays duplicate-free |
| Common.ToggleTwice | src/planner/components/BaselineModal.tsx:79-83 | toggling twice gives the same members back |
| Common.AddAllProps | src/planner/components/BaselineModal.tsx:99-103 | adding to a set removes and reorders nothing, brings no duplicate, and holds exactly the old and added members |

## Left out

- Browser storage and the network, for which the model takes in-memory inputs instead:
  - the `localStorage` reads and writes, and the planner store;
  - `fetch` with `fetchJson` (dataLoader.ts:10-19); what a fetch gave, including the "Fetch failed" and "Invalid JSON" errors, is the parameter `fetch: string -> Fetched`;
  - the domain-name fetch in the baseline modal.
- The language-model calls in ai.ts (`contextualiseActivity`, `callOpenAI`, the payload and the reply parsing): external service.
- The JavaScript evaluator behind `new Function` (logic.ts:50-52): an abstract parameter `jsEval` returning the value's truthiness, or none when it throws. The tokenisation and precedence of JavaScript expressions are not modelled.
- Converting numbers to text (`String(n)`, logic.ts:32-36): the parameter `show`. `toFixed` and every label string are not modelled.
- `Math.random` ids for normalised activities: the parameter `randomId`. Clock readings (`new Date().toISOString()`, `monthsSince`): the parameter `now`, or an age given as input.
- `readyScorePlus`, `gateSatisfied`, `statusColor`, `parentMastery` and `nodeLinks` (App.tsx:5): the part of `src/logic.ts` that holds them is not part of this model. For a given child state they are the parameters `gateSat` and `readyScore`.
- IEEE-754 rounding: scores use exact reals. The 0.1, 0.2 and 0.25 steps are therefore exact.
- `Object.keys` order for keys that look like array indexes (JavaScript lists those first): ids are assumed not to be such strings.
- `toLowerCase` and `trim` beyond ASCII: only ASCII letters are folded, and only ASCII white space is trimmed.
- The template-string cell key `${t}::${b}` (ui/BaselineModal.tsx:141): modelled as the pair `(t, b)`.
- `console.warn`, `console.error`, `alert` and every error diagnostic: their text is not modelled. The error value itself is modelled where the code returns or throws it.
- A document whose `activities` is not an array (dataLoader.ts:37 then throws a `TypeError`): documents are typed as lists of activities.
- A truthy `links` or `materials` that is not an array (`.map` then throws a `TypeError`, src/planner/services/index.ts:98-99): the model reads such a field as absent, so it gives an empty list where the source throws.
- The `e.target.value as any` of the level select (Plan.tsx:40): the new level is an `ActivityLevel`.
- Rendering, React hooks and effects, the tree canvas, and the remaining views: no logic to prove.
- UiBaselineModal.TagList: `localeCompare` is the parameter `collate`, a rank on strings; the locale's collation rules are not modelled, so the order is proved only relative to that rank.
- App.Progression: the walk up the parents (src/ui/App.tsx:131-134) has no visited set, so on a `parentId` cycle above the selected node (say A's parent is B and B's parent is A) it never terminates. The precondition `ChainEnds` requires the walk to reach a node without a parent, so the model does not cover that case.
- Logic.MakeDefaultState: the default `ageM = 0` (src/logic.ts:22) is not modelled; the age is always passed in.
- App.Bump: the default deltas `deltaLevel = 0.2` and `deltaConf = 0.1` (src/ui/App.tsx:115) are not modelled; both deltas are always passed in, as the source's callers do.
- GenomeEngine.BuildGenomeIndex: terminates only when no cycle is reachable from a root, because the walk at genomeEngine.ts:56-63 has no visited set. Acyclicity is a precondition, witnessed by a ghost rank on the reachable nodes. On a reachable cycle the source does not terminate, and the model does not cover that case.
- GenomeEngine.LinearFrontierNotAchieved: the frontier is disjoint from the achieved set only on a linear branch with an achieved root. The code does not promise it otherwise.
- GenomeEngine.TreeParentOfChild: depth is the parent's depth plus one only on tree-shaped input. This is the only case where the source's single-parent assumption holds.

## Findings

| source | as written | input that shows it | evidently intended | confidence | as-written member | corrected member |
|---|---|---|---|---|---|---|
| src/ui/BaselineModal.tsx:116-119 | `have` is computed once before the loop, so an ancestor shared by several achieved ids is appended once per id | child "a" with parent "r", both evaluated 2: the stored list gains "a", "r", "r" | each id appended at most once, as `markAchievedOverlay` does | not executed | UiBaselineModal.SaveAllDuplicates | UiBaselineModal.SaveAllOnceProps |
| src/sampleGenome.ts:26-31 | five nodes carry the ladder ids "communication_expressive" and "communication_receptive", which no ladder declares (the ladders are "communication.expressive" and "communication.receptive") | if this sample were loaded (the main screen loads `data/genome.json` instead, src/ui/App.tsx:39), nodes "EX-VARIEGATED-01" and "EX-FIRST-WORDS-01" would not be on the expressive ladder's node list, and "RC-NAME-ORIENT-01", the receptive ladder's root, would be on no list | the dotted ladder ids declared at sampleGenome.ts:6-7 | not executed | SampleGenome.SampleLadderMismatch | SampleGenome.CorrectedSampleConsistent |
