/**
 * The planner's plan view (`src/planner/views/Plan.tsx`): the day's schedule
 * is a list of blocks, each with its assigned activities; the view toggles
 * the selected children (`Common.Toggle`), adds an activity to the
 * "centers" blocks, changes the level of one assignment and removes one.
 * Every update is a new schedule computed from the old one.
 */
module PlanView {
  import opened Common
  import SI = ServicesIndex

  datatype Assignment = Assignment(activityId: string, childIds: seq<string>, level: SI.ActivityLevel)

  /** `entries` is the block's `assigned` list. */
  datatype Block = Block(blockId: string, title: string, entries: seq<Assignment>)

  /** The one block kind activities are added to. */
  const Centers: string := "centers"

  function AddIfCenters(a: Assignment): Block -> Block
  {
    (b: Block) => if b.blockId == Centers then b.(entries := b.entries + [a]) else b
  }

  /**
   * Plan.tsx:12-15: every "centers" block gets the activity, for the selected
   * children at level core, at the end of its list; the other blocks and
   * the block order are unchanged.
   */
  function AddToCenters(schedule: seq<Block>, activityId: string, selectedChildren: seq<string>): (next: seq<Block>)
    ensures |next| == |schedule|
    ensures forall i :: 0 <= i < |next| ==>
      next[i].blockId == schedule[i].blockId && next[i].title == schedule[i].title
      && |next[i].entries| >= |schedule[i].entries|
      && next[i].entries[..|schedule[i].entries|] == schedule[i].entries
    ensures forall i :: 0 <= i < |next| && schedule[i].blockId == Centers ==>
      |next[i].entries| == |schedule[i].entries| + 1
      && next[i].entries[|schedule[i].entries|] == Assignment(activityId, selectedChildren, SI.CoreLevel)
    ensures forall i :: 0 <= i < |next| && schedule[i].blockId != Centers ==> next[i] == schedule[i]
  {
    MapSeq(schedule, AddIfCenters(Assignment(activityId, selectedChildren, SI.CoreLevel)))
  }

  function LevelAt(idx: int, val: SI.ActivityLevel): (nat, Assignment) -> Assignment
  {
    (i: nat, x: Assignment) => if i == idx then x.(level := val) else x
  }

  function SetLevelIn(blockId: string, idx: int, val: SI.ActivityLevel): Block -> Block
  {
    (b: Block) => if b.blockId == blockId then b.(entries := MapIndexed(b.entries, LevelAt(idx, val))) else b
  }

  /**
   * Plan.tsx:39-42: in every block with the given id, assignment `idx` gets
   * the new level and keeps its activity and children; every other
   * assignment and every other block is unchanged.
   */
  function SetLevel(schedule: seq<Block>, blockId: string, idx: int, val: SI.ActivityLevel): (next: seq<Block>)
    ensures |next| == |schedule|
    ensures forall i :: 0 <= i < |next| && schedule[i].blockId != blockId ==> next[i] == schedule[i]
    ensures forall i :: 0 <= i < |next| && schedule[i].blockId == blockId ==>
      next[i].blockId == blockId && next[i].title == schedule[i].title
      && |next[i].entries| == |schedule[i].entries|
      && forall j :: 0 <= j < |next[i].entries| ==>
           next[i].entries[j] == if j == idx then schedule[i].entries[j].(level := val) else schedule[i].entries[j]
  {
    MapSeq(schedule, SetLevelIn(blockId, idx, val))
  }

  /** `s.filter((_, i) => i !== idx)` */
  function DropAt<T>(s: seq<T>, idx: int): (r: seq<T>)
    ensures |r| == if 0 <= idx < |s| then |s| - 1 else |s|
    ensures forall j :: 0 <= j < |r| ==> r[j] == if j < idx || idx < 0 then s[j] else s[j + 1]
  {
    if 0 <= idx < |s| then s[..idx] + s[idx + 1..] else s
  }

  function RemoveIn(blockId: string, idx: int): Block -> Block
  {
    (b: Block) => if b.blockId == blockId then b.(entries := DropAt(b.entries, idx)) else b
  }

  /**
   * Plan.tsx:49-51: in every block with the given id, assignment `idx` is
   * deleted and the rest keep their order; other blocks are unchanged.
   */
  function Remove(schedule: seq<Block>, blockId: string, idx: int): (next: seq<Block>)
    ensures |next| == |schedule|
    ensures forall i :: 0 <= i < |next| && schedule[i].blockId != blockId ==> next[i] == schedule[i]
    ensures forall i :: 0 <= i < |next| && schedule[i].blockId == blockId ==>
      next[i].blockId == blockId && next[i].title == schedule[i].title
      && next[i].entries == DropAt(schedule[i].entries, idx)
  {
    MapSeq(schedule, RemoveIn(blockId, idx))
  }

  /** Removing keeps exactly the other assignments: every one but `idx`, as a subsequence. */
  lemma DropAtIsSplice<T>(s: seq<T>, idx: nat)
    requires idx < |s|
    ensures DropAt(s, idx) == s[..idx] + s[idx + 1..]
    ensures multiset(DropAt(s, idx)) + multiset{s[idx]} == multiset(s)
  {
    assert s == s[..idx] + [s[idx]] + s[idx + 1..];
  }

  /** Changing a level and changing it back restores the schedule. */
  lemma SetLevelUndo(schedule: seq<Block>, blockId: string, idx: nat, val: SI.ActivityLevel)
    requires forall i :: 0 <= i < |schedule| && schedule[i].blockId == blockId ==>
      idx < |schedule[i].entries|
    ensures forall i :: 0 <= i < |schedule| && schedule[i].blockId == blockId ==>
      SetLevel(SetLevel(schedule, blockId, idx, val), blockId, idx, schedule[i].entries[idx].level)[i] == schedule[i]
  {
    var n1 := SetLevel(schedule, blockId, idx, val);
    forall i | 0 <= i < |schedule| && schedule[i].blockId == blockId
      ensures SetLevel(n1, blockId, idx, schedule[i].entries[idx].level)[i] == schedule[i]
    {
      var n2 := SetLevel(n1, blockId, idx, schedule[i].entries[idx].level);
      assert n2[i].entries == schedule[i].entries;
    }
  }
}
