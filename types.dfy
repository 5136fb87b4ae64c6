/**
 * The skill-tree data of the visualiser (`src/types.ts`): ladders of nodes
 * linked by a single tree parent, gates on nodes, and the visualiser's
 * activity schema. Optional JSON fields become `Option`s; numbers of months
 * are integers, levels and confidences exact reals.
 */
module Types {
  import opened Common

  /** Typical age range of a node, in months; either end may be missing in the data. */
  datatype AgeBand = AgeBand(typicalStart: Option<int>, typicalEnd: Option<int>)

  datatype GateKind = Prereq | Boost | Block

  datatype Gate = Gate(kind: GateKind, expr: string)

  /** `parentId` is `null` (`None`) for the root of a ladder. */
  datatype Node = Node(
    id: string,
    ladderId: string,
    parentId: Option<string>,
    name: string,
    ageBand: Option<AgeBand>,
    tags: Option<seq<string>>,
    gates: Option<seq<Gate>>)

  datatype Ladder = Ladder(id: string, name: string, rootNodeId: string)

  datatype Genome = Genome(ladders: seq<Ladder>, nodes: seq<Node>)

  /** `meetsExit` is an optional free-text exit criterion; only its presence matters. */
  datatype ActivityLink = ActivityLink(nodeId: string, meetsExit: Option<string>)

  datatype Activity = Activity(
    id: string,
    title: string,
    environment: Option<seq<string>>,
    durationMin: Option<int>,
    links: seq<ActivityLink>,
    tags: Option<seq<string>>)

  /** Per-node progress of a child (`ChildState` entries). */
  datatype NodeState = NodeState(level: real, confidence: real, evidence: int)

  /** The ids of a list of nodes. */
  function NodeIds(nodes: seq<Node>): set<string>
  {
    set n | n in nodes :: n.id
  }
}
