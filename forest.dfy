/** The value view of the node record: a label, the hierarchy level, the
    branch string the grower fills in, and the children in insertion order. */
module Forest {

  /** Hierarchy level of a root node. */
  const RootHierarchy: nat := 0

  datatype Node = Node(name: string, hierarchy: nat, branch: string, children: seq<Node>)

  /** One outline row after lexing: its depth and its text. */
  datatype Line = Line(depth: nat, text: string)

  /** The forest listed depth-first, children in insertion order, each node
      as its (hierarchy, name) row. */
  function Flatten(ts: seq<Node>): seq<Line>
    decreases ts
  {
    if ts == [] then []
    else [Line(ts[0].hierarchy, ts[0].name)] + Flatten(ts[0].children) + Flatten(ts[1..])
  }

  /** Labels of a forest in depth-first order. */
  function Labels(ts: seq<Node>): seq<string>
    decreases ts
  {
    if ts == [] then [] else [ts[0].name] + Labels(ts[0].children) + Labels(ts[1..])
  }

  /** Every node of `ts` sits at level `h` and its children one level below. */
  predicate Leveled(ts: seq<Node>, h: nat)
    decreases ts
  {
    ts == [] || (ts[0].hierarchy == h && Leveled(ts[0].children, h + 1) && Leveled(ts[1..], h))
  }

  /** No branch string has been filled in yet. */
  predicate Ungrown(ts: seq<Node>)
    decreases ts
  {
    ts == [] || (ts[0].branch == "" && Ungrown(ts[0].children) && Ungrown(ts[1..]))
  }

  /** For the nodes of `ts` listed depth-first from position `base`, the
      position of each node's parent in that listing; the nodes of `ts`
      themselves get `parent` (-1: no parent). */
  function Parents(ts: seq<Node>, base: int, parent: int): (ps: seq<int>)
    ensures |ps| == |Flatten(ts)|
    decreases ts
  {
    if ts == [] then []
    else [parent] + Parents(ts[0].children, base + 1, base)
         + Parents(ts[1..], base + 1 + |Flatten(ts[0].children)|, parent)
  }
}
