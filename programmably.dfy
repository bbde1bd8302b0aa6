/** Building a tree in code: a root made by `NewRoot`, children added with
    `Add`, every new node numbered by the index counter; and the two entry
    points that check the root they are given and reset that counter
    before handing the tree over. The counter is passed explicitly instead
    of living in a process-wide variable. */
module Programmably {
  import opened Errors
  import opened Configuration
  import Forest

  /** The index counter that numbers nodes as they are created. */
  class Counter {
    var value: nat

    constructor ()
      ensures value == 0
    {
      value := 0;
    }

    /** Advances the counter and returns its new value. */
    method Next() returns (v: nat)
      modifies this
      ensures value == old(value) + 1 && v == value
    {
      value := value + 1;
      v := value;
    }

    /** Starts the numbering afresh, before each tree is output or made. */
    method Reset()
      modifies this
      ensures value == 0
    {
      value := 0;
    }
  }

  class Node {
    var name: string
    var hierarchy: nat
    var index: nat
    var parent: Node?
    var children: seq<Node>

    /** A detached node with no children. */
    constructor (text: string, hierarchy: nat, index: nat)
      ensures name == text && this.hierarchy == hierarchy && this.index == index
      ensures parent == null && children == []
    {
      name := text;
      this.hierarchy := hierarchy;
      this.index := index;
      parent := null;
      children := [];
    }

    /** A node is a root exactly when it sits at level zero, the level
        `NewRoot` gives and `Add` never gives to a new child. */
    predicate IsRoot(): (b: bool)
      reads this
      ensures b <==> hierarchy == 0
    {
      hierarchy == Forest.RootHierarchy
    }

    /** No two children carry the same label. */
    predicate DistinctChildNames()
      reads this, children
    {
      forall i, j :: 0 <= i < j < |children| ==> children[i].name != children[j].name
    }

    /** The first child labelled `text`, or null when there is none. */
    method FindChildByText(text: string) returns (c: Node?)
      ensures var k := FirstNamed(children, text);
        if k < |children| then c == children[k] else c == null
    {
      var i := 0;
      while i < |children|
        invariant 0 <= i <= |children|
        invariant forall j :: 0 <= j < i ==> children[j].name != text
      {
        if children[i].name == text {
          FirstNamedAt(children, text, i);
          return children[i];
        }
        i := i + 1;
      }
      FirstNamedNone(children, text);
      return null;
    }

    /** Returns the child labelled `text`, creating it when there is none:
        a new child sits one level below this node, takes the next counter
        value, points back to this node and becomes its last child. When
        the child exists, nothing changes and the counter does not move. */
    method Add(text: string, counter: Counter) returns (child: Node)
      modifies this, counter
      ensures name == old(name) && hierarchy == old(hierarchy) && index == old(index) && parent == old(parent)
      ensures var k := old(FirstNamed(children, text));
        if k < |old(children)| then
          child == old(children)[k] && children == old(children) && counter.value == old(counter.value)
        else
          fresh(child) && child.name == text && child.hierarchy == hierarchy + 1 && !child.IsRoot()
          && child.parent == this && child.children == []
          && counter.value == old(counter.value) + 1 && child.index == counter.value
          && children == old(children) + [child]
      ensures old(DistinctChildNames()) ==> DistinctChildNames()
    {
      var found := FindChildByText(text);
      if found != null {
        return found;
      }
      var idx := counter.Next();
      child := new Node(text, hierarchy + 1, idx);
      child.parent := this;
      children := children + [child];
    }
  }

  /** Position of the first node labelled `text`, or the number of nodes
      when none is. */
  function FirstNamed(cs: seq<Node>, text: string): (k: nat)
    reads cs
    ensures k <= |cs|
    ensures forall j :: 0 <= j < k ==> cs[j].name != text
    ensures k < |cs| ==> cs[k].name == text
    decreases |cs|
  {
    if cs == [] || cs[0].name == text then 0 else 1 + FirstNamed(cs[1..], text)
  }

  lemma {:induction false} FirstNamedAt(cs: seq<Node>, text: string, i: nat)
    requires i < |cs| && cs[i].name == text
    requires forall j :: 0 <= j < i ==> cs[j].name != text
    ensures FirstNamed(cs, text) == i
  {
  }

  lemma {:induction false} FirstNamedNone(cs: seq<Node>, text: string)
    requires forall j :: 0 <= j < |cs| ==> cs[j].name != text
    ensures FirstNamed(cs, text) == |cs|
  {
  }

  /** A new root: level zero, no parent, no children, the next index. */
  method NewRoot(text: string, counter: Counter) returns (root: Node)
    modifies counter
    ensures fresh(root) && root.name == text && root.IsRoot()
    ensures root.parent == null && root.children == []
    ensures counter.value == old(counter.value) + 1 && root.index == counter.value
  {
    var idx := counter.Next();
    root := new Node(text, Forest.RootHierarchy, idx);
  }

  /** The two tree implementations an entry point can hand the root to. */
  datatype TreeKind = SimpleTreeKind | PipelineTreeKind

  /** What each tree does with the checked root and the configuration it is
      handed; these are the trees' own operations, not part of this module. */
  datatype TreeOps = TreeOps(
    outputProgrammably: (TreeKind, Node, Config) -> Outcome,
    mkdirProgrammably: (TreeKind, Node, Config) -> Outcome)

  function TreeFor(massive: bool): (t: TreeKind)
    ensures t == PipelineTreeKind <==> massive
  {
    if massive then PipelineTreeKind else SimpleTreeKind
  }

  /** Checks the root (a missing root first, then one that is not a root),
      leaving the counter alone when either check fails; otherwise resets
      the counter and has the tree the configuration selects print it. */
  method OutputProgrammably(root: Node?, counter: Counter, cfg: Config, trees: TreeOps)
    returns (o: Outcome, tree: Option<TreeKind>)
    modifies counter
    ensures root == null ==> o == Fail(NilNode) && tree == None && counter.value == old(counter.value)
    ensures root != null && !root.IsRoot() ==> o == Fail(NotRoot) && tree == None && counter.value == old(counter.value)
    ensures root != null && root.IsRoot() ==>
      counter.value == 0 && tree == Some(TreeFor(cfg.massive)) && o == trees.outputProgrammably(TreeFor(cfg.massive), root, cfg)
  {
    if root == null {
      return Fail(NilNode), None;
    }
    if !root.IsRoot() {
      return Fail(NotRoot), None;
    }
    counter.Reset();
    var t := TreeFor(cfg.massive);
    return trees.outputProgrammably(t, root, cfg), Some(t);
  }

  /** The same checks and reset as `OutputProgrammably`, before the selected
      tree makes the directories. */
  method MkdirProgrammably(root: Node?, counter: Counter, cfg: Config, trees: TreeOps)
    returns (o: Outcome, tree: Option<TreeKind>)
    modifies counter
    ensures root == null ==> o == Fail(NilNode) && tree == None && counter.value == old(counter.value)
    ensures root != null && !root.IsRoot() ==> o == Fail(NotRoot) && tree == None && counter.value == old(counter.value)
    ensures root != null && root.IsRoot() ==>
      counter.value == 0 && tree == Some(TreeFor(cfg.massive)) && o == trees.mkdirProgrammably(TreeFor(cfg.massive), root, cfg)
  {
    if root == null {
      return Fail(NilNode), None;
    }
    if !root.IsRoot() {
      return Fail(NotRoot), None;
    }
    counter.Reset();
    var t := TreeFor(cfg.massive);
    return trees.mkdirProgrammably(t, root, cfg), Some(t);
  }
}
