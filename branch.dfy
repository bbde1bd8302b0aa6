/** The branch grower and the plain diagram. Growing fills in every node's
    branch string: a root gets none; any other node gets the segments its
    ancestors below the root leave (blank below a last child, a vertical
    bar below any other) followed by its own connector (the last-child one
    for the last of its siblings, the intermedial one otherwise). The plain
    diagram then shows, depth-first, a root's label alone and every other
    node's branch, a blank and its label, one row per node. The grower and
    the row printer are not among the modelled files; this is the behaviour
    the diagram table in tree_test.go fixes. */
module Branch {
  import opened Forest

  /** The string drawn before a node's own label (`directly`) and the one it
      leaves in front of its descendants' connectors (`indirectly`). */
  datatype Format = Format(directly: string, indirectly: string)

  /** The format of a last child and that of any other child. */
  datatype Formats = Formats(last: Format, intermedial: Format)

  function FormatOf(fm: Formats, last: bool): Format
  {
    if last then fm.last else fm.intermedial
  }

  // ---------------------------------------------------------------------
  // Growing, top-down

  /** Grows the sibling list `ts` whose ancestors have left `prefix`: each
      node's branch is `prefix` and its connector, and its children inherit
      `prefix` and its segment. */
  function GrowSiblings(ts: seq<Node>, prefix: string, fm: Formats): (gs: seq<Node>)
    ensures |gs| == |ts|
    decreases ts
  {
    if ts == [] then []
    else
      var f := FormatOf(fm, |ts| == 1);
      [ts[0].(branch := prefix + f.directly, children := GrowSiblings(ts[0].children, prefix + f.indirectly, fm))]
        + GrowSiblings(ts[1..], prefix, fm)
  }

  /** Grows a forest: roots get no branch, their children start afresh. */
  function GrowRoots(ts: seq<Node>, fm: Formats): (gs: seq<Node>)
    ensures |gs| == |ts|
    ensures forall i :: 0 <= i < |ts| ==>
      gs[i] == ts[i].(branch := "", children := GrowSiblings(ts[i].children, "", fm))
    decreases ts
  {
    if ts == [] then []
    else [ts[0].(branch := "", children := GrowSiblings(ts[0].children, "", fm))] + GrowRoots(ts[1..], fm)
  }

  /** Branch strings of a forest in depth-first order. */
  function Branches(ts: seq<Node>): (bs: seq<string>)
    ensures |bs| == |Flatten(ts)|
    decreases ts
  {
    if ts == [] then [] else [ts[0].branch] + Branches(ts[0].children) + Branches(ts[1..])
  }

  lemma {:induction false} GrowSiblingsCons(ts: seq<Node>, prefix: string, fm: Formats)
    requires ts != []
    ensures GrowSiblings(ts, prefix, fm)
            == [ts[0].(branch := prefix + FormatOf(fm, |ts| == 1).directly,
                       children := GrowSiblings(ts[0].children, prefix + FormatOf(fm, |ts| == 1).indirectly, fm))]
               + GrowSiblings(ts[1..], prefix, fm)
  {
  }

  /** The `i`-th of grown siblings keeps its label, level and children's
      labels, gets `prefix` and the last-child connector exactly when it is
      the last sibling (the intermedial one otherwise), and its children
      inherit `prefix` and the matching segment. */
  lemma {:induction false} SiblingConnector(ts: seq<Node>, prefix: string, fm: Formats, i: nat)
    requires i < |ts|
    ensures GrowSiblings(ts, prefix, fm)[i].name == ts[i].name
    ensures GrowSiblings(ts, prefix, fm)[i].hierarchy == ts[i].hierarchy
    ensures GrowSiblings(ts, prefix, fm)[i].branch
            == prefix + (if i == |ts| - 1 then fm.last.directly else fm.intermedial.directly)
    ensures GrowSiblings(ts, prefix, fm)[i].children
            == GrowSiblings(ts[i].children, prefix + FormatOf(fm, i == |ts| - 1).indirectly, fm)
    decreases i
  {
    GrowSiblingsCons(ts, prefix, fm);
    if i > 0 {
      SiblingConnector(ts[1..], prefix, fm, i - 1);
      assert ts[1..][i - 1] == ts[i];
    }
  }

  /** Exactly one of a non-empty sibling list, the last, gets the last-child
      connector, provided the two connectors differ. */
  lemma {:induction false} OneLastConnector(ts: seq<Node>, prefix: string, fm: Formats, i: nat)
    requires i < |ts| && fm.last.directly != fm.intermedial.directly
    ensures GrowSiblings(ts, prefix, fm)[i].branch == prefix + fm.last.directly <==> i == |ts| - 1
  {
    SiblingConnector(ts, prefix, fm, i);
    var a, b := prefix + fm.intermedial.directly, prefix + fm.last.directly;
    assert a[|prefix|..] == fm.intermedial.directly && b[|prefix|..] == fm.last.directly;
  }

  lemma {:induction false} ListingCons(ts: seq<Node>, n: Node, rest: seq<Node>)
    requires ts == [n] + rest
    ensures Flatten(ts) == [Line(n.hierarchy, n.name)] + Flatten(n.children) + Flatten(rest)
  {
    assert ts[0] == n && ts[1..] == rest;
  }

  lemma {:induction false} BranchesCons(ts: seq<Node>, n: Node, rest: seq<Node>)
    requires ts == [n] + rest
    ensures Branches(ts) == [n.branch] + Branches(n.children) + Branches(rest)
  {
    assert ts[0] == n && ts[1..] == rest;
  }

  /** Growing changes branch strings only: the depth-first listing of
      levels and labels is the same before and after. */
  lemma {:induction false} GrowSiblingsListing(ts: seq<Node>, prefix: string, fm: Formats)
    ensures Flatten(GrowSiblings(ts, prefix, fm)) == Flatten(ts)
    decreases ts
  {
    if ts != [] {
      var f := FormatOf(fm, |ts| == 1);
      var kids := GrowSiblings(ts[0].children, prefix + f.indirectly, fm);
      var rest := GrowSiblings(ts[1..], prefix, fm);
      var n := ts[0].(branch := prefix + f.directly, children := kids);
      GrowSiblingsCons(ts, prefix, fm);
      ListingCons([n] + rest, n, rest);
      GrowSiblingsListing(ts[0].children, prefix + f.indirectly, fm);
      GrowSiblingsListing(ts[1..], prefix, fm);
      ListingCons(ts, ts[0], ts[1..]);
    }
  }

  lemma {:induction false} GrowRootsListing(ts: seq<Node>, fm: Formats)
    ensures Flatten(GrowRoots(ts, fm)) == Flatten(ts)
    decreases ts
  {
    if ts != [] {
      var kids := GrowSiblings(ts[0].children, "", fm);
      var rest := GrowRoots(ts[1..], fm);
      var n := ts[0].(branch := "", children := kids);
      assert GrowRoots(ts, fm) == [n] + rest;
      ListingCons([n] + rest, n, rest);
      GrowSiblingsListing(ts[0].children, "", fm);
      GrowRootsListing(ts[1..], fm);
      ListingCons(ts, ts[0], ts[1..]);
    }
  }

  // ---------------------------------------------------------------------
  // The ancestor walk, node by node

  /** The segments left by ancestors whose last-child flags, from the
      topmost non-root ancestor down, are `flags`. */
  function Indirect(flags: seq<bool>, fm: Formats): string
    decreases |flags|
  {
    if flags == [] then "" else Indirect(flags[..|flags| - 1], fm) + FormatOf(fm, flags[|flags| - 1]).indirectly
  }

  /** The branch of a node reached by the path `path` of last-child flags
      below its root (the node's own flag last): its ancestors' segments,
      root side first, then its own connector; a root has none. */
  function BranchOf(path: seq<bool>, fm: Formats): (b: string)
    ensures path == [] ==> b == ""
  {
    if path == [] then ""
    else Indirect(path[..|path| - 1], fm) + FormatOf(fm, path[|path| - 1]).directly
  }

  /** The last-child flags of the path to each node of the sibling list
      `ts`, depth-first, below ancestors with flags `anc`. */
  function Paths(ts: seq<Node>, anc: seq<bool>): seq<seq<bool>>
    decreases ts
  {
    if ts == [] then []
    else
      var p := anc + [|ts| == 1];
      [p] + Paths(ts[0].children, p) + Paths(ts[1..], anc)
  }

  /** The paths of every node of a forest; a root's path is empty. */
  function RootPaths(ts: seq<Node>): seq<seq<bool>>
    decreases ts
  {
    if ts == [] then [] else [[]] + Paths(ts[0].children, []) + RootPaths(ts[1..])
  }

  /** The branch the ancestor walk gives for each of the paths `ps`. */
  function BranchesOf(ps: seq<seq<bool>>, fm: Formats): (bs: seq<string>)
    ensures |bs| == |ps|
  {
    if ps == [] then [] else [BranchOf(ps[0], fm)] + BranchesOf(ps[1..], fm)
  }

  lemma {:induction false} BranchesOfAppend(a: seq<seq<bool>>, b: seq<seq<bool>>, fm: Formats)
    ensures BranchesOf(a + b, fm) == BranchesOf(a, fm) + BranchesOf(b, fm)
    decreases |a|
  {
    if a == [] {
      assert a + b == b;
    } else {
      var ab := a + b;
      assert ab[0] == a[0] && ab[1..] == a[1..] + b;
      BranchesOfAppend(a[1..], b, fm);
    }
  }

  lemma {:induction false} BranchesOfCons(p: seq<bool>, b: seq<seq<bool>>, c: seq<seq<bool>>, fm: Formats)
    ensures BranchesOf([p] + b + c, fm) == [BranchOf(p, fm)] + BranchesOf(b, fm) + BranchesOf(c, fm)
  {
    BranchesOfAppend([p] + b, c, fm);
    BranchesOfAppend([p], b, fm);
    assert BranchesOf([p], fm) == [BranchOf(p, fm)] + BranchesOf([], fm);
  }

  /** One more step down the path: the ancestors' segments grow by the
      segment of the node stepped through. */
  lemma {:induction false} PathStep(anc: seq<bool>, last: bool, fm: Formats)
    ensures BranchOf(anc + [last], fm) == Indirect(anc, fm) + FormatOf(fm, last).directly
    ensures Indirect(anc + [last], fm) == Indirect(anc, fm) + FormatOf(fm, last).indirectly
  {
    assert (anc + [last])[..|anc|] == anc;
  }

  /** Growing top-down gives every node the branch the ancestor walk gives. */
  lemma {:induction false} GrowSiblingsWalk(ts: seq<Node>, anc: seq<bool>, prefix: string, fm: Formats)
    requires prefix == Indirect(anc, fm)
    ensures Branches(GrowSiblings(ts, prefix, fm)) == BranchesOf(Paths(ts, anc), fm)
    decreases ts
  {
    if ts != [] {
      var last := |ts| == 1;
      var f := FormatOf(fm, last);
      var p := anc + [last];
      var kids := GrowSiblings(ts[0].children, prefix + f.indirectly, fm);
      var rest := GrowSiblings(ts[1..], prefix, fm);
      var n := ts[0].(branch := prefix + f.directly, children := kids);
      GrowSiblingsCons(ts, prefix, fm);
      BranchesCons([n] + rest, n, rest);
      PathStep(anc, last, fm);
      var pk, pr := Paths(ts[0].children, p), Paths(ts[1..], anc);
      GrowSiblingsWalk(ts[0].children, p, prefix + f.indirectly, fm);
      GrowSiblingsWalk(ts[1..], anc, prefix, fm);
      assert Paths(ts, anc) == [p] + pk + pr;
      BranchesOfCons(p, pk, pr, fm);
    }
  }

  /** For a whole forest: each node's grown branch is the one the ancestor
      walk from its parent up to its root gives. */
  lemma {:induction false} GrowRootsWalk(ts: seq<Node>, fm: Formats)
    ensures Branches(GrowRoots(ts, fm)) == BranchesOf(RootPaths(ts), fm)
    decreases ts
  {
    if ts != [] {
      var kids := GrowSiblings(ts[0].children, "", fm);
      var rest := GrowRoots(ts[1..], fm);
      var n := ts[0].(branch := "", children := kids);
      assert GrowRoots(ts, fm) == [n] + rest;
      BranchesCons([n] + rest, n, rest);
      var pk, pr := Paths(ts[0].children, []), RootPaths(ts[1..]);
      GrowSiblingsWalk(ts[0].children, [], "", fm);
      GrowRootsWalk(ts[1..], fm);
      assert RootPaths(ts) == [[]] + pk + pr;
      BranchesOfCons([], pk, pr, fm);
    }
  }

  // ---------------------------------------------------------------------
  // The plain diagram

  /** One diagram row: a root shows its label alone, any other node its
      branch, a blank and its label. */
  function Row(n: Node): (r: string)
    ensures |r| >= |n.name| && r[|r| - |n.name|..] == n.name
    ensures n.hierarchy == RootHierarchy ==> |r| == |n.name|
    ensures n.hierarchy != RootHierarchy ==> r[..|r| - |n.name|] == n.branch + " "
  {
    if n.hierarchy == RootHierarchy then n.name else n.branch + " " + n.name
  }

  /** What a node prints for itself: its row and a line break. */
  function PrettyBranch(n: Node): (p: string)
    ensures |p| > 0 && p[|p| - 1] == '\n' && p[..|p| - 1] == Row(n)
  {
    Row(n) + "\n"
  }

  /** The rows of a forest, depth-first. */
  function Rows(ts: seq<Node>): (rs: seq<string>)
    ensures |rs| == |Flatten(ts)|
    decreases ts
  {
    if ts == [] then [] else [Row(ts[0])] + Rows(ts[0].children) + Rows(ts[1..])
  }

  /** The diagram text of a forest, depth-first. */
  function Diagram(ts: seq<Node>): string
    decreases ts
  {
    if ts == [] then "" else PrettyBranch(ts[0]) + Diagram(ts[0].children) + Diagram(ts[1..])
  }

  /** Rows, each followed by a line break. */
  function JoinLines(rs: seq<string>): string
  {
    if rs == [] then "" else rs[0] + "\n" + JoinLines(rs[1..])
  }

  lemma {:induction false} JoinLinesAppend(a: seq<string>, b: seq<string>)
    ensures JoinLines(a + b) == JoinLines(a) + JoinLines(b)
    decreases |a|
  {
    if a != [] {
      assert (a + b)[0] == a[0] && (a + b)[1..] == a[1..] + b;
      JoinLinesAppend(a[1..], b);
    } else {
      assert a + b == b;
    }
  }

  /** The diagram is its rows, one per line, each ending in a line break. */
  lemma {:induction false} DiagramRows(ts: seq<Node>)
    ensures Diagram(ts) == JoinLines(Rows(ts))
    decreases ts
  {
    if ts != [] {
      DiagramRows(ts[0].children);
      DiagramRows(ts[1..]);
      JoinLinesAppend([Row(ts[0])], Rows(ts[0].children));
      JoinLinesAppend([Row(ts[0])] + Rows(ts[0].children), Rows(ts[1..]));
    }
  }

  lemma {:induction false} SplitFirst<T>(a: seq<T>, b: seq<T>)
    requires a != []
    ensures a == [a[0]] + a[1..] && a + b == [a[0]] + (a[1..] + b)
  {
  }

  lemma {:induction false} Regroup<T>(x: seq<T>, y: seq<T>, z: seq<T>)
    ensures x + (y + z) == x + y + z
  {
  }

  lemma {:induction false} DiagramCons(ts: seq<Node>, n: Node, rest: seq<Node>)
    requires ts == [n] + rest
    ensures Diagram(ts) == PrettyBranch(n) + Diagram(n.children) + Diagram(rest)
  {
    assert ts[0] == n && ts[1..] == rest;
  }

  /** The diagram of consecutive forests is their diagrams one after the
      other: roots are printed in order, none interleaved. */
  lemma {:induction false} DiagramAppend(a: seq<Node>, b: seq<Node>)
    ensures Diagram(a + b) == Diagram(a) + Diagram(b)
    decreases a
  {
    if a != [] {
      var rest := a[1..] + b;
      SplitFirst(a, b);
      DiagramCons(a + b, a[0], rest);
      DiagramCons(a, a[0], a[1..]);
      DiagramAppend(a[1..], b);
      Regroup(PrettyBranch(a[0]) + Diagram(a[0].children), Diagram(a[1..]), Diagram(b));
    } else {
      assert a + b == b;
    }
  }

  /** One more sibling at the end of a prefix adds its diagram at the end. */
  lemma {:induction false} DiagramPrefixStep(ts: seq<Node>, i: nat)
    requires i < |ts|
    ensures Diagram(ts[..i + 1]) == Diagram(ts[..i]) + Diagram([ts[i]])
  {
    assert ts[..i + 1] == ts[..i] + [ts[i]];
    DiagramAppend(ts[..i], [ts[i]]);
  }

  lemma {:induction false} DiagramSingle(n: Node)
    ensures Diagram([n]) == PrettyBranch(n) + Diagram(n.children)
  {
    DiagramCons([n], n, []);
    assert Diagram([]) == "";
  }

  lemma {:induction false} RowsCons(ts: seq<Node>, n: Node, rest: seq<Node>)
    requires ts == [n] + rest
    ensures Rows(ts) == [Row(n)] + Rows(n.children) + Rows(rest)
  {
    assert ts[0] == n && ts[1..] == rest;
  }

  /** Row `i` of a forest is the row of its `i`-th listed node, with that
      node's level, label and branch. */
  lemma {:induction false} RowsPointwise(ts: seq<Node>)
    ensures forall i :: 0 <= i < |Rows(ts)| ==>
      Rows(ts)[i] == Row(Node(Flatten(ts)[i].text, Flatten(ts)[i].depth, Branches(ts)[i], []))
    decreases ts
  {
    if ts != [] {
      var n, rest := ts[0], ts[1..];
      assert ts == [n] + rest;
      RowsCons(ts, n, rest);
      ListingCons(ts, n, rest);
      BranchesCons(ts, n, rest);
      RowsPointwise(n.children);
      RowsPointwise(rest);
      RowOfLine(n);
      forall i | 0 <= i < |Rows(ts)|
        ensures Rows(ts)[i] == Row(Node(Flatten(ts)[i].text, Flatten(ts)[i].depth, Branches(ts)[i], []))
      {
        if i > 0 {
          PickConcat3(Row(n), Rows(n.children), Rows(rest), i);
          PickConcat3(Line(n.hierarchy, n.name), Flatten(n.children), Flatten(rest), i);
          PickConcat3(n.branch, Branches(n.children), Branches(rest), i);
        }
      }
    }
  }

  /** A node's row depends only on its level, label and branch. */
  lemma RowOfLine(n: Node)
    ensures Row(n) == Row(Node(n.name, n.hierarchy, n.branch, []))
  {
  }

  /** Indexing past the head of a three-part concatenation. */
  lemma PickConcat3<T>(x: T, ys: seq<T>, zs: seq<T>, i: nat)
    requires 0 < i < 1 + |ys| + |zs|
    ensures i <= |ys| ==> ([x] + ys + zs)[i] == ys[i - 1]
    ensures i > |ys| ==> ([x] + ys + zs)[i] == zs[i - 1 - |ys|]
  {
  }

  /** The diagram of a grown forest, row by row: a root shows its label,
      any other node the branch the ancestor walk gives it, a blank and its
      label. */
  lemma GrownRows(ts: seq<Node>, fm: Formats)
    ensures |Rows(GrowRoots(ts, fm))| == |Flatten(ts)| == |BranchesOf(RootPaths(ts), fm)|
    ensures forall i :: 0 <= i < |Flatten(ts)| ==>
      Rows(GrowRoots(ts, fm))[i]
        == Row(Node(Flatten(ts)[i].text, Flatten(ts)[i].depth, BranchesOf(RootPaths(ts), fm)[i], []))
  {
    GrowRootsListing(ts, fm);
    GrowRootsWalk(ts, fm);
    RowsPointwise(GrowRoots(ts, fm));
  }

  /** The depth-first listing of consecutive forests is their listings one
      after the other. */
  lemma {:induction false} ListingAppend(a: seq<Node>, b: seq<Node>)
    ensures Flatten(a + b) == Flatten(a) + Flatten(b)
    decreases a
  {
    if a != [] {
      SplitFirst(a, b);
      ListingCons(a + b, a[0], a[1..] + b);
      ListingCons(a, a[0], a[1..]);
      ListingAppend(a[1..], b);
      Regroup([Line(a[0].hierarchy, a[0].name)] + Flatten(a[0].children), Flatten(a[1..]), Flatten(b));
    } else {
      assert a + b == b;
    }
  }

  /** The rows of consecutive forests are their rows one after the other. */
  lemma {:induction false} RowsAppend(a: seq<Node>, b: seq<Node>)
    ensures Rows(a + b) == Rows(a) + Rows(b)
    decreases a
  {
    if a != [] {
      SplitFirst(a, b);
      RowsCons(a + b, a[0], a[1..] + b);
      RowsCons(a, a[0], a[1..]);
      RowsAppend(a[1..], b);
      Regroup([Row(a[0])] + Rows(a[0].children), Rows(a[1..]), Rows(b));
    } else {
      assert a + b == b;
    }
  }

  /** Roots are grown independently of one another: growing consecutive
      forests grows each on its own. */
  lemma {:induction false} GrowRootsAppend(a: seq<Node>, b: seq<Node>, fm: Formats)
    ensures GrowRoots(a + b, fm) == GrowRoots(a, fm) + GrowRoots(b, fm)
    decreases a
  {
    if a != [] {
      SplitFirst(a, b);
      var n := a[0].(branch := "", children := GrowSiblings(a[0].children, "", fm));
      assert (a + b)[0] == a[0] && (a + b)[1..] == a[1..] + b;
      assert GrowRoots(a + b, fm) == [n] + GrowRoots(a[1..] + b, fm);
      assert GrowRoots(a, fm) == [n] + GrowRoots(a[1..], fm);
      GrowRootsAppend(a[1..], b, fm);
      Regroup([n], GrowRoots(a[1..], fm), GrowRoots(b, fm));
    } else {
      assert a + b == b;
    }
  }
}
