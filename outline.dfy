/** The outline reader: text rows in the Markdown-list style ("- label",
    indented by tabs or by a fixed number of spaces) become a forest.
    The row generator of the library is not part of this model; its
    behaviour is the one fixed by the outline/diagram table in tree_test.go:
    one indentation unit per level, a row hangs below the most recent row one
    level shallower, duplicates are kept, several depth-0 rows give several
    roots. */
module Outline {
  import opened Errors
  import opened Forest

  /** The indentation option: tab (default), two spaces or four spaces. */
  datatype Spaces = Tab | TwoSpaces | FourSpaces

  function Unit(sp: Spaces): (u: string)
    ensures |u| > 0
    ensures u == "\t" || forall i :: 0 <= i < |u| ==> u[i] == ' '
  {
    match sp
    case Tab => "\t"
    case TwoSpaces => "  "
    case FourSpaces => "    "
  }

  /** `k` copies of `u` one after another. */
  function Repeat(u: string, k: nat): string
  {
    if k == 0 then "" else u + Repeat(u, k - 1)
  }

  predicate StartsWith(s: string, p: string)
  {
    |p| <= |s| && s[..|p|] == p
  }

  /** One more leading unit in front of `k` units and the rest. */
  lemma {:induction false} DedentStep(s: string, u: string, t: string, k: nat, rest: string)
    requires StartsWith(s, u) && t == s[|u|..] && t == Repeat(u, k) + rest
    ensures s == Repeat(u, k + 1) + rest
  {
    assert s == u + t;
  }

  /** Splits the leading whole indentation units off `s`. */
  function Dedent(s: string, u: string): (r: (nat, string))
    requires |u| > 0
    ensures s == Repeat(u, r.0) + r.1
    ensures !StartsWith(r.1, u)
    decreases |s|
  {
    if StartsWith(s, u) then
      var t := s[|u|..];
      var r' := Dedent(t, u);
      DedentStep(s, u, t, r'.0, r'.1);
      (r'.0 + 1, r'.1)
    else (0, s)
  }

  predicate IsBlank(c: char)
  {
    c == ' ' || c == '\t'
  }

  function TrimLeft(s: string): (r: string)
    ensures |r| <= |s| && r == s[|s| - |r|..]
    ensures r == [] || !IsBlank(r[0])
    ensures forall i :: 0 <= i < |s| - |r| ==> IsBlank(s[i])
  {
    if s != [] && IsBlank(s[0]) then TrimLeft(s[1..]) else s
  }

  function TrimRight(s: string): (r: string)
    ensures |r| <= |s| && r == s[..|r|]
    ensures r == [] || !IsBlank(r[|r| - 1])
    ensures forall i :: |r| <= i < |s| ==> IsBlank(s[i])
  {
    if s != [] && IsBlank(s[|s| - 1]) then TrimRight(s[..|s| - 1]) else s
  }

  /** Blanks removed at both ends, nothing inside touched. */
  function Trim(s: string): string
  {
    TrimRight(TrimLeft(s))
  }

  /** A label with no blank at either end, so trimming leaves it as it is. */
  predicate Trimmed(s: string)
  {
    s != [] && !IsBlank(s[0]) && !IsBlank(s[|s| - 1])
  }

  /** Reads one row (row number `no`): its indentation units give the depth,
      the text after the `-` bullet, trimmed, gives the label. A row that is
      not a bullet is a malformed hierarchy; an empty label is an invalid
      node name. */
  function LexRow(row: string, sp: Spaces, no: nat): (r: Result<Line>)
    ensures r.Ok? ==> Trimmed(r.value.text)
  {
    var split := Dedent(row, Unit(sp));
    var rest := split.1;
    if rest == [] || rest[0] != '-' then Err(MalformedHierarchy(no))
    else
      var text := Trim(rest[1..]);
      if text == [] then Err(InvalidNodeName(text))
      else Ok(Line(split.0, text))
  }

  lemma {:induction false} DedentRepeat(u: string, k: nat, s: string)
    requires |u| > 0 && !StartsWith(s, u)
    ensures Dedent(Repeat(u, k) + s, u) == (k, s)
  {
    if k == 0 {
      assert Repeat(u, k) + s == s;
    } else {
      var t := Repeat(u, k) + s;
      assert t == u + (Repeat(u, k - 1) + s);
      assert StartsWith(t, u);
      assert t[|u|..] == Repeat(u, k - 1) + s;
      DedentRepeat(u, k - 1, s);
    }
  }

  lemma {:induction false} TrimBulletText(text: string)
    requires Trimmed(text)
    ensures Trim(" " + text) == text
  {
    assert (" " + text)[1..] == text;
    assert TrimLeft(" " + text) == TrimLeft(text);
  }

  /** A bullet row indented by `k` units reads as depth `k`, and its label is
      the text after "- " exactly as written, inner blanks and hyphens
      included. */
  lemma {:induction false} LexRowOk(row: string, sp: Spaces, no: nat, k: nat, rest: string)
    requires Dedent(row, Unit(sp)) == (k, rest)
    requires rest != [] && rest[0] == '-' && Trim(rest[1..]) != []
    ensures LexRow(row, sp, no) == Ok(Line(k, Trim(rest[1..])))
  {
  }

  lemma {:induction false} LexBullet(sp: Spaces, k: nat, text: string, no: nat)
    requires Trimmed(text)
    ensures LexRow(Repeat(Unit(sp), k) + "- " + text, sp, no) == Ok(Line(k, text))
  {
    var u := Unit(sp);
    var rest := "- " + text;
    var row := Repeat(u, k) + "- " + text;
    assert Dedent(row, u) == (k, rest) by {
      assert !StartsWith(rest, u) by {
        assert rest[0] == '-' && u[0] != '-';
        if |u| <= |rest| { assert rest[..|u|][0] != u[0]; }
      }
      assert row == Repeat(u, k) + rest;
      DedentRepeat(u, k, rest);
    }
    assert Trim(rest[1..]) == text by {
      assert rest[1..] == " " + text;
      TrimBulletText(text);
    }
    LexRowOk(row, sp, no, k, rest);
  }

  /** Each row is at most one level deeper than the row before it; the first
      at most one deeper than `prev` (-1: nothing before). This is exactly when
      every row finds a parent on the ancestor stack. */
  ghost predicate Stepwise(ls: seq<Line>, prev: int)
  {
    && (|ls| > 0 ==> ls[0].depth <= prev + 1)
    && forall i, j :: 0 <= i < j < |ls| && j == i + 1 ==> ls[j].depth <= ls[i].depth + 1
  }

  /** Every row read on its own; row numbers start at 0. */
  function LexRows(rows: seq<string>, sp: Spaces): (lexed: seq<Result<Line>>)
    ensures |lexed| == |rows|
    ensures forall i :: 0 <= i < |rows| ==> lexed[i] == LexRow(rows[i], sp, i)
  {
    seq(|rows|, i requires 0 <= i < |rows| => LexRow(rows[i], sp, i))
  }

  /** Every row is a well-formed bullet and no row is more than one level
      deeper than the row before it (the first: than `prev`). */
  ghost predicate Attachable(lexed: seq<Result<Line>>, prev: int)
  {
    && (forall i :: 0 <= i < |lexed| ==> lexed[i].Ok?)
    && (|lexed| > 0 ==> lexed[0].value.depth <= prev + 1)
    && (forall i, j :: 0 <= i < j < |lexed| && j == i + 1 ==> lexed[j].value.depth <= lexed[i].value.depth + 1)
  }

  /** Walks the lexed rows in order, starting at row number `no` after a row
      at depth `prev` (-1: none), and stops at the first row that is not a
      well-formed bullet or that is more than one level deeper than its
      predecessor, i.e. a row with no parent to attach to. */
  function Check(lexed: seq<Result<Line>>, no: nat, prev: int): (r: Result<seq<Line>>)
    requires prev >= -1
    ensures r.Ok? <==> Attachable(lexed, prev)
    ensures r.Ok? ==> |r.value| == |lexed| && Stepwise(r.value, prev)
    ensures r.Ok? ==> forall i :: 0 <= i < |lexed| ==> lexed[i] == Ok(r.value[i])
    decreases |lexed|
  {
    if lexed == [] then Ok([])
    else if lexed[0].Err? then Err(lexed[0].error)
    else if lexed[0].value.depth > prev + 1 then Err(MalformedHierarchy(no))
    else
      var tail := Check(lexed[1..], no + 1, lexed[0].value.depth);
      if tail.Err? then tail
      else Ok([lexed[0].value] + tail.value)
  }

  /** Rows that form a list of sibling subtrees at depth `d`: the first row is
      at depth `d`, none is shallower, and depths grow by at most one. */
  ghost predicate Block(ls: seq<Line>, d: nat)
  {
    && (|ls| > 0 ==> ls[0].depth == d)
    && (forall i :: 0 <= i < |ls| ==> ls[i].depth >= d)
    && Stepwise(ls, d - 1)
  }

  /** Where the subtree of the first row ends: the first later row that is not
      deeper than `d`, or the end. */
  function SubtreeEnd(ls: seq<Line>, d: nat): (k: nat)
    requires |ls| > 0
    ensures 1 <= k <= |ls|
    ensures forall j :: 1 <= j < k ==> ls[j].depth > d
    ensures k < |ls| ==> ls[k].depth <= d
    decreases |ls|
  {
    if |ls| == 1 || ls[1].depth <= d then 1 else 1 + SubtreeEnd(ls[1..], d)
  }

  /** Consecutive rows of a block, all at level `e` or deeper and starting
      at level `e`, form a block at level `e`. */
  lemma {:induction false} SliceBlock(ls: seq<Line>, d: nat, lo: nat, hi: nat, s: seq<Line>, e: nat)
    requires Block(ls, d) && lo <= hi <= |ls| && s == ls[lo..hi]
    requires forall i :: lo <= i < hi ==> ls[i].depth >= e
    requires lo < hi ==> ls[lo].depth == e
    ensures Block(s, e)
  {
    forall i | 0 <= i < |s| ensures s[i].depth >= e {
      assert s[i] == ls[i + lo];
    }
    forall i, j | 0 <= i < j < |s| && j == i + 1 ensures s[j].depth <= s[i].depth + 1 {
      assert s[i] == ls[i + lo] && s[j] == ls[j + lo];
    }
    if s != [] {
      assert s[0] == ls[lo];
    }
  }

  /** A block splits into its first row, that row's subtree rows (a block
      one level deeper) and the following siblings' rows (a block at the
      same level). */
  lemma {:induction false} BlockSplit(ls: seq<Line>, d: nat, k: nat, kl: seq<Line>, rl: seq<Line>)
    requires Block(ls, d) && ls != [] && k == SubtreeEnd(ls, d)
    requires kl == ls[1..k] && rl == ls[k..]
    ensures Block(kl, d + 1) && Block(rl, d)
    ensures ls == [Line(d, ls[0].text)] + kl + rl
  {
    SliceBlock(ls, d, 1, k, kl, d + 1);
    SliceBlock(ls, d, k, |ls|, rl, d);
    assert ls == [ls[0]] + kl + rl;
  }

  /** The listing, levels and branch strings of a forest with a first node
      `n` followed by `rest`. */
  lemma {:induction false} ForestCons(ts: seq<Node>, n: Node, rest: seq<Node>, d: nat)
    requires ts == [n] + rest
    ensures Flatten(ts) == [Line(n.hierarchy, n.name)] + Flatten(n.children) + Flatten(rest)
    ensures Leveled(ts, d) <==> n.hierarchy == d && Leveled(n.children, d + 1) && Leveled(rest, d)
    ensures Ungrown(ts) <==> n.branch == "" && Ungrown(n.children) && Ungrown(rest)
  {
    assert ts[0] == n && ts[1..] == rest;
  }

  /** Assembles a block of rows into sibling trees at level `d`: a row's
      children are the rows of its subtree one level deeper. */
  function ParseBlock(ls: seq<Line>, d: nat): seq<Node>
    decreases |ls|
  {
    if ls == [] then []
    else
      var k := SubtreeEnd(ls, d);
      [Node(ls[0].text, d, "", ParseBlock(ls[1..k], d + 1))] + ParseBlock(ls[k..], d)
  }

  /** Assembling a block gives nodes at the block's level and below, with no
      branch strings yet, and listing them depth-first gives the rows back. */
  lemma {:induction false} ParseBlockShape(ls: seq<Line>, d: nat)
    requires Block(ls, d)
    ensures Leveled(ParseBlock(ls, d), d) && Ungrown(ParseBlock(ls, d))
    ensures Flatten(ParseBlock(ls, d)) == ls
    decreases |ls|
  {
    if ls != [] {
      var k := SubtreeEnd(ls, d);
      var kl, rl := ls[1..k], ls[k..];
      BlockSplit(ls, d, k, kl, rl);
      ParseBlockShape(kl, d + 1);
      ParseBlockShape(rl, d);
      var n := Node(ls[0].text, d, "", ParseBlock(kl, d + 1));
      var rest := ParseBlock(rl, d);
      assert ParseBlock(ls, d) == [n] + rest;
      ForestCons([n] + rest, n, rest, d);
    }
  }

  /** Reads a whole outline into a forest of roots at the root level. It
      succeeds exactly when every row is a bullet with a label and no row is
      indented more than one level past the row above it (so the first row is
      not indented); then every row becomes one node, in row order, at the
      depth its indentation gives, with the label the row carries. */
  function Parse(rows: seq<string>, sp: Spaces): (r: Result<seq<Node>>)
    ensures r.Ok? <==> Attachable(LexRows(rows, sp), -1)
    ensures r.Ok? ==> Leveled(r.value, RootHierarchy) && Ungrown(r.value)
    ensures r.Ok? ==> |Flatten(r.value)| == |rows|
    ensures r.Ok? ==> forall i :: 0 <= i < |rows| ==> LexRow(rows[i], sp, i) == Ok(Flatten(r.value)[i])
  {
    var c := Check(LexRows(rows, sp), 0, -1);
    if c.Err? then Err(c.error)
    else
      ParseBlockShape(c.value, RootHierarchy);
      Ok(ParseBlock(c.value, RootHierarchy))
  }

  lemma {:induction false} BlockCons(l: Line, a: seq<Line>, b: seq<Line>, d: nat)
    requires l.depth == d && Block(a, d + 1) && Block(b, d)
    ensures Block([l] + a + b, d)
  {
    var f := [l] + a + b;
    forall i, j | 0 <= i < j < |f| && j == i + 1 ensures f[j].depth <= f[i].depth + 1 {
      if j <= |a| {
        if j > 1 { assert f[j] == a[j - 1] && f[i] == a[i - 1]; }
      } else if j == |a| + 1 {
        assert f[j] == b[0];
      } else {
        assert f[j] == b[j - 1 - |a|] && f[i] == b[i - 1 - |a|];
      }
    }
    forall i | 0 <= i < |f| ensures f[i].depth >= d {
      if 0 < i <= |a| { assert f[i] == a[i - 1]; }
      else if i > |a| { assert f[i] == b[i - 1 - |a|]; }
    }
  }

  /** A leveled forest lists as a block of rows. */
  lemma {:induction false} FlattenBlock(ts: seq<Node>, d: nat)
    requires Leveled(ts, d)
    ensures Block(Flatten(ts), d)
    decreases ts
  {
    if ts != [] {
      FlattenBlock(ts[0].children, d + 1);
      FlattenBlock(ts[1..], d);
      BlockCons(Line(d, ts[0].name), Flatten(ts[0].children), Flatten(ts[1..]), d);
    }
  }

  lemma {:induction false} SubtreeEndIs(ls: seq<Line>, d: nat, k: nat)
    requires 1 <= k <= |ls|
    requires forall j :: 1 <= j < k ==> ls[j].depth > d
    requires k < |ls| ==> ls[k].depth <= d
    ensures SubtreeEnd(ls, d) == k
  {
  }

  lemma {:induction false} SplitListing(ls: seq<Line>, n: Line, fk: seq<Line>, fr: seq<Line>, d: nat)
    requires ls == [n] + fk + fr && n.depth == d
    requires forall j :: 0 <= j < |fk| ==> fk[j].depth > d
    requires fr != [] ==> fr[0].depth <= d
    ensures SubtreeEnd(ls, d) == 1 + |fk|
    ensures ls[1..1 + |fk|] == fk && ls[1 + |fk|..] == fr
  {
    var k := 1 + |fk|;
    forall j | 1 <= j < k ensures ls[j].depth > d {
      assert ls[j] == fk[j - 1];
    }
    if k < |ls| { assert ls[k] == fr[0]; }
    SubtreeEndIs(ls, d, k);
    assert ls[1..k] == fk;
    assert ls[k..] == fr;
  }

  /** Assembling a row followed by its subtree rows and then its later
      siblings' rows gives that row's node in front of its siblings. */
  lemma {:induction false} ParseCons(ls: seq<Line>, n: Line, fk: seq<Line>, fr: seq<Line>, d: nat)
    requires ls == [n] + fk + fr && n.depth == d
    requires forall j :: 0 <= j < |fk| ==> fk[j].depth > d
    requires fr != [] ==> fr[0].depth <= d
    ensures ParseBlock(ls, d) == [Node(n.text, d, "", ParseBlock(fk, d + 1))] + ParseBlock(fr, d)
  {
    SplitListing(ls, n, fk, fr, d);
    var k := SubtreeEnd(ls, d);
    assert ParseBlock(ls, d)
           == [Node(ls[0].text, d, "", ParseBlock(ls[1..k], d + 1))] + ParseBlock(ls[k..], d);
    assert ls[0] == n;
  }

  lemma {:induction false} SplitForest(ts: seq<Node>)
    requires ts != []
    ensures ts == [ts[0]] + ts[1..]
  {
  }

  /** Reading back the depth-first listing `ls` of a leveled forest gives
      the forest itself: the assembly loses nothing and invents nothing. */
  lemma {:induction false} ParseFlatten(ts: seq<Node>, ls: seq<Line>, d: nat)
    requires ls == Flatten(ts) && Leveled(ts, d) && Ungrown(ts)
    ensures Block(ls, d) && ParseBlock(ls, d) == ts
    decreases ts
  {
    if ts != [] {
      var n := Line(d, ts[0].name);
      var fk, fr := Flatten(ts[0].children), Flatten(ts[1..]);
      SplitForest(ts);
      ForestCons(ts, ts[0], ts[1..], d);
      ParseFlatten(ts[0].children, fk, d + 1);
      ParseFlatten(ts[1..], fr, d);
      BlockCons(n, fk, fr, d);
      ParseCons(ls, n, fk, fr, d);
      assert Node(n.text, d, "", ts[0].children) == ts[0];
    }
  }

  /** The outline row that writes one line with the given indentation. */
  function Bullet(l: Line, sp: Spaces): string
  {
    Repeat(Unit(sp), l.depth) + "- " + l.text
  }

  /** The outline text of a forest: one bullet row per node, depth-first. */
  function OutlineOf(ts: seq<Node>, sp: Spaces): (rows: seq<string>)
    ensures |rows| == |Flatten(ts)|
  {
    var ls := Flatten(ts);
    seq(|ls|, i requires 0 <= i < |ls| => Bullet(ls[i], sp))
  }

  /** Every label can be written as a bullet and read back unchanged. */
  predicate Writable(ts: seq<Node>)
  {
    forall l :: l in Flatten(ts) ==> Trimmed(l.text)
  }

  lemma {:induction false} LexOutline(ts: seq<Node>, sp: Spaces)
    requires Writable(ts)
    ensures forall i :: 0 <= i < |Flatten(ts)| ==> LexRows(OutlineOf(ts, sp), sp)[i] == Ok(Flatten(ts)[i])
  {
    var ls := Flatten(ts);
    var rows := OutlineOf(ts, sp);
    forall i | 0 <= i < |ls| ensures LexRows(rows, sp)[i] == Ok(ls[i]) {
      assert ls[i] in ls;
      assert rows[i] == Bullet(ls[i], sp);
      LexBullet(sp, ls[i].depth, ls[i].text, i);
    }
  }

  lemma {:induction false} CheckLexed(lexed: seq<Result<Line>>, ls: seq<Line>)
    requires |lexed| == |ls| && Stepwise(ls, -1)
    requires forall i :: 0 <= i < |ls| ==> lexed[i] == Ok(ls[i])
    ensures Check(lexed, 0, -1) == Ok(ls)
  {
    assert Attachable(lexed, -1);
    var c := Check(lexed, 0, -1);
    assert c.value == ls;
  }

  /** Writing a forest as an outline, with any of the three indentation
      options, and reading it back with the same option gives the forest. */
  lemma {:induction false} ParseOutline(ts: seq<Node>, sp: Spaces)
    requires Leveled(ts, RootHierarchy) && Ungrown(ts) && Writable(ts)
    ensures Parse(OutlineOf(ts, sp), sp) == Ok(ts)
  {
    LexOutline(ts, sp);
    ParseFlatten(ts, Flatten(ts), RootHierarchy);
    CheckLexed(LexRows(OutlineOf(ts, sp), sp), Flatten(ts));
  }

  /** Position of the last row before row `i` that is at depth `e`, or -1. */
  function LastAt(ls: seq<Line>, i: nat, e: int): (j: int)
    requires i <= |ls|
    ensures -1 <= j < i
    ensures j >= 0 ==> ls[j].depth == e
    ensures forall m :: j < m < i ==> ls[m].depth != e
  {
    if i == 0 then -1 else if ls[i - 1].depth == e then i - 1 else LastAt(ls, i - 1, e)
  }

  /** Looking back from inside a prefix never reaches past it. */
  lemma {:induction false} LastAtPrefix(ab: seq<Line>, a: seq<Line>, b: seq<Line>, i: nat, e: int)
    requires ab == a + b && i <= |a|
    ensures LastAt(ab, i, e) == LastAt(a, i, e)
    decreases i
  {
    if i > 0 {
      assert ab[i - 1] == a[i - 1];
      LastAtPrefix(ab, a, b, i - 1, e);
    }
  }

  /** A row found looking back inside a suffix keeps its position, shifted. */
  lemma {:induction false} LastAtSuffix(ab: seq<Line>, a: seq<Line>, b: seq<Line>, i: nat, j: nat, e: int)
    requires ab == a + b && j <= |b| && i == |a| + j && LastAt(b, j, e) >= 0
    ensures LastAt(ab, i, e) == |a| + LastAt(b, j, e)
    decreases j
  {
    assert ab[i - 1] == b[j - 1];
    if b[j - 1].depth != e {
      LastAtSuffix(ab, a, b, i - 1, j - 1, e);
    }
  }

  /** In a block at depth `d`, every row deeper than `d` has, above it, a
      row at each level between `d` and its own. */
  lemma {:induction false} LastAtExists(ls: seq<Line>, d: nat, i: nat, e: int)
    requires Block(ls, d) && i < |ls| && d <= e < ls[i].depth
    ensures LastAt(ls, i, e) >= 0
    decreases i
  {
    assert i > 0;
    assert ls[i].depth <= ls[i - 1].depth + 1;
    if ls[i - 1].depth != e {
      LastAtExists(ls, d, i - 1, e);
    }
  }

  /** Looking back from a row of a node's subtree for a row at the node's
      own depth finds the node, since every subtree row is deeper. */
  lemma {:induction false} LastAtOwner(lk: seq<Line>, l: Line, fk: seq<Line>, i: nat, e: int)
    requires lk == [l] + fk && e == l.depth && 1 <= i <= |fk|
    requires forall j :: 0 <= j < |fk| ==> fk[j].depth > l.depth
    ensures LastAt(lk, i, e) == 0
    decreases i
  {
    if i > 1 {
      assert lk[i - 1] == fk[i - 2];
      LastAtOwner(lk, l, fk, i - 1, e);
    } else {
      assert lk[0] == l;
    }
  }

  lemma {:induction false} IndexBefore<T>(x: T, b: seq<T>, c: seq<T>, i: nat)
    requires i <= |b|
    ensures ([x] + b + c)[i] == if i == 0 then x else b[i - 1]
  {
  }

  lemma {:induction false} IndexAfter<T>(x: T, b: seq<T>, c: seq<T>, i: nat, j: nat)
    requires i == 1 + |b| + j && j < |c|
    ensures ([x] + b + c)[i] == c[j]
  {
  }

  /** One entry of a parent listing within the first node's subtree. */
  lemma {:induction false} ParentsHead(ts: seq<Node>, base: int, parent: int, i: nat)
    requires ts != [] && i <= |Flatten(ts[0].children)|
    ensures |Flatten(ts)| > i
    ensures Parents(ts, base, parent)[i]
            == if i == 0 then parent else Parents(ts[0].children, base + 1, base)[i - 1]
  {
    var b := Parents(ts[0].children, base + 1, base);
    var c := Parents(ts[1..], base + 1 + |Flatten(ts[0].children)|, parent);
    assert Parents(ts, base, parent) == [parent] + b + c;
    IndexBefore(parent, b, c, i);
  }

  /** One entry of a parent listing among the first node's following
      siblings, positioned after its subtree. */
  lemma {:induction false} ParentsTail(ts: seq<Node>, base: int, parent: int, i: nat, next: int, j: nat)
    requires ts != [] && j < |Flatten(ts[1..])|
    requires j + 1 + |Flatten(ts[0].children)| == i
    requires next == base + 1 + |Flatten(ts[0].children)|
    ensures i < |Parents(ts, base, parent)|
            && Parents(ts, base, parent)[i] == Parents(ts[1..], next, parent)[j]
  {
    var b := Parents(ts[0].children, base + 1, base);
    var c := Parents(ts[1..], base + 1 + |Flatten(ts[0].children)|, parent);
    assert Parents(ts, base, parent) == [parent] + b + c;
    IndexAfter(parent, b, c, i, j);
  }

  /** A row of a node's subtree hangs below the node itself when it is one
      level deeper, else below the row its own subtree listing names. */
  lemma {:induction false} SubtreeParent(ls: seq<Line>, l: Line, fk: seq<Line>, fr: seq<Line>, d: nat, i: nat, base: int, p: int)
    requires ls == [l] + fk + fr && l.depth == d && Block(fk, d + 1) && 1 <= i <= |fk|
    requires p == if fk[i - 1].depth == d + 1 then base
                  else base + 1 + LastAt(fk, i - 1, fk[i - 1].depth - 1)
    ensures ls[i].depth > d && p == base + LastAt(ls, i, ls[i].depth - 1)
  {
    var e := ls[i].depth - 1;
    assert ls[i] == fk[i - 1];
    var lk := [l] + fk;
    LastAtPrefix(ls, lk, fr, i, e);
    if e == d {
      LastAtOwner(lk, l, fk, i, e);
    } else {
      LastAtExists(fk, d + 1, i - 1, e);
      LastAtSuffix(lk, [l], fk, i, i - 1, e);
    }
  }

  /** A row among a node's following siblings hangs where the siblings'
      own listing says, shifted past the node and its subtree. */
  lemma {:induction false} SiblingParent(ls: seq<Line>, l: Line, fk: seq<Line>, fr: seq<Line>, d: nat, i: nat, j: nat, base: int, parent: int, p: int)
    requires ls == [l] + fk + fr && Block(fr, d) && j < |fr| && i == 1 + |fk| + j
    requires p == if fr[j].depth == d then parent
                  else base + 1 + |fk| + LastAt(fr, j, fr[j].depth - 1)
    ensures ls[i].depth >= d
    ensures p == if ls[i].depth == d then parent else base + LastAt(ls, i, ls[i].depth - 1)
  {
    assert ls[i] == fr[j];
    if fr[j].depth != d {
      var e := ls[i].depth - 1;
      LastAtExists(fr, d, j, e);
      LastAtSuffix(ls, [l] + fk, fr, i, j, e);
    }
  }

  /** The parent of a row in the first node's subtree, from where the
      subtree's own listing `fk` puts it. */
  lemma {:induction false} SubtreeCase(ts: seq<Node>, ls: seq<Line>, fk: seq<Line>, d: nat, base: int, parent: int, i: nat)
    requires ls == Flatten(ts) && ts != [] && fk == Flatten(ts[0].children)
    requires Leveled(ts, d) && 1 <= i <= |fk|
    requires Parents(ts[0].children, base + 1, base)[i - 1]
             == if fk[i - 1].depth == d + 1 then base
                else base + 1 + LastAt(fk, i - 1, fk[i - 1].depth - 1)
    ensures ls[i].depth > d
    ensures Parents(ts, base, parent)[i] == base + LastAt(ls, i, ls[i].depth - 1)
  {
    var l, fr := Line(d, ts[0].name), Flatten(ts[1..]);
    assert ls == [l] + fk + fr;
    ParentsHead(ts, base, parent, i);
    var p := Parents(ts[0].children, base + 1, base)[i - 1];
    FlattenBlock(ts[0].children, d + 1);
    SubtreeParent(ls, l, fk, fr, d, i, base, p);
  }

  /** The parent of a row after the first node's subtree, from where the
      following siblings' own listing `fr` puts it. */
  lemma {:induction false} SiblingCase(ts: seq<Node>, ls: seq<Line>, fr: seq<Line>, d: nat, base: int, parent: int, i: nat, j: nat, next: int)
    requires ls == Flatten(ts) && ts != [] && fr == Flatten(ts[1..])
    requires Leveled(ts, d) && i < |ls| && j < |fr|
    requires i == 1 + |Flatten(ts[0].children)| + j && next == base + 1 + |Flatten(ts[0].children)|
    requires Parents(ts[1..], next, parent)[j]
             == if fr[j].depth == d then parent
                else next + LastAt(fr, j, fr[j].depth - 1)
    ensures ls[i].depth >= d
    ensures Parents(ts, base, parent)[i]
            == if ls[i].depth == d then parent else base + LastAt(ls, i, ls[i].depth - 1)
  {
    var l, fk := Line(d, ts[0].name), Flatten(ts[0].children);
    assert ls == [l] + fk + fr;
    ParentsTail(ts, base, parent, i, next, j);
    var p := Parents(ts[1..], next, parent)[j];
    FlattenBlock(ts[1..], d);
    SiblingParent(ls, l, fk, fr, d, i, j, base, parent, p);
  }

  /** In a leveled forest listed as `ls`, a node at the forest's own level
      hangs below `parent`, and every deeper node hangs below the most recent
      earlier row exactly one level shallower. */
  lemma {:induction false} ParentRule(ts: seq<Node>, ls: seq<Line>, d: nat, base: int, parent: int, i: nat)
    requires ls == Flatten(ts) && Leveled(ts, d) && i < |ls|
    ensures ls[i].depth >= d
    ensures Parents(ts, base, parent)[i]
            == if ls[i].depth == d then parent else base + LastAt(ls, i, ls[i].depth - 1)
    decreases ts
  {
    var fk, fr := Flatten(ts[0].children), Flatten(ts[1..]);
    SplitForest(ts);
    ForestCons(ts, ts[0], ts[1..], d);
    var k := 1 + |fk|;
    if i == 0 {
      ParentsHead(ts, base, parent, i);
    } else if i < k {
      ParentRule(ts[0].children, fk, d + 1, base + 1, base, i - 1);
      SubtreeCase(ts, ls, fk, d, base, parent, i);
    } else {
      var j, next := i - k, base + k;
      ParentRule(ts[1..], fr, d, next, parent, j);
      SiblingCase(ts, ls, fr, d, base, parent, i, j, next);
    }
  }

  /** ParentRule for a whole well-formed forest, with roots at position -1. */
  lemma {:induction false} ForestParents(ts: seq<Node>, ls: seq<Line>, i: nat)
    requires ls == Flatten(ts) && Leveled(ts, RootHierarchy) && i < |ls|
    ensures ls[i].depth == RootHierarchy ==> Parents(ts, 0, -1)[i] == -1
    ensures ls[i].depth > RootHierarchy ==>
              0 <= LastAt(ls, i, ls[i].depth - 1) == Parents(ts, 0, -1)[i]
  {
    FlattenBlock(ts, RootHierarchy);
    ParentRule(ts, ls, RootHierarchy, 0, -1, i);
    if ls[i].depth > RootHierarchy {
      LastAtExists(ls, RootHierarchy, i, ls[i].depth - 1);
    }
  }
}
