/** Output of a grown forest: the plain diagram, written depth-first, and the
    structured encodings (JSON, TOML, YAML), which convert every root into a
    `{value, children}` record and hand the records to an encoder one root at
    a time. The encoders and the writer are collaborators whose code is not
    part of this model; they appear as functions from what they are given to
    the error they return. */
module Spread {
  import opened Errors
  import opened Forest
  import opened Branch

  // ---------------------------------------------------------------------
  // Encodings and the spreader registry

  /** The output encodings, numbered as in the enumeration of the source. */
  const EncodeDefault: int := 0
  const EncodeJSON: int := 1
  const EncodeYAML: int := 2
  const EncodeTOML: int := 3

  datatype SpreaderKind = DefaultSpreader | JSONSpreader | TOMLSpreader | YAMLSpreader

  /** The registry of spreaders, keyed by encoding. */
  const Spreaders: map<int, SpreaderKind> :=
    map[EncodeDefault := DefaultSpreader, EncodeJSON := JSONSpreader,
        EncodeTOML := TOMLSpreader, EncodeYAML := YAMLSpreader]

  /** The registered spreader of an encoding; the plain one for any value
      the registry does not know. */
  function NewSpreader(e: int): (s: SpreaderKind)
    ensures e in Spreaders ==> s == Spreaders[e]
    ensures s == JSONSpreader <==> e == EncodeJSON
    ensures s == YAMLSpreader <==> e == EncodeYAML
    ensures s == TOMLSpreader <==> e == EncodeTOML
    ensures s == DefaultSpreader <==> e !in {EncodeJSON, EncodeYAML, EncodeTOML}
  {
    if e in Spreaders then Spreaders[e] else DefaultSpreader
  }

  /** The encoding each spreader is registered under. */
  function EncodingOf(s: SpreaderKind): (e: int)
    ensures e in Spreaders && Spreaders[e] == s
  {
    match s
    case DefaultSpreader => EncodeDefault
    case JSONSpreader => EncodeJSON
    case TOMLSpreader => EncodeTOML
    case YAMLSpreader => EncodeYAML
  }

  /** The lookup is exact on the four known encodings and falls back to the
      plain spreader everywhere else; each spreader is found again from the
      encoding it is registered under. */
  lemma NewSpreaderChoice(e: int, s: SpreaderKind)
    ensures NewSpreader(e) == JSONSpreader <==> e == EncodeJSON
    ensures NewSpreader(e) == YAMLSpreader <==> e == EncodeYAML
    ensures NewSpreader(e) == TOMLSpreader <==> e == EncodeTOML
    ensures NewSpreader(e) == DefaultSpreader <==> e !in {EncodeJSON, EncodeYAML, EncodeTOML}
    ensures NewSpreader(EncodingOf(s)) == s
    ensures e in Spreaders ==> EncodingOf(NewSpreader(e)) == e
  {
  }

  // ---------------------------------------------------------------------
  // The plain diagram

  /** Appends to `out` the rows of `current` and of its whole subtree,
      children in insertion order. */
  method SpreadBranch(current: Node, out: string) returns (r: string)
    ensures r == out + Diagram([current])
    decreases current
  {
    ghost var head := out + PrettyBranch(current);
    r := out + PrettyBranch(current);
    var i := 0;
    while i < |current.children|
      invariant 0 <= i <= |current.children|
      invariant r == head + Diagram(current.children[..i])
    {
      var child := current.children[i];
      assert child in current.children;
      r := SpreadBranch(child, r);
      DiagramPrefixStep(current.children, i);
      Regroup(head, Diagram(current.children[..i]), Diagram([child]));
      i := i + 1;
    }
    assert current.children[..i] == current.children;
    DiagramSingle(current);
    Regroup(out, PrettyBranch(current), Diagram(current.children));
  }

  /** The plain spreader: the diagrams of the roots, in root order, handed to
      the writer as one text. */
  method SpreadDefault(roots: seq<Node>, write: string -> Outcome) returns (o: Outcome, text: string)
    ensures text == Diagram(roots) && text == JoinLines(Rows(roots))
    ensures o == write(text)
  {
    text := "";
    var i := 0;
    while i < |roots|
      invariant 0 <= i <= |roots|
      invariant text == Diagram(roots[..i])
    {
      var branches := SpreadBranch(roots[i], "");
      assert branches == Diagram([roots[i]]);
      DiagramPrefixStep(roots, i);
      text := text + branches;
      i := i + 1;
    }
    assert roots[..i] == roots;
    DiagramRows(roots);
    o := write(text);
  }

  // ---------------------------------------------------------------------
  // Structured records

  /** The `{value, children}` record of the structured encodings. */
  datatype Record = Record(name: string, children: Slice)

  /** The children slice of a record: `Null` when it was never allocated
      (it encodes as null), otherwise the child records in order. */
  datatype Slice = Null | Made(items: seq<Record>)

  /** The record a node becomes when it is handed in as a fresh child record:
      a leaf keeps no children, any other node one record per child. */
  function RecordOf(n: Node): Record
    decreases n, 1
  {
    Record(n.name, if n.children == [] then Null else Made(RecordsOf(n.children)))
  }

  function RecordsOf(ts: seq<Node>): (rs: seq<Record>)
    ensures |rs| == |ts|
    decreases ts, 0
  {
    if ts == [] then [] else [RecordOf(ts[0])] + RecordsOf(ts[1..])
  }

  lemma {:induction false} RecordsOfSnoc(ts: seq<Node>, n: Node)
    ensures RecordsOf(ts + [n]) == RecordsOf(ts) + [RecordOf(n)]
    decreases ts
  {
    if ts != [] {
      assert (ts + [n])[0] == ts[0] && (ts + [n])[1..] == ts[1..] + [n];
      RecordsOfSnoc(ts[1..], n);
    } else {
      assert ts + [n] == [n];
    }
  }

  /** Converts `n` into a record. A node without children gives no record
      and leaves `into` alone. Otherwise the record is `into` when one is
      handed in (keeping its name), or a new record named after `n`; its
      children are replaced by one record per child of `n`, each filled in
      the same way. */
  method ToRecordNode(n: Node, into: Option<Record>) returns (r: Option<Record>)
    ensures n.children == [] ==> r == None
    ensures n.children != [] ==>
      r == Some(Record(if into.Some? then into.value.name else n.name, Made(RecordsOf(n.children))))
    decreases n
  {
    if |n.children| == 0 {
      return None;
    }
    var parent := if into.None? then Record(n.name, Null) else into.value;
    var kids: seq<Record> := [];
    var i := 0;
    while i < |n.children|
      invariant 0 <= i <= |n.children|
      invariant kids == RecordsOf(n.children[..i])
    {
      var child := n.children[i];
      var rec := Record(child.name, Null);
      var filled := ToRecordNode(child, Some(rec));
      // the in-place fill of the child's record is modelled as the returned record
      rec := if filled.Some? then filled.value else rec;
      RecordsOfSnoc(n.children[..i], child);
      assert n.children[..i + 1] == n.children[..i] + [child];
      kids := kids + [rec];
      i := i + 1;
    }
    assert n.children[..i] == n.children;
    return Some(parent.(children := Made(kids)));
  }

  /** The record of a root: none for a childless root. */
  function RootRecord(n: Node): Option<Record>
  {
    if n.children == [] then None else Some(RecordOf(n))
  }

  /** Labels of a list of record trees, depth-first. */
  function RecordsLabels(rs: seq<Record>): seq<string>
    decreases rs
  {
    if rs == [] then []
    else
      [rs[0].name] + (match rs[0].children case Null => [] case Made(cs) => RecordsLabels(cs))
      + RecordsLabels(rs[1..])
  }

  /** No label is lost or reordered: the record tree lists the labels of
      the forest in the same depth-first order. */
  lemma {:induction false} RecordsLossless(ts: seq<Node>)
    ensures RecordsLabels(RecordsOf(ts)) == Labels(ts)
    decreases ts
  {
    if ts != [] {
      var rs := RecordsOf(ts);
      assert rs[0] == RecordOf(ts[0]) && rs[1..] == RecordsOf(ts[1..]);
      RecordsLossless(ts[0].children);
      RecordsLossless(ts[1..]);
      var kids := if ts[0].children == [] then [] else RecordsLabels(RecordsOf(ts[0].children));
      assert kids == Labels(ts[0].children);
      assert RecordsLabels(rs) == [ts[0].name] + kids + RecordsLabels(rs[1..]);
    }
  }

  /** What a root hands the encoder: nothing for a childless root, and
      otherwise a record tree that lists the root's label and its subtree's
      labels in depth-first order. */
  lemma {:induction false} RootRecordLabels(n: Node)
    ensures n.children == [] <==> RootRecord(n) == None
    ensures n.children != [] ==> RecordsLabels([RootRecord(n).value]) == Labels([n])
  {
    if n.children != [] {
      RecordsLossless([n]);
      assert RecordsOf([n]) == [RecordOf(n)];
    }
  }

  /** Reads a list of record trees back as a forest at level `h`. */
  function NodesOf(rs: seq<Record>, h: nat): (ts: seq<Node>)
    ensures |ts| == |rs|
    decreases rs
  {
    if rs == [] then []
    else
      [Node(rs[0].name, h, "", match rs[0].children case Null => [] case Made(cs) => NodesOf(cs, h + 1))]
      + NodesOf(rs[1..], h)
  }

  /** The records keep the whole shape of an ungrown forest: reading them
      back gives the forest again. */
  lemma {:induction false} RecordRoundTrip(ts: seq<Node>, h: nat)
    requires Leveled(ts, h) && Ungrown(ts)
    ensures NodesOf(RecordsOf(ts), h) == ts
    decreases ts
  {
    if ts != [] {
      var rs := RecordsOf(ts);
      assert rs[0] == RecordOf(ts[0]) && rs[1..] == RecordsOf(ts[1..]);
      RecordRoundTrip(ts[0].children, h + 1);
      RecordRoundTrip(ts[1..], h);
      var kids := if ts[0].children == [] then [] else NodesOf(RecordsOf(ts[0].children), h + 1);
      assert kids == ts[0].children;
      assert NodesOf(rs, h) == [Node(ts[0].name, h, "", kids)] + NodesOf(rs[1..], h);
      assert ts == [ts[0]] + ts[1..];
    }
  }

  // ---------------------------------------------------------------------
  // Structured spreading

  /** Position of the first root the encoder rejects, or the number of
      roots when it rejects none. */
  function FirstFailure(roots: seq<Node>, encode: Option<Record> -> Outcome): (k: nat)
    ensures k <= |roots|
    ensures forall j :: 0 <= j < k ==> encode(RootRecord(roots[j])) == Pass
    ensures k < |roots| ==> encode(RootRecord(roots[k])).Fail?
    decreases |roots|
  {
    if roots == [] then 0
    else if encode(RootRecord(roots[0])).Fail? then 0
    else 1 + FirstFailure(roots[1..], encode)
  }

  function RootRecords(roots: seq<Node>): (rs: seq<Option<Record>>)
    ensures |rs| == |roots|
    ensures forall j :: 0 <= j < |roots| ==> rs[j] == RootRecord(roots[j])
  {
    seq(|roots|, j requires 0 <= j < |roots| => RootRecord(roots[j]))
  }

  /** A structured spreader: converts and encodes the roots in order and
      stops at the first encoder error, which it returns; no later root is
      converted or encoded. `sent` lists what the encoder was given. */
  method SpreadStructured(roots: seq<Node>, encode: Option<Record> -> Outcome)
    returns (o: Outcome, sent: seq<Option<Record>>)
    ensures var k := FirstFailure(roots, encode);
      if k < |roots| then o == encode(RootRecord(roots[k])) && sent == RootRecords(roots[..k + 1])
      else o == Pass && sent == RootRecords(roots)
  {
    sent := [];
    var i := 0;
    while i < |roots|
      invariant 0 <= i <= |roots|
      invariant sent == RootRecords(roots[..i])
      invariant forall j :: 0 <= j < i ==> encode(RootRecord(roots[j])) == Pass
    {
      var rec := ToRecordNode(roots[i], None);
      assert rec == RootRecord(roots[i]);
      sent := sent + [rec];
      assert sent == RootRecords(roots[..i + 1]);
      var err := encode(rec);
      if err.Fail? {
        FirstFailureAt(roots, encode, i);
        return err, sent;
      }
      i := i + 1;
    }
    FirstFailureNone(roots, encode);
    assert roots[..i] == roots;
    return Pass, sent;
  }

  lemma {:induction false} FirstFailureAt(roots: seq<Node>, encode: Option<Record> -> Outcome, i: nat)
    requires i < |roots| && encode(RootRecord(roots[i])).Fail?
    requires forall j :: 0 <= j < i ==> encode(RootRecord(roots[j])) == Pass
    ensures FirstFailure(roots, encode) == i
  {
  }

  lemma {:induction false} FirstFailureNone(roots: seq<Node>, encode: Option<Record> -> Outcome)
    requires forall j :: 0 <= j < |roots| ==> encode(RootRecord(roots[j])) == Pass
    ensures FirstFailure(roots, encode) == |roots|
  {
  }
}
