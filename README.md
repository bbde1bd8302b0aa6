# gentree, modelled in Dafny

gentree turns an indented Markdown-style outline (`- a`, then `\t- b`, …)
into a tree diagram drawn with branch glyphs (`├──`, `└──`, `│`), into
JSON/TOML/YAML records, or into directories. A tree can also be built in
code, with `NewRoot` and `Add`. This project models the part of the library
that connects these pieces:

- building a tree in code, with its index counter and the checks on a root
  (`programmably.dfy`);
- the spreaders: the spreader registry, the plain diagram written
  depth-first, the conversion of a node into a `{value, children}` record,
  and the structured spreaders that stop at the first encoder error
  (`spread.dfy`);
- the program object, with its default configuration, its chained setters
  and its two commands (`program.dfy`);
- the sequential tree: how it picks its grower and spreader from the
  configuration, and how its four operations order their stages and stop at
  the first failure (`simple_tree.dfy`);
- the end-to-end case table of the library's test (`test_table.dfy`).

The behaviour the case table fixes lives in code that is not part of this
model: the outline reader, the branch grower and the row printer. It is
specified here as pure functions over a `Node` value tree (`forest.dfy`):

- `outline.dfy` holds the outline reader. One indentation unit is one
  level. A line's parent is the most recent line one level shallower.
  Reading back the outline written from a forest gives the forest.
- `branch.dfy` holds the grower and the row printer. The last sibling gets
  `└──` and the others `├──`. Each ancestor contributes four blanks when it
  is a last child, and `│` plus three blanks otherwise.

Each case of the test is proved as a lemma about `TestTable.Execute`, which
reads the outline, grows the branches and lists the rows.

The collaborators whose code is not modelled are parameters:

- the terminal writer;
- the JSON/TOML/YAML encoders;
- the colorizing dry-run spreader;
- the filesystem and its rules for names.

Each of them appears as a function from what it is given to the outcome it
returns (`SimpleTree.Env`, `ProgramApi.TreeStages`, `Programmably.TreeOps`).

## Model

| member | source | states |
|---|---|---|
| Programmably.Counter.Next | tree_handler_programmably.go:68 | advances the index counter by one and returns its new value |
| Programmably.Counter.Reset | tree_handler_programmably.go:31 | sets the index counter back to zero, as each entry point does before it hands the root on |
| Programmably.FirstNamed | tree_handler_programmably.go:74 | the position of the first child carrying the label, or the number of children when none does; every child before it has another label |
| Programmably.Node.IsRoot | tree_handler_programmably.go:27 | a node is a root exactly when its level is zero; `NewRoot` makes roots and `Add` never makes a new child a root |
| Programmably.Node.FindChildByText | tree_handler_programmably.go:74-76 | returns the first child carrying the label, or null when there is none |
| Programmably.Node.Add | tree_handler_programmably.go:73-82 | an existing child with the label is returned and nothing changes, not even the counter; otherwise a new child one level down, which is not a root, is appended last, points back to the parent and takes the next counter value; the parent's own fields are untouched and distinct child labels stay distinct |
| Programmably.NewRoot | tree_handler_programmably.go:67-69 | a fresh root node: level zero, no parent, no children, the next counter value |
| Programmably.TreeFor | tree_handler_programmably.go:34-37 | the pipelined tree is chosen exactly when `massive` is set |
| Programmably.OutputProgrammably | tree_handler_programmably.go:23-39 | a missing root fails with NilNode, then a non-root fails with NotRoot, and neither touches the counter; otherwise the counter is reset and the tree the flag selects prints that root under that configuration |
| Programmably.MkdirProgrammably | tree_handler_programmably.go:48-64 | the same two guards in the same order, then a counter reset, then the selected tree makes the directories for that root and configuration |
| Spread.EncodingOf | tree_spread.go:25-30 | every spreader is registered, under the encoding this returns |
| Spread.NewSpreader | tree_spread.go:17-22 | an encoding in the registry gets its registered spreader; the JSON, YAML and TOML spreaders come back exactly for their own encodings, and the plain spreader for every other value, unknown ones included |
| Spread.NewSpreaderChoice | tree_spread.go:17-39 | the lookup returns the JSON, YAML and TOML spreaders exactly for their encodings and the plain spreader for every other value; looking up a spreader's own encoding gives that spreader back |
| Spread.SpreadBranch | tree_spread.go:51-57 | appends to `out` the diagram of the node and its whole subtree, children in insertion order |
| Spread.SpreadDefault | tree_spread.go:43-49 | the written text is the roots' diagrams in root order, that is their rows each followed by a line break; the outcome is the writer's |
| Spread.RecordsOf | tree_spread.go:93-97 | one record per node, in order |
| Spread.ToRecordNode | tree_spread.go:85-100 | a childless node gives no record; otherwise the result keeps the handed-in record's name (or takes the node's when none is handed in) and has one child record per child, in order, each converted the same way |
| Spread.RecordsLossless | tree_spread.go:93-97 | the list of records built for a forest's nodes lists the forest's labels in the same depth-first order; what a root itself hands the encoder is `RootRecordLabels` |
| Spread.RootRecordLabels | tree_spread.go:85-100 | a root hands the encoder nothing exactly when it has no children; otherwise its record tree lists the root's label and its subtree's labels in depth-first order |
| Spread.RecordRoundTrip | tree_spread.go:85-100 | reading the records back as nodes gives the ungrown forest again, shape included |
| Spread.FirstFailure | tree_spread.go:71-76 | the first root the encoder rejects; every root before it is accepted |
| Spread.SpreadStructured | tree_spread.go:69-78 | roots are converted and encoded in order; the first encoder error is returned and no later root is handed over; with no error the outcome is success and every root was handed over |
| Outline.Unit | tree_test.go:176-231 | an indentation unit is non-empty and is either a single tab or made only of blanks |
| Outline.Dedent | tree_test.go:176-231 | splits a row into a whole number of indentation units and a rest that does not start with another one |
| Outline.TrimLeft | tree_test.go:232-241 | drops exactly the leading blanks |
| Outline.TrimRight | tree_test.go:232-241 | drops exactly the trailing blanks |
| Outline.LexRow | tree_test.go:232-241 | a row that reads as a bullet yields a label with no blanks at either end |
| Outline.LexBullet | tree_test.go:232-241 | a bullet indented by k units reads as level k with its label verbatim, inner blanks and hyphens included |
| Outline.Check | tree_test.go:74-97 | the outline is accepted exactly when it starts at level zero and never goes more than one level deeper from one row to the next; the accepted levels are the rows' own |
| Outline.SubtreeEnd | tree_test.go:144-175 | the end of a node's subtree: every row up to it is deeper, the row at it is not |
| Outline.ParseBlockShape | tree_test.go:74-97 | a well-formed block of rows builds a forest at that level whose depth-first listing is exactly those rows |
| Outline.Parse | tree_test.go:20-312 | succeeds exactly when the rows form an outline; the forest then starts at level zero, has no branches yet and lists one node per row, in row order, at the row's level |
| Outline.ParseFlatten | tree_test.go:242-259 | the listing of any leveled forest is a well-formed block, and building from it gives that forest back, duplicate labels included |
| Outline.ParseOutline | tree_test.go:20-312 | reading the outline written from a forest gives the forest back |
| Outline.LastAt | tree_test.go:144-175 | the most recent earlier row at a given level, or -1 when there is none |
| Outline.ParentRule | tree_test.go:144-175 | within a forest at level d, a node at level d has the given parent, and any deeper node's parent is the most recent earlier row one level shallower |
| Outline.ForestParents | tree_test.go:144-175 | in a whole forest, roots have no parent and every other row's parent is the most recent earlier row one level shallower, even after deeper rows |
| Forest.Parents | tree_test.go:144-175 | one parent position per listed node |
| Branch.GrowSiblings | tree_test.go:44-55 | growing keeps the number of siblings |
| Branch.GrowRoots | simple_tree.go:63 | one grown root per root: each keeps its label and level, gets no branch, and has its children grown afresh from an empty prefix; listings and branches are `GrowRootsListing` and `GrowRootsWalk` |
| Branch.SiblingConnector | tree_test.go:56-73 | a grown sibling keeps its label and level; its branch is the prefix and the last-child connector exactly when it is the last sibling, and its children are grown with the prefix extended by the matching indirect glyphs |
| Branch.OneLastConnector | tree_test.go:44-55 | when the two connectors differ, only the last sibling carries `└──` |
| Branch.GrowSiblingsListing | tree_test.go:242-259 | growing siblings keeps every label and level in depth-first order |
| Branch.GrowRootsListing | tree_test.go:242-259 | growing a forest keeps every label and level in depth-first order |
| Branch.BranchOf | tree_test.go:20-30 | a root's branch string is empty |
| Branch.PathStep | tree_test.go:74-97 | one more ancestor adds its indirect glyphs, and the node's own connector comes last |
| Branch.GrowSiblingsWalk | tree_test.go:74-97 | every grown branch is the indirect glyphs of its ancestors, four blanks below a last child and `│` below any other, followed by its own connector |
| Branch.GrowRootsWalk | tree_test.go:74-97 | the same rule for a whole forest, roots having no branch |
| Branch.Row | tree_spread.go:52 | a row ends with the node's label; a root's row is the label alone, and any other row has the branch and a blank before the label |
| Branch.PrettyBranch | tree_spread.go:52 | what a node prints is its row followed by one line break |
| Branch.RowsPointwise | tree_spread.go:51-57 | row `i` of a forest is the row of its `i`-th listed node, with that node's level, label and branch |
| Branch.GrownRows | tree_spread.go:51-57 | row `i` of a grown forest is the `i`-th listed label, alone for a root and otherwise after the branch the ancestor walk gives that node and a blank |
| Branch.BranchesOfAppend | tree_test.go:271-312 | branch strings of consecutive path lists are computed independently |
| Branch.Rows | tree_test.go:315-323 | one row per node |
| Branch.DiagramRows | tree_spread.go:43-57 | the diagram text is the rows, each followed by a line break |
| Branch.DiagramAppend | tree_spread.go:43-47 | the diagram of consecutive forests is their diagrams one after the other |
| Branch.ListingAppend | tree_test.go:271-312 | the listing of several root forests is their listings one after the other |
| Branch.RowsAppend | tree_test.go:271-312 | the rows of several root forests are their rows one after the other |
| Branch.GrowRootsAppend | tree_test.go:271-312 | each root is grown independently of the others |
| SimpleTree.GrowerFactory | simple_tree.go:20-25 | the no-op grower exactly when the encoding is not the plain one; otherwise the configured glyphs |
| SimpleTree.SpreaderFactory | simple_tree.go:27-32 | the colorizing spreader, with the file extensions, exactly under dry-run; otherwise the registered spreader of the encoding |
| SimpleTree.FactoriesAgree | simple_tree.go:19-54 | without dry-run and for a registered encoding, branches are grown exactly when the plain diagram is printed |
| SimpleTree.FirstIllegal | simple_tree.go:90-92 | the first label the filesystem refuses; every label before it is accepted |
| SimpleTree.GrowKeepsListing | simple_tree.go:89-93 | growing keeps labels and levels; it fails exactly when validation is on, the grower is the real one and some label is refused, and the error names a refused label |
| SimpleTree.Grower.constructor | simple_tree.go:20-25 | a grower starts with validation on exactly when it is the real grower built for dry-run |
| SimpleTree.Grower.EnableValidation | simple_tree.go:90 | switches validation on and keeps the grower's kind |
| SimpleTree.Grower.Grow | simple_tree.go:104-107 | the no-op grower returns the roots unchanged; the real grower fails exactly when validation is on and some label is refused, naming the first refused label in depth-first order; on success it returns the roots with the configured branches grown, and the listing of the forest is unchanged |
| SimpleTree.TreeSimple.constructor | simple_tree.go:19-54 | grower, spreader and mkdirer are picked once, by the factories, from the configuration; validation starts on exactly for the plain encoding under dry-run |
| SimpleTree.TreeSimple.Spread | simple_tree.go:110-112 | the colorizer under dry-run, the writer on the plain diagram, or the first encoder error over the roots' records |
| SimpleTree.TreeSimple.Output | simple_tree.go:56-67 | an outline error stops before growing, a growing error stops before spreading, and otherwise the outcome is the spreader's |
| SimpleTree.TreeSimple.OutputProgrammably | simple_tree.go:69-74 | grows and then spreads the one-root forest, stopping at a growing error |
| SimpleTree.TreeSimple.Mkdir | simple_tree.go:76-87 | reads, grows and makes directories, stopping at the first error, without switching validation on |
| SimpleTree.TreeSimple.MkdirProgrammably | simple_tree.go:89-101 | switches validation on before growing the one-root forest; a growing error stops there; then it spreads under dry-run and makes directories otherwise |
| ProgramApi.Program.constructor | program.go:16-33 | the defaults: `└──` and four blanks for a last child, `├──` and `│` plus three blanks for other children, tab indentation, the plain encoding, dry-run off, no file extensions |
| ProgramApi.Program.Output | program.go:37-52 | NilNode, then NotRoot, both before the counter is reset; then the root is grown with validation on exactly under dry-run, a growing error is returned and nothing is printed; otherwise the outcome is the print's for that root and configuration |
| ProgramApi.Program.Mkdir | program.go:56-78 | the same guards and reset; validation is switched on before growing; a growing error stops everything; then it prints under dry-run and makes directories otherwise |
| ProgramApi.Program.FormatIntermedialNode | program.go:81-85 | changes only the glyphs of non-last children and returns the same program |
| ProgramApi.Program.FormatLastNode | program.go:88-92 | changes only the glyphs of last children and returns the same program |
| ProgramApi.Program.EncodeJSON | program.go:95-98 | overwrites the one encoding field, so the last call wins |
| ProgramApi.Program.EncodeYAML | program.go:101-104 | overwrites the one encoding field, so the last call wins |
| ProgramApi.Program.EncodeTOML | program.go:107-110 | overwrites the one encoding field, so the last call wins |
| ProgramApi.Program.DryRun | program.go:113-116 | sets dry-run and changes nothing else |
| ProgramApi.Program.FileExtensions | program.go:119-122 | replaces the extension list and changes nothing else |
| TestTable.Case1 | tree_test.go:20-30 | a tab-indented child renders as `a` then `└── b` |
| TestTable.Case2 | tree_test.go:31-43 | a grandchild below a last child is indented by four blanks |
| TestTable.Case3 | tree_test.go:44-55 | of two siblings only the last gets `└──` |
| TestTable.Case4 | tree_test.go:56-73 | three siblings two levels down: `├──`, `├──`, `└──` |
| TestTable.Case5 | tree_test.go:74-97 | below a non-last ancestor rows carry `│`; a line returns to its parent's level after deeper lines |
| TestTable.Case6 | tree_test.go:98-115 | mixed last and non-last subtrees |
| TestTable.Case7 | tree_test.go:116-143 | a four-level subtree between siblings |
| TestTable.Case8 | tree_test.go:144-175 | a seven-level tree whose lines attach to the most recent shallower line |
| TestTable.Case9 | tree_test.go:176-203 | two-blank indentation gives the diagram of case 5 |
| TestTable.Case10 | tree_test.go:204-231 | four-blank indentation gives the diagram of case 5 |
| TestTable.Case11 | tree_test.go:232-241 | labels keep inner blanks and hyphens |
| TestTable.Case12 | tree_test.go:242-259 | duplicate labels from text stay separate siblings |
| TestTable.Case14 | tree_test.go:271-312 | several roots are rendered one after another |
| TestTable.Execute | tree_test.go:318 | fails exactly when the outline does not read, with the reader's error, and otherwise gives one diagram row per node read |
| TestTable.ExecuteIsOutput | tree_test.go:314-323 | under the default configuration, an outline that reads grows without error, and the tree's plain spreader hands the writer exactly the rows `Execute` gives, each followed by a line break |

## Left out

- Writers, `bufio`, `color.Output` and the colorizing spreader are terminal I/O. They are the `write` and `colorize` functions of `SimpleTree.Env`, and the program's `stdout` and `stderr` fields are not modelled.
- The JSON, TOML and YAML encoders are foreign libraries, and so is the way they print a missing child list (`null`). They are functions from a record to an outcome. The model stops at the record they are given.
- The filesystem mkdirer is I/O, and so are its rules for names and the error for an existing path. They are the `makeDirs` and `legal` functions of the environment.
- The pipelined tree for `massive` exists for concurrency. Only the flag that selects it is modelled (`Programmably.TreeFor`).
- The index counter is process-wide in the library. Here it is a `Counter` object passed explicitly.
- The counter's own code is not part of this model. `Counter.Next` advances the counter, then returns the new value.
- The root level is taken to be 0, and a node is a root when its level is 0.
- The code of the outline reader, the grower and `prettyBranch` is not part of this model. They are specified by the functions of `outline.dfy` and `branch.dfy` to the extent that the test's cases fix them.
- `Outline.Parse`: the reader's own error values are not part of this model. Here a row that is not a bullet, or that is more than one level deeper than the row before it, gives `MalformedHierarchy` with its row number. A bullet with an empty label gives `InvalidNodeName`.
- The `Node` class built in code and the `Node` value read from an outline are not connected. The tree stages after the guards are abstract outcomes (`Programmably.TreeOps`, `ProgramApi.TreeStages`).
- The tree that `Program` builds with `newTree` is not part of this model.
- Records are values, not pointers, so aliasing between records is not captured.
- `Spread.ToRecordNode` models the in-place fill of a handed-in record as returning the filled record.
- `toTOMLNode` and `toYAMLNode` have the same code as `toJSONNode` (tree_spread.go:120-135 and 155-170). All three are modelled by the one `Spread.ToRecordNode`, so the three record trees are the same by construction.
- `SimpleTree.Grower.Grow`: validation checks every label, in depth-first order, before any branch is grown. The grower's own code is not part of this model.
- SimpleTree.Grower.constructor: the grower's constructor (newGrowerSimple) is not part of this model; the dry-run flag it receives is taken to switch validation on from the start, as the dry-run setter at program.go:112 suggests; the no-op grower never validates.
- SimpleTree.SpreaderFactory: the code of newSpreaderSimple is not part of this model; it is taken to be the lookup of `Spread.NewSpreader`, the registry and its fall-back to the plain spreader included.
- SimpleTree.TreeSimple.constructor: validation at the start follows the grower's constructor above, so it rests on the same reading of newGrowerSimple.
- ProgramApi.Program.Output: the tree that newTree builds is not part of this model; it is taken to validate under dry-run as the plain tree does, so the grow stage is given the dry-run flag.
- The test compares whole texts after trimming. The model compares the rows one by one. `Branch.DiagramRows` states that the text is the rows, each followed by a line break.
- The test's `Execute` is not part of this model. `TestTable.Execute` reads, grows with the standard glyphs and lists the rows.
- Test case 13 (tree_test.go:260-270) reads case 1's outline from a byte buffer rather than a string reader. Both readers give the same rows, so it adds nothing beyond `TestTable.Case1`.
- The demo program under sample/ is left out. Its output comments are evidence only: an existing child is returned by `Add`, and a leaf's record has no child list.
