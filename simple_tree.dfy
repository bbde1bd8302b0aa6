/** The sequential tree: a grower, a spreader and a mkdirer picked once from
    the configuration, and the four operations that run them in order,
    stopping at the first stage that fails. The forest is the value view;
    the collaborators whose code is not part of this model (the terminal
    writer, the encoders, the colorizing spreader, the filesystem and its
    rules for names) are the functions of an `Env`. */
module SimpleTree {
  import opened Errors
  import opened Forest
  import opened Outline
  import opened Branch
  import opened Spread
  import opened Configuration

  datatype Env = Env(
    legal: string -> bool,                // may a directory carry this name
    write: string -> Outcome,             // writes the plain diagram
    encodeJSON: Option<Record> -> Outcome,
    encodeTOML: Option<Record> -> Outcome,
    encodeYAML: Option<Record> -> Outcome,
    colorize: seq<Node> -> Outcome,       // the dry-run spreader
    makeDirs: seq<Node> -> Outcome)       // creates the directories and files

  // ---------------------------------------------------------------------
  // Factories

  datatype GrowerKind = NopGrower | SimpleGrower(formats: Formats, dryrun: bool)

  /** Structured encodings print no branches, so they get the grower that
      does nothing; the plain diagram gets the real one. */
  function GrowerFactory(lastNodeFormat: Format, intermedialNodeFormat: Format, dryrun: bool, encode: int): (g: GrowerKind)
    ensures g == NopGrower <==> encode != EncodeDefault
    ensures g.SimpleGrower? ==> g.formats == Formats(lastNodeFormat, intermedialNodeFormat) && g.dryrun == dryrun
  {
    if encode != EncodeDefault then NopGrower
    else SimpleGrower(Formats(lastNodeFormat, intermedialNodeFormat), dryrun)
  }

  datatype SpreaderChoice = Colorize(fileExtensions: seq<string>) | Plain(kind: SpreaderKind)

  /** Dry-run always gets the colorizing spreader, whatever the encoding;
      otherwise the encoding picks the spreader. */
  function SpreaderFactory(encode: int, dryrun: bool, fileExtensions: seq<string>): (s: SpreaderChoice)
    ensures s.Colorize? <==> dryrun
    ensures s.Colorize? ==> s.fileExtensions == fileExtensions
    ensures s.Plain? ==> s.kind == NewSpreader(encode)
  {
    if dryrun then Colorize(fileExtensions) else Plain(NewSpreader(encode))
  }

  /** With dry-run off, a structured encoding gets both the no-op grower and
      its structured spreader, and the plain encoding gets the real grower
      and the plain spreader: branches are grown exactly when they are
      printed. */
  lemma FactoriesAgree(c: Config)
    requires !c.dryrun && c.encode in Spreaders
    ensures GrowerFactory(c.lastNodeFormat, c.intermedialNodeFormat, c.dryrun, c.encode) == NopGrower
        <==> SpreaderFactory(c.encode, c.dryrun, c.fileExtensions) != Plain(DefaultSpreader)
  {
  }

  // ---------------------------------------------------------------------
  // Growing, with optional validation of names

  /** Position of the first label the filesystem would refuse, or the
      number of labels when there is none. */
  function FirstIllegal(ls: seq<string>, legal: string -> bool): (k: nat)
    ensures k <= |ls|
    ensures forall j :: 0 <= j < k ==> legal(ls[j])
    ensures k < |ls| ==> !legal(ls[k])
    decreases |ls|
  {
    if ls == [] || !legal(ls[0]) then 0 else 1 + FirstIllegal(ls[1..], legal)
  }

  /** What growing does: the no-op grower leaves the forest as it is; the
      real one fills in every branch string, and, once validation is on,
      refuses the forest with the first illegal label in depth-first
      order. */
  function GrowResult(kind: GrowerKind, validation: bool, roots: seq<Node>, legal: string -> bool): Result<seq<Node>>
  {
    match kind
    case NopGrower => Ok(roots)
    case SimpleGrower(fm, _) =>
      var ls := Labels(roots);
      var k := FirstIllegal(ls, legal);
      if validation && k < |ls| then Err(InvalidNodeName(ls[k])) else Ok(GrowRoots(roots, fm))
  }

  /** Growing never changes the labels or levels of the forest, and it
      fails only under validation, for a label the filesystem refuses. */
  lemma GrowKeepsListing(kind: GrowerKind, validation: bool, roots: seq<Node>, legal: string -> bool)
    ensures GrowResult(kind, validation, roots, legal).Ok? ==> Flatten(GrowResult(kind, validation, roots, legal).value) == Flatten(roots)
    ensures GrowResult(kind, validation, roots, legal).Err? <==>
      kind.SimpleGrower? && validation && exists l :: l in Labels(roots) && !legal(l)
    ensures GrowResult(kind, validation, roots, legal).Err? ==>
      var e := GrowResult(kind, validation, roots, legal).error;
      e.InvalidNodeName? && e.name in Labels(roots) && !legal(e.name)
  {
    if kind.SimpleGrower? {
      GrowRootsListing(roots, kind.formats);
      var ls := Labels(roots);
      var k := FirstIllegal(ls, legal);
      if k == |ls| {
        forall l | l in ls ensures legal(l) {
          var j :| 0 <= j < |ls| && ls[j] == l;
        }
      }
    }
  }

  class Grower {
    var kind: GrowerKind
    var validation: bool

    /** A grower built for dry-run starts with validation on, so that a
        preview refuses the names the filesystem would refuse. */
    constructor (kind: GrowerKind)
      ensures this.kind == kind
      ensures validation <==> kind.SimpleGrower? && kind.dryrun
    {
      this.kind := kind;
      validation := kind.SimpleGrower? && kind.dryrun;
    }

    method EnableValidation()
      modifies this
      ensures validation && kind == old(kind)
    {
      validation := true;
    }

    /** The no-op grower hands the forest back; the real one fills in every
        branch string, keeping labels and levels, unless validation is on
        and some label is refused, in which case the first refused label in
        depth-first order is the error. */
    method Grow(roots: seq<Node>, legal: string -> bool) returns (r: Result<seq<Node>>)
      ensures kind.NopGrower? ==> r == Ok(roots)
      ensures kind.SimpleGrower? && r.Ok? ==> r.value == GrowRoots(roots, kind.formats)
      ensures r.Ok? ==> Flatten(r.value) == Flatten(roots)
      ensures r.Err? <==> kind.SimpleGrower? && validation && exists l :: l in Labels(roots) && !legal(l)
      ensures r.Err? ==> r.error == InvalidNodeName(Labels(roots)[FirstIllegal(Labels(roots), legal)])
      ensures r == GrowResult(kind, validation, roots, legal)
    {
      GrowKeepsListing(kind, validation, roots, legal);
      match kind
      case NopGrower =>
        r := Ok(roots);
      case SimpleGrower(fm, _) =>
        var ls := Labels(roots);
        var k := FirstIllegal(ls, legal);
        if validation && k < |ls| {
          r := Err(InvalidNodeName(ls[k]));
        } else {
          r := Ok(GrowRoots(roots, fm));
        }
    }
  }

  // ---------------------------------------------------------------------
  // Spreading

  function EncoderFor(env: Env, kind: SpreaderKind): Option<Record> -> Outcome
  {
    match kind
    case YAMLSpreader => env.encodeYAML
    case TOMLSpreader => env.encodeTOML
    case _ => env.encodeJSON
  }

  /** What spreading returns: the colorizing spreader's own outcome under
      dry-run, the writer's outcome on the plain diagram, or the first
      encoder error over the roots' records. */
  function SpreadResult(s: SpreaderChoice, roots: seq<Node>, env: Env): Outcome
  {
    match s
    case Colorize(_) => env.colorize(roots)
    case Plain(kind) =>
      if kind == DefaultSpreader then env.write(Diagram(roots))
      else
        var encode := EncoderFor(env, kind);
        var k := FirstFailure(roots, encode);
        if k < |roots| then encode(RootRecord(roots[k])) else Pass
  }

  // ---------------------------------------------------------------------
  // The tree

  class TreeSimple {
    var grower: Grower
    var spreader: SpreaderChoice
    var mkdirer: seq<string>

    /** Picks the three collaborators from the configuration. */
    constructor (conf: Config)
      ensures fresh(grower)
      ensures grower.validation <==> conf.encode == EncodeDefault && conf.dryrun
      ensures grower.kind == GrowerFactory(conf.lastNodeFormat, conf.intermedialNodeFormat, conf.dryrun, conf.encode)
      ensures spreader == SpreaderFactory(conf.encode, conf.dryrun, conf.fileExtensions)
      ensures mkdirer == conf.fileExtensions
    {
      grower := new Grower(GrowerFactory(conf.lastNodeFormat, conf.intermedialNodeFormat, conf.dryrun, conf.encode));
      spreader := SpreaderFactory(conf.encode, conf.dryrun, conf.fileExtensions);
      mkdirer := conf.fileExtensions;
    }

    method Spread(roots: seq<Node>, env: Env) returns (o: Outcome)
      ensures o == SpreadResult(spreader, roots, env)
    {
      match spreader
      case Colorize(_) =>
        o := env.colorize(roots);
      case Plain(kind) =>
        if kind == DefaultSpreader {
          var text;
          o, text := SpreadDefault(roots, env.write);
        } else {
          var sent;
          o, sent := SpreadStructured(roots, EncoderFor(env, kind));
        }
    }

    /** Reads an outline, grows it and spreads it; a malformed outline stops
        before growing, a growing error before spreading. */
    method Output(rows: seq<string>, conf: Config, env: Env) returns (o: Outcome, steps: seq<Step>)
      ensures Parse(rows, conf.space).Err? ==>
        o == Fail(Parse(rows, conf.space).error) && steps == [GenerateRoots]
      ensures Parse(rows, conf.space).Ok? ==>
        var g := GrowResult(grower.kind, grower.validation, Parse(rows, conf.space).value, env.legal);
        if g.Err? then o == Fail(g.error) && steps == [GenerateRoots, GrowBranches]
        else o == SpreadResult(spreader, g.value, env) && steps == [GenerateRoots, GrowBranches, SpreadTree]
    {
      var roots := Parse(rows, conf.space);
      if roots.Err? {
        return Fail(roots.error), [GenerateRoots];
      }
      var grown := grower.Grow(roots.value, env.legal);
      if grown.Err? {
        return Fail(grown.error), [GenerateRoots, GrowBranches];
      }
      o := Spread(grown.value, env);
      steps := [GenerateRoots, GrowBranches, SpreadTree];
    }

    /** Grows and spreads the one-root forest of a programmatically built
        tree. */
    method OutputProgrammably(root: Node, conf: Config, env: Env) returns (o: Outcome, steps: seq<Step>)
      ensures var g := GrowResult(grower.kind, grower.validation, [root], env.legal);
        if g.Err? then o == Fail(g.error) && steps == [GrowBranches]
        else o == SpreadResult(spreader, g.value, env) && steps == [GrowBranches, SpreadTree]
    {
      var grown := grower.Grow([root], env.legal);
      if grown.Err? {
        return Fail(grown.error), [GrowBranches];
      }
      o := Spread(grown.value, env);
      steps := [GrowBranches, SpreadTree];
    }

    /** Reads an outline, grows it and makes its directories; it does not
        switch validation on itself. */
    method Mkdir(rows: seq<string>, conf: Config, env: Env) returns (o: Outcome, steps: seq<Step>)
      ensures Parse(rows, conf.space).Err? ==>
        o == Fail(Parse(rows, conf.space).error) && steps == [GenerateRoots]
      ensures Parse(rows, conf.space).Ok? ==>
        var g := GrowResult(grower.kind, grower.validation, Parse(rows, conf.space).value, env.legal);
        if g.Err? then o == Fail(g.error) && steps == [GenerateRoots, GrowBranches]
        else o == env.makeDirs(g.value) && steps == [GenerateRoots, GrowBranches, MakeDirs]
    {
      var roots := Parse(rows, conf.space);
      if roots.Err? {
        return Fail(roots.error), [GenerateRoots];
      }
      var grown := grower.Grow(roots.value, env.legal);
      if grown.Err? {
        return Fail(grown.error), [GenerateRoots, GrowBranches];
      }
      o := env.makeDirs(grown.value);
      steps := [GenerateRoots, GrowBranches, MakeDirs];
    }

    /** Switches validation on, grows the one-root forest, then spreads it
        under dry-run or makes its directories otherwise. */
    method MkdirProgrammably(root: Node, conf: Config, env: Env) returns (o: Outcome, steps: seq<Step>)
      modifies grower
      ensures grower.validation && grower.kind == old(grower.kind)
      ensures var g := GrowResult(grower.kind, true, [root], env.legal);
        if g.Err? then o == Fail(g.error) && steps == [EnableValidation, GrowBranches]
        else if conf.dryrun then o == SpreadResult(spreader, g.value, env) && steps == [EnableValidation, GrowBranches, SpreadTree]
        else o == env.makeDirs(g.value) && steps == [EnableValidation, GrowBranches, MakeDirs]
    {
      grower.EnableValidation();
      var grown := grower.Grow([root], env.legal);
      if grown.Err? {
        return Fail(grown.error), [EnableValidation, GrowBranches];
      }
      if conf.dryrun {
        o := Spread(grown.value, env);
        steps := [EnableValidation, GrowBranches, SpreadTree];
      } else {
        o := env.makeDirs(grown.value);
        steps := [EnableValidation, GrowBranches, MakeDirs];
      }
    }
  }
}
