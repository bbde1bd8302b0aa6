/** The program object: a configuration built up by chained setters, and
    the two commands that check a programmatically built root, reset the
    index counter, and grow then print it or grow then make its directories.
    The tree those commands build is not part of this model: what growing,
    printing and making directories return is given as `TreeStages`. The
    writers the program holds are not modelled. */
module ProgramApi {
  import opened Errors
  import opened Outline
  import opened Branch
  import opened Configuration
  import opened Programmably
  import Spread

  /** What the stages of the tree built from a root and a configuration
      return: growing (with validation off or on), printing, and making the
      directories. */
  datatype TreeStages = TreeStages(
    grow: (Node, Config, bool) -> Outcome,
    spread: (Node, Config) -> Outcome,
    mkdir: (Node, Config) -> Outcome)

  class Program {
    var cfg: Config

    /** A program with the standard glyphs, tab indentation, the plain
        diagram and dry-run off. */
    constructor ()
      ensures cfg == DefaultConfig
      ensures FormatsOf(cfg) == DefaultFormats && cfg.space == Tab && cfg.encode == Spread.EncodeDefault
      ensures !cfg.dryrun && cfg.fileExtensions == []
    {
      cfg := DefaultConfig;
    }

    /** Checks the root, resets the counter, grows the tree and prints it;
        a growing error is returned and nothing is printed. The tree
        validates names while growing exactly under dry-run, as a tree built
        from the configuration does. */
    method Output(root: Node?, counter: Counter, stages: TreeStages) returns (o: Outcome, steps: seq<Step>)
      modifies counter
      ensures root == null ==> o == Fail(NilNode) && steps == [] && counter.value == old(counter.value)
      ensures root != null && !root.IsRoot() ==> o == Fail(NotRoot) && steps == [] && counter.value == old(counter.value)
      ensures root != null && root.IsRoot() ==> counter.value == 0
      ensures root != null && root.IsRoot() ==>
        var grown := stages.grow(root, cfg, cfg.dryrun);
        if grown.Fail? then o == grown && steps == [ResetCounter, GrowBranches]
        else o == stages.spread(root, cfg) && steps == [ResetCounter, GrowBranches, SpreadTree]
    {
      if root == null {
        return Fail(NilNode), [];
      }
      if !root.IsRoot() {
        return Fail(NotRoot), [];
      }
      counter.Reset();
      var grown := stages.grow(root, cfg, cfg.dryrun);
      if grown.Fail? {
        return grown, [ResetCounter, GrowBranches];
      }
      return stages.spread(root, cfg), [ResetCounter, GrowBranches, SpreadTree];
    }

    /** Checks the root, resets the counter, switches validation on and
        grows the tree; an invalid name stops it there. Under dry-run the
        tree is then printed, otherwise its directories are made. */
    method Mkdir(root: Node?, counter: Counter, stages: TreeStages) returns (o: Outcome, steps: seq<Step>)
      modifies counter
      ensures root == null ==> o == Fail(NilNode) && steps == [] && counter.value == old(counter.value)
      ensures root != null && !root.IsRoot() ==> o == Fail(NotRoot) && steps == [] && counter.value == old(counter.value)
      ensures root != null && root.IsRoot() ==> counter.value == 0
      ensures root != null && root.IsRoot() ==>
        var grown := stages.grow(root, cfg, true);
        if grown.Fail? then o == grown && steps == [ResetCounter, EnableValidation, GrowBranches]
        else if cfg.dryrun then o == stages.spread(root, cfg) && steps == [ResetCounter, EnableValidation, GrowBranches, SpreadTree]
        else o == stages.mkdir(root, cfg) && steps == [ResetCounter, EnableValidation, GrowBranches, MakeDirs]
    {
      if root == null {
        return Fail(NilNode), [];
      }
      if !root.IsRoot() {
        return Fail(NotRoot), [];
      }
      counter.Reset();
      steps := [ResetCounter, EnableValidation];
      var grown := stages.grow(root, cfg, true);
      steps := steps + [GrowBranches];
      if grown.Fail? {
        return grown, steps;
      }
      if cfg.dryrun {
        return stages.spread(root, cfg), steps + [SpreadTree];
      }
      return stages.mkdir(root, cfg), steps + [MakeDirs];
    }

    /** Sets the glyphs of every child but the last; returns this program. */
    method FormatIntermedialNode(directly: string, indirectly: string) returns (p: Program)
      modifies this
      ensures p == this
      ensures cfg == old(cfg).(intermedialNodeFormat := Format(directly, indirectly))
    {
      cfg := cfg.(intermedialNodeFormat := Format(directly, indirectly));
      return this;
    }

    /** Sets the glyphs of a last child; returns this program. */
    method FormatLastNode(directly: string, indirectly: string) returns (p: Program)
      modifies this
      ensures p == this
      ensures cfg == old(cfg).(lastNodeFormat := Format(directly, indirectly))
    {
      cfg := cfg.(lastNodeFormat := Format(directly, indirectly));
      return this;
    }

    method EncodeJSON() returns (p: Program)
      modifies this
      ensures p == this && cfg == old(cfg).(encode := Spread.EncodeJSON)
    {
      cfg := cfg.(encode := Spread.EncodeJSON);
      return this;
    }

    method EncodeYAML() returns (p: Program)
      modifies this
      ensures p == this && cfg == old(cfg).(encode := Spread.EncodeYAML)
    {
      cfg := cfg.(encode := Spread.EncodeYAML);
      return this;
    }

    method EncodeTOML() returns (p: Program)
      modifies this
      ensures p == this && cfg == old(cfg).(encode := Spread.EncodeTOML)
    {
      cfg := cfg.(encode := Spread.EncodeTOML);
      return this;
    }

    method DryRun() returns (p: Program)
      modifies this
      ensures p == this && cfg == old(cfg).(dryrun := true)
    {
      cfg := cfg.(dryrun := true);
      return this;
    }

    method FileExtensions(extensions: seq<string>) returns (p: Program)
      modifies this
      ensures p == this && cfg == old(cfg).(fileExtensions := extensions)
    {
      cfg := cfg.(fileExtensions := extensions);
      return this;
    }
  }
}
