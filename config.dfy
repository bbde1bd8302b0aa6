/** The options every tree operation reads: the branch glyphs, the
    indentation unit of the outline, the output encoding, dry-run, the file
    extensions that mark files rather than directories, and whether the
    pipelined variant is wanted. */
module Configuration {
  import opened Outline
  import opened Branch
  import opened Spread

  datatype Config = Config(
    lastNodeFormat: Format,
    intermedialNodeFormat: Format,
    space: Spaces,
    encode: int,
    dryrun: bool,
    fileExtensions: seq<string>,
    massive: bool)

  /** The glyph pair a configuration grows branches with. */
  function FormatsOf(c: Config): Formats
  {
    Formats(c.lastNodeFormat, c.intermedialNodeFormat)
  }

  /** The standard glyphs: `└──` / four blanks for a last child, `├──` /
      `│` and three blanks for any other child. */
  const DefaultFormats: Formats := Formats(Format("└──", "    "), Format("├──", "│   "))

  /** The configuration a new program starts from: the standard glyphs, tab
      indentation, the plain diagram, no dry-run, no file extensions. */
  const DefaultConfig: Config :=
    Config(DefaultFormats.last, DefaultFormats.intermedial, Tab, EncodeDefault, false, [], false)

  /** Steps a tree operation can take, recorded in the order taken. */
  datatype Step = ResetCounter | GenerateRoots | EnableValidation | GrowBranches | SpreadTree | MakeDirs
}
