/** The glyph ramps of `ASCIIGenerator.ASCII_CHARS`, each ordered from darkest to lightest. */
module Palettes {

  const Simple: string := " .:-=+*#%@"
  // Written in pieces of ten glyphs; the concatenation is the 70-glyph ramp.
  const Detailed: string :=
    " .'`^\",:;I" + "l!i><~+_-?" + "][}{1)(|\\/" + "tfjrxnuvcz" + "XYUJCLQ0OZ" + "mwqpdbkhao" + "*#MW&8%B@$"
  const Blocks: string := " ░▒▓█"
  const Standard: string := " .,-:;i=+%O#@"

  /** The palette dictionary, keyed by style name. */
  const AsciiChars: map<string, string> :=
    map["simple" := Simple, "detailed" := Detailed, "blocks" := Blocks, "standard" := Standard]

  /** The dictionary's keys in insertion order, as the style chooser lists them. */
  const StyleNames: seq<string> := ["simple", "detailed", "blocks", "standard"]

  /** One of the four fixed ramps. */
  predicate IsPalette(chars: string)
  {
    chars == Simple || chars == Detailed || chars == Blocks || chars == Standard
  }

  /**
   * What the glyph mapper and the line joiner need of a ramp: at least two
   * glyphs, the first a space (the darkest glyph on the black result area),
   * and no newline, so rendered lines never break.
   */
  predicate IsRamp(chars: string)
  {
    |chars| >= 2 && chars[0] == ' ' && '\n' !in chars
  }

  /**
   * The constructor's `ASCII_CHARS.get(ascii_chars, ASCII_CHARS['standard'])`:
   * a known style selects its ramp, any other name the standard one.
   */
  function Lookup(style: string): (chars: string)
    ensures style == "simple" ==> chars == Simple
    ensures style == "detailed" ==> chars == Detailed
    ensures style == "blocks" ==> chars == Blocks
    ensures style == "standard" ==> chars == Standard
    ensures style !in StyleNames ==> chars == Standard
    ensures IsPalette(chars)
  {
    if style in AsciiChars then AsciiChars[style] else AsciiChars["standard"]
  }

  /** The keys of the dictionary are exactly the listed style names. */
  lemma StyleNamesAreKeys(style: string)
    ensures style in AsciiChars <==> style in StyleNames
  {
  }

  /** Each of the four palettes is a ramp; their lengths are 10, 70, 5 and 13. */
  lemma PaletteFacts(chars: string)
    requires IsPalette(chars)
    ensures IsRamp(chars)
    ensures chars == Simple ==> |chars| == 10
    ensures chars == Detailed ==> |chars| == 70
    ensures chars == Blocks ==> |chars| == 5
    ensures chars == Standard ==> |chars| == 13
  {
  }

  /** The length of the ramp each style name selects. */
  lemma LookupLength(style: string)
    ensures |Lookup(style)| == (if style == "simple" then 10
                               else if style == "detailed" then 70
                               else if style == "blocks" then 5
                               else 13)
  {
    PaletteFacts(Lookup(style));
  }
}
