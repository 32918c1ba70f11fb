/** Severity levels and the glyph that marks each of them in a rendered message. */
module Levels {
  import opened Wrappers

  // The seven level constants, most severe first. Only their order and
  // distinctness matter to the logger.
  const Panic: int := 0
  const Fatal: int := 1
  const Error: int := 2
  const Warn: int := 3
  const Info: int := 4
  const Debug: int := 5
  const Trace: int := 6

  /** Glyph used for an integer that is none of the seven levels. */
  const Unknown: string := "\U{2049}"

  predicate IsKnown(level: int) {
    Panic <= level <= Trace
  }

  /** An event of `level` passes a logger whose threshold is `threshold`;
      a larger level is more verbose, so it is suppressed when above the threshold. */
  predicate Emits(level: int, threshold: int) {
    level <= threshold
  }

  /** The emoji prefix for a level, one code point each. */
  function Glyph(level: int): (g: string)
    ensures |g| == 1
    ensures IsKnown(level) <==> g != Unknown
  {
    if level == Panic then "\U{1F198}"
    else if level == Fatal then "\U{274C}"
    else if level == Error then "\U{2757}"
    else if level == Warn then "\U{26A0}"
    else if level == Info then "\U{1F5D2}"
    else if level == Debug then "\U{1F4DD}"
    else if level == Trace then "\U{1F4DC}"
    else Unknown
  }

  /** Which level a glyph stands for, if any. */
  function LevelOfGlyph(g: string): (r: Option<int>)
    ensures r.Some? ==> IsKnown(r.value) && Glyph(r.value) == g
  {
    if g == Glyph(Panic) then Some(Panic)
    else if g == Glyph(Fatal) then Some(Fatal)
    else if g == Glyph(Error) then Some(Error)
    else if g == Glyph(Warn) then Some(Warn)
    else if g == Glyph(Info) then Some(Info)
    else if g == Glyph(Debug) then Some(Debug)
    else if g == Glyph(Trace) then Some(Trace)
    else None
  }

  /** The glyph identifies the level: each of the seven levels is read back
      from its glyph, and the fallback glyph stands for no level. */
  lemma GlyphRoundTrip(level: int)
    ensures IsKnown(level) ==> LevelOfGlyph(Glyph(level)) == Some(level)
    ensures !IsKnown(level) ==> LevelOfGlyph(Glyph(level)) == None
  {
  }

  /** Seven levels, seven different glyphs. */
  lemma GlyphsDistinct(a: int, b: int)
    requires IsKnown(a) && IsKnown(b) && a != b
    ensures Glyph(a) != Glyph(b)
  {
    GlyphRoundTrip(a);
    GlyphRoundTrip(b);
  }

  /** The filter is monotone: whatever passes, every more severe level passes too. */
  lemma EmitsMonotone(moreSevere: int, level: int, threshold: int)
    requires moreSevere <= level && Emits(level, threshold)
    ensures Emits(moreSevere, threshold)
  {
  }
}
