/**
 * The cnchar library as the analyzer uses it. Its behaviour is not part of
 * this model: each call is an oracle supplied by the caller, which either
 * returns a value or throws. The two plug-in entry points that the analyzer
 * tests for before calling (`cnchar.radical`, `cnchar.convert`) may be absent.
 */
module Cnchar {
  import opened JsText

  /** A call into JavaScript that returns a value or throws. */
  datatype Outcome<+T> = Returns(value: T) | Throws

  datatype Library = Library(
    /** cnchar.spell(char, 'tone'): the toned pinyin. */
    spellTone: CodeUnit -> Outcome<Text>,
    /** cnchar.spell(char, 'array', 'tone'): every reading of the character. */
    spellReadings: CodeUnit -> Outcome<seq<Text>>,
    /** cnchar.stroke(char): the stroke count. */
    strokeCount: CodeUnit -> Outcome<int>,
    /** cnchar.stroke(char, 'array'): the strokes, in writing order. */
    strokeArray: CodeUnit -> Outcome<seq<Text>>,
    /** cnchar.radical, when that plug-in is loaded. */
    radical: Option<CodeUnit -> Outcome<Text>>,
    /** cnchar.convert.simpleToTrad, when that plug-in is loaded. */
    simpleToTrad: Option<CodeUnit -> Outcome<Text>>,
    /** cnchar.stroke(char, 'order') followed by .split(''): throws unless it yields a string. */
    strokeOrder: Text -> Outcome<Text>
  )

  /** No library call the analyzer makes for the one-unit string `[c]` throws. */
  predicate Succeeds(lib: Library, c: CodeUnit) {
    && lib.spellTone(c).Returns?
    && lib.spellReadings(c).Returns?
    && lib.strokeCount(c).Returns?
    && lib.strokeArray(c).Returns?
    && (lib.radical.Some? ==> lib.radical.value(c).Returns?)
    && (lib.simpleToTrad.Some? ==> lib.simpleToTrad.value(c).Returns?)
  }

  /** The library never throws on a CJK ideograph. */
  ghost predicate Reliable(lib: Library) {
    forall c: CodeUnit :: IsIdeograph(c) ==> Succeeds(lib, c)
  }
}
