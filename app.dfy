/**
 * The logic of the page component (App.jsx) that is not markup: the page
 * state and its analyze handler, the rule that disables the analyze button,
 * which of the result list and the empty state is shown, and what a
 * character card shows of a record (the stroke breakdown, the first words
 * and sentences, the five-stroke code).
 */
module App {
  import opened JsText
  import opened Cnchar
  import opened HanziAnalyzer

  // ---------------------------------------------------------------------
  // Stroke names
  // ---------------------------------------------------------------------

  /** The names getStrokeName knows: the analyzer's seventeen and the CJK stroke block. */
  const StrokeNameTable: map<char, string> := map[
    '一' := "横", '丨' := "竖", '丿' := "撇", '丶' := "点", '乙' := "折",
    '亅' := "竖钩", '丷' := "八字头", '冫' := "两点水", '冖' := "秃宝盖",
    '十' := "十字", '厂' := "厂字头", '匚' := "三匡", '刂' := "立刀旁",
    '卜' := "卜字旁", '占' := "占字头", '厶' := "私字旁", '又' := "又字旁",
    '㇀' := "提", '㇁' := "横钩", '㇂' := "竖钩", '㇃' := "横折", '㇄' := "横撇",
    '㇅' := "横折钩", '㇆' := "横折提", '㇇' := "横撇弯钩", '㇈' := "横折折撇",
    '㇉' := "横折折折钩", '㇊' := "竖提", '㇋' := "竖弯", '㇌' := "竖弯钩",
    '㇍' := "竖折", '㇎' := "竖折折钩", '㇏' := "捺"
  ]

  const OtherStroke: string := "其他"

  /**
   * getStrokeName: `strokeNames[stroke] || '其他'`. Only a one-unit string
   * can equal a key; every tabled name is non-empty, so the fallback is
   * taken exactly for strokes that are not keys.
   */
  function GetStrokeName(stroke: Text): (r: string)
    ensures |stroke| == 1 && Lookup(StrokeNameTable, stroke[0]).Some? ==> r == StrokeNameTable[stroke[0] as char]
    ensures !(|stroke| == 1 && Lookup(StrokeNameTable, stroke[0]).Some?) ==> r == OtherStroke
    ensures r != []
    ensures r == OtherStroke || r in StrokeNameTable.Values
  {
    var named := if |stroke| == 1 then Lookup(StrokeNameTable, stroke[0]) else None;
    OrElse(named, OtherStroke)
  }

  /** The page's table extends the analyzer's: a stroke both know gets the same name from each. */
  lemma StrokeNamesAgree(u: CodeUnit)
    requires Lookup(StrokeNames, u).Some?
    ensures GetStrokeName([u]) == StrokeNames[u as char]
  {
    var c := u as char;
    assert c in StrokeNameTable && StrokeNameTable[c] == StrokeNames[c];
  }

  /** 一 is 横 and ㇏ is 捺. */
  lemma StrokeNameSamples()
    ensures GetStrokeName([0x4E00]) == "横"
    ensures GetStrokeName([0x31CF]) == "捺"
  {
  }

  /** A stroke string that is not exactly one code unit is never a key. */
  lemma LongStrokeIsOther(stroke: Text)
    requires |stroke| != 1
    ensures GetStrokeName(stroke) == OtherStroke
  {
  }

  // ---------------------------------------------------------------------
  // The analyze button and the result area
  // ---------------------------------------------------------------------

  /** `disabled={isLoading || !inputText.trim()}`. */
  predicate AnalyzeDisabled(isLoading: bool, inputText: Text) {
    isLoading || IsBlank(inputText)
  }

  /** The button is disabled exactly while loading or while the input is all white space. */
  lemma AnalyzeDisabledIff(isLoading: bool, inputText: Text)
    ensures AnalyzeDisabled(isLoading, inputText) <==>
      isLoading || forall i :: 0 <= i < |inputText| ==> IsJsWhitespace(inputText[i])
  {
  }

  /** `analyzedChars.length > 0`: the header and the cards are shown. */
  predicate ShowsResults(analyzedChars: seq<CharRecord>) {
    |analyzedChars| > 0
  }

  /** `analyzedChars.length === 0 && !isLoading`: the empty state is shown. */
  predicate ShowsEmptyState(analyzedChars: seq<CharRecord>, isLoading: bool) {
    |analyzedChars| == 0 && !isLoading
  }

  /** At most one of the two is shown, and once loading is over exactly one is. */
  lemma ResultAreaExclusive(analyzedChars: seq<CharRecord>, isLoading: bool)
    ensures !(ShowsResults(analyzedChars) && ShowsEmptyState(analyzedChars, isLoading))
    ensures !isLoading ==> ShowsResults(analyzedChars) != ShowsEmptyState(analyzedChars, isLoading)
    ensures isLoading && analyzedChars == [] ==>
      !ShowsResults(analyzedChars) && !ShowsEmptyState(analyzedChars, isLoading)
  {
  }

  // ---------------------------------------------------------------------
  // A character card
  // ---------------------------------------------------------------------

  const NoWubiShown: string := "暂无"

  /** `charData.wubi || '暂无'`. */
  function WubiShown(record: CharRecord): (r: string)
    ensures record.wubi != [] ==> r == record.wubi
    ensures record.wubi == [] ==> r == NoWubiShown
  {
    OrElse(Some(record.wubi), NoWubiShown)
  }

  /** For a record analyzeChar built, the card's fallback never applies: it shows the record's own code. */
  lemma WubiShownIsWubi(lib: Library, s: Text, record: CharRecord)
    requires AnalyzeChar(lib, s) == Some(record)
    ensures WubiShown(record) == record.wubi
    ensures WubiShown(record) == GetWubi(record.character)
  {
  }

  /** `charData.words.slice(0, 4)`. */
  function WordBadges(record: CharRecord): (r: seq<string>)
    ensures |r| == Min(4, |record.words|)
    ensures forall i :: 0 <= i < |r| ==> r[i] == record.words[i]
  {
    Prefix(record.words, 4)
  }

  /** `charData.sentences.slice(0, 2)`. */
  function SentenceLines(record: CharRecord): (r: seq<string>)
    ensures |r| == Min(2, |record.sentences|)
    ensures forall i :: 0 <= i < |r| ==> r[i] == record.sentences[i]
  {
    Prefix(record.sentences, 2)
  }

  /**
   * On a record analyzeChar built, the extended tab shows four of the five
   * tabled words, or the one placeholder; and all of the sentences, the two
   * tabled ones or the placeholder.
   */
  lemma ExtendedTab(lib: Library, s: Text, record: CharRecord)
    requires AnalyzeChar(lib, s) == Some(record)
    ensures Lookup(WordsTable, record.character).Some? ==>
      |WordBadges(record)| == 4 && WordBadges(record) == GetWords(record.character)[..4]
    ensures Lookup(WordsTable, record.character).None? ==> WordBadges(record) == NoWords
    ensures SentenceLines(record) == record.sentences
  {
    if Lookup(SentencesTable, record.character).Some? {
      assert |record.sentences| == 2;
    }
  }

  /** The caption `第{index + 1}笔` of a stroke cell, for the cell's 1-based position. */
  function Caption(order: nat): Text {
    [Di] + Decimal(order) + [Bi]
  }

  /** One cell of the stroke breakdown. */
  datatype StrokeCell = StrokeCell(caption: Text, stroke: Text, name: string)

  /** `charData.strokeOrder?.map(...)`: one cell per stroke, in order, captioned with its position. */
  function StrokeCells(strokeOrder: seq<Text>): (r: seq<StrokeCell>)
    ensures |r| == |strokeOrder|
    ensures forall i :: 0 <= i < |r| ==>
      r[i].caption == Caption(i + 1) && r[i].stroke == strokeOrder[i] && r[i].name == GetStrokeName(strokeOrder[i])
  {
    seq(|strokeOrder|, i requires 0 <= i < |strokeOrder| =>
      StrokeCell(Caption(i + 1), strokeOrder[i], GetStrokeName(strokeOrder[i])))
  }

  /** Distinct positions get distinct captions. */
  lemma CaptionsDistinct(m: nat, n: nat)
    requires m != n
    ensures Caption(m) != Caption(n)
  {
    if Caption(m) == Caption(n) {
      var dm, dn := Decimal(m), Decimal(n);
      assert |dm| == |dn|;
      assert dm == Caption(m)[1..|dm| + 1];
      assert dn == Caption(n)[1..|dn| + 1];
      DecimalInjective(m, n);
    }
  }

  /** A cell's caption is the analyzer's description of that stroke up to its colon. */
  lemma CaptionBeginsDescription(order: nat, name: Text)
    ensures Describe(order, name) == Caption(order) + [Colon] + name
  {
  }

  // ---------------------------------------------------------------------
  // The page state and the analyze handler
  // ---------------------------------------------------------------------

  /** analyzeText as handleAnalyze calls it: it returns its records and never throws. */
  function AnalyzeTextCall(lib: Library): Text -> Outcome<seq<CharRecord>> {
    (t: Text) => Returns(AnalyzeText(lib, t))
  }

  /** The page component's three pieces of state. */
  class Page {
    var inputText: Text
    var analyzedChars: seq<CharRecord>
    var isLoading: bool

    /** The initial state: empty input, no results, not loading. */
    constructor()
      ensures inputText == [] && analyzedChars == [] && !isLoading
    {
      inputText := [];
      analyzedChars := [];
      isLoading := false;
    }

    /** The input's onChange handler: `setInputText(e.target.value)`. */
    method SetInputText(value: Text)
      modifies this
      ensures inputText == value
      ensures analyzedChars == old(analyzedChars) && isLoading == old(isLoading)
    {
      inputText := value;
    }

    predicate ButtonDisabled()
      reads this
    {
      AnalyzeDisabled(isLoading, inputText)
    }

    /**
     * handleAnalyze with the analysis `analyze` (analyzeText, which may
     * throw). On blank input nothing changes. Otherwise the results replace
     * the shown ones, a throw leaves them as they were, and loading is over
     * either way; the button is enabled again afterwards.
     */
    method HandleAnalyze(analyze: Text -> Outcome<seq<CharRecord>>)
      modifies this
      ensures inputText == old(inputText)
      ensures IsBlank(inputText) ==> analyzedChars == old(analyzedChars) && isLoading == old(isLoading)
      ensures !IsBlank(inputText) ==> !isLoading && !ButtonDisabled()
      ensures !IsBlank(inputText) && analyze(inputText).Returns? ==> analyzedChars == analyze(inputText).value
      ensures !IsBlank(inputText) && analyze(inputText).Throws? ==> analyzedChars == old(analyzedChars)
    {
      if IsBlank(inputText) {
        return;
      }
      isLoading := true;
      var outcome := analyze(inputText);
      match outcome {
        case Returns(results) =>
          analyzedChars := results;
        case Throws =>
      }
      isLoading := false;
    }
  }

  /**
   * The page as a user drives it: type `text` into the input, then press
   * 分析, with analyzeText as the analysis. The cards shown are exactly
   * analyzeText's records (blank input included, since white space holds no
   * ideograph), and loading is over.
   */
  method AnalyzeInput(lib: Library, text: Text) returns (page: Page)
    ensures fresh(page)
    ensures page.inputText == text && !page.isLoading
    ensures page.analyzedChars == AnalyzeText(lib, text)
  {
    page := new Page();
    page.SetInputText(text);
    page.HandleAnalyze(AnalyzeTextCall(lib));
    if IsBlank(text) {
      BlankIffAllWhitespace(text);
      AnalyzeTextWithoutIdeographs(lib, text);
    }
  }
}
