/**
 * The character analyzer (the static class HanziAnalyzer): a record per
 * character built from cnchar's answers and from static lookup tables, the
 * filtering of a text down to its CJK ideographs, and the numbered stroke
 * description.
 */
module HanziAnalyzer {
  import opened JsText
  import opened Cnchar

  /**
   * The object analyzeChar returns. The fields filled from the tables below
   * only ever hold the source's own string literals and are kept as such;
   * the fields filled by cnchar are JavaScript strings of code units.
   */
  datatype CharRecord = CharRecord(
    character: CodeUnit,
    pinyin: Text,
    pinyinArray: seq<Text>,
    stroke: int,
    strokeOrder: seq<Text>,
    radical: Text,
    structure: string,
    traditional: Text,
    wubi: string,
    wuxing: string,
    meaning: string,
    words: seq<string>,
    sentences: seq<string>
  )

  // ---------------------------------------------------------------------
  // Key lookups with a placeholder
  // ---------------------------------------------------------------------

  const WubiTable: map<char, string> := map[
    '学' := "IPBF", '习' := "NUD", '人' := "WWWW",
    '大' := "DDDD", '小' := "IHTY", '上' := "HHGG",
    '下' := "GHI", '中' := "KHK", '好' := "VBG",
    '生' := "TGD", '字' := "PBF"
  ]

  /** Every tabled code is a non-empty string, so `||` never falls back on a hit. */
  lemma WubisNonEmpty()
    ensures forall k :: k in WubiTable ==> WubiTable[k] != []
  {
  }

  const NoWubi: string := "暂无"

  /** The five-stroke code of a character, or 暂无. */
  function GetWubi(c: CodeUnit): (r: string)
    ensures Lookup(WubiTable, c).Some? ==> r == WubiTable[c as char]
    ensures Lookup(WubiTable, c).None? ==> r == NoWubi
    ensures r != []
  {
    WubisNonEmpty();
    OrElse(Lookup(WubiTable, c), NoWubi)
  }

  const MeaningTable: map<char, string> := map[
    '人' := "人类，人民", '大' := "大小的大，巨大",
    '小' := "大小的小，微小", '上' := "方位词，向上",
    '下' := "方位词，向下", '中' := "中间，中央",
    '一' := "数字一，第一", '二' := "数字二，第二",
    '三' := "数字三，第三", '十' := "数字十",
    '好' := "好坏的好，优秀", '学' := "学习，学问",
    '生' := "生命，学生", '字' := "文字，汉字",
    '我' := "第一人称代词", '你' := "第二人称代词",
    '他' := "第三人称代词"
  ]

  /** Every tabled gloss is a non-empty string. */
  lemma MeaningsNonEmpty()
    ensures forall k :: k in MeaningTable ==> MeaningTable[k] != []
  {
  }

  const NoMeaning: string := "暂无释义"

  /** The gloss of a character, or 暂无释义. */
  function GetMeaning(c: CodeUnit): (r: string)
    ensures Lookup(MeaningTable, c).Some? ==> r == MeaningTable[c as char]
    ensures Lookup(MeaningTable, c).None? ==> r == NoMeaning
    ensures r != []
  {
    MeaningsNonEmpty();
    OrElse(Lookup(MeaningTable, c), NoMeaning)
  }

  const WordsTable: map<char, seq<string>> := map[
    '人' := ["人民", "人类", "人们", "人生", "人物"],
    '大' := ["大小", "大家", "大学", "大人", "大地"],
    '小' := ["小学", "小孩", "小心", "小鸟", "小花"],
    '上' := ["上学", "上班", "上面", "上课", "上午"],
    '下' := ["下学", "下班", "下面", "下课", "下午"],
    '中' := ["中国", "中间", "中学", "中午", "中心"],
    '好' := ["好人", "好事", "好看", "好听", "好吃"],
    '学' := ["学习", "学校", "学生", "学问", "学会"],
    '生' := ["生活", "生命", "生日", "生气", "生长"],
    '字' := ["汉字", "文字", "字母", "字典", "写字"]
  ]

  /** Every tabled character has five words. */
  lemma WordsListed()
    ensures forall k :: k in WordsTable ==> |WordsTable[k]| == 5
  {
  }

  const NoWords: seq<string> := ["暂无组词"]

  /**
   * The example words of a character, or the one placeholder 暂无组词.
   * An array is truthy even when empty, so `||` falls back only on a miss.
   */
  function GetWords(c: CodeUnit): (r: seq<string>)
    ensures Lookup(WordsTable, c).Some? ==> r == WordsTable[c as char] && |r| == 5
    ensures Lookup(WordsTable, c).None? ==> r == NoWords
  {
    WordsListed();
    match Lookup(WordsTable, c)
    case Some(words) => words
    case None => NoWords
  }

  const SentencesTable: map<char, seq<string>> := map[
    '人' := ["人人都有梦想。", "这个人很善良。"],
    '大' := ["大象很大。", "他有一个大房子。"],
    '小' := ["小鸟在唱歌。", "这是一朵小花。"],
    '上' := ["我们上学去。", "书在桌子上面。"],
    '下' := ["雨从天空下来。", "请坐下来。"],
    '中' := ["中国是我的祖国。", "他在房间中间。"],
    '好' := ["今天天气很好。", "这是一个好主意。"],
    '学' := ["我喜欢学习。", "学校里有很多学生。"],
    '生' := ["生活很美好。", "今天是我的生日。"],
    '字' := ["这个字很难写。", "请写出这个字。"]
  ]

  /** Every tabled character has two sentences. */
  lemma SentencesListed()
    ensures forall k :: k in SentencesTable ==> |SentencesTable[k]| == 2
  {
  }

  const NoSentences: seq<string> := ["暂无例句"]

  /** The example sentences of a character, or the one placeholder 暂无例句. */
  function GetSentences(c: CodeUnit): (r: seq<string>)
    ensures Lookup(SentencesTable, c).Some? ==> r == SentencesTable[c as char] && |r| == 2
    ensures Lookup(SentencesTable, c).None? ==> r == NoSentences
  {
    SentencesListed();
    match Lookup(SentencesTable, c)
    case Some(sentences) => sentences
    case None => NoSentences
  }

  // ---------------------------------------------------------------------
  // First-match classification over an ordered table
  // ---------------------------------------------------------------------

  /** One entry of Object.entries(table): a label and the characters listed under it. */
  datatype Category = Category(name: string, members: string)

  /** `chars.includes(char)` for the one-unit string `[c]`. */
  predicate Lists(members: string, c: CodeUnit) {
    IsScalar(c) && (c as char) in members
  }

  /** The labels of a table, in declaration order. */
  function Names(table: seq<Category>): (r: seq<string>)
    ensures |r| == |table|
    ensures forall i :: 0 <= i < |table| ==> r[i] == table[i].name
  {
    if table == [] then [] else [table[0].name] + Names(table[1..])
  }

  /** The label of the first entry whose list holds `c`, as the for-of loop with early return finds it. */
  function FirstMatch(table: seq<Category>, c: CodeUnit): (r: Option<string>)
    ensures r.None? <==> forall i :: 0 <= i < |table| ==> !Lists(table[i].members, c)
    ensures r.Some? ==> r.value in Names(table)
  {
    if table == [] then None
    else if Lists(table[0].members, c) then Some(table[0].name)
    else FirstMatch(table[1..], c)
  }

  /** Entry `i` lists `c` and no earlier entry does. */
  predicate FirstListing(table: seq<Category>, c: CodeUnit, i: nat) {
    i < |table| && Lists(table[i].members, c) && forall j :: 0 <= j < i ==> !Lists(table[j].members, c)
  }

  /** The entry that lists `c` first is the one whose label FirstMatch returns. */
  lemma {:induction false} FirstMatchPicksFirst(table: seq<Category>, c: CodeUnit, i: nat)
    requires FirstListing(table, c, i)
    ensures FirstMatch(table, c) == Some(table[i].name)
  {
    if i > 0 {
      FirstMatchPicksFirst(table[1..], c, i - 1);
    }
  }

  /** Conversely, a label that FirstMatch returns comes from the first entry that lists `c`. */
  lemma {:induction false} FirstMatchWitness(table: seq<Category>, c: CodeUnit) returns (i: nat)
    requires FirstMatch(table, c).Some?
    ensures FirstListing(table, c, i)
    ensures FirstMatch(table, c) == Some(table[i].name)
  {
    if Lists(table[0].members, c) {
      i := 0;
    } else {
      var k := FirstMatchWitness(table[1..], c);
      i := k + 1;
    }
  }

  const StructureTable: seq<Category> := [
    Category("左右结构", "他们你我好的在是有不"),
    Category("上下结构", "字学生花草笑哭想思意"),
    Category("左中右结构", "谢湖树街做搬脚班辨辩"),
    Category("上中下结构", "意章竟高亮景影营警察"),
    Category("全包围结构", "国园圆因困围图团回四"),
    Category("半包围结构", "同问间闻门闪闭开关这"),
    Category("独体结构", "人大小上下中一二三十")
  ]

  const OtherStructure: string := "其他结构"

  /** The structure labels getStructure can return: the table's seven and the default. */
  const StructureLabels: seq<string> := Names(StructureTable) + [OtherStructure]

  /** The structure of a character: the first table entry listing it, else 其他结构. */
  function GetStructure(c: CodeUnit): (r: string)
    ensures r in StructureLabels
    ensures forall i: nat :: FirstListing(StructureTable, c, i) ==> r == StructureTable[i].name
    ensures (forall i :: 0 <= i < |StructureTable| ==> !Lists(StructureTable[i].members, c)) ==> r == OtherStructure
  {
    assert forall i: nat :: FirstListing(StructureTable, c, i) ==> FirstMatch(StructureTable, c) == Some(StructureTable[i].name) by {
      forall i: nat | FirstListing(StructureTable, c, i) {
        FirstMatchPicksFirst(StructureTable, c, i);
      }
    }
    match FirstMatch(StructureTable, c)
    case Some(name) => name
    case None => OtherStructure
  }

  const WuxingTable: seq<Category> := [
    Category("金", "金银铁钢铜锡铝钱针钟"),
    Category("木", "木树林森花草叶根枝果"),
    Category("水", "水河海湖江池雨雪冰泉"),
    Category("火", "火炎热烧烤灯光明亮阳"),
    Category("土", "土地山石岩田园圆城墙")
  ]

  const DefaultWuxing: string := "土"

  /** The element of a character: the first table entry listing it, else 土. */
  function GetWuxing(c: CodeUnit): (r: string)
    ensures r in Names(WuxingTable)
    ensures forall i: nat :: FirstListing(WuxingTable, c, i) ==> r == WuxingTable[i].name
    ensures (forall i :: 0 <= i < |WuxingTable| ==> !Lists(WuxingTable[i].members, c)) ==> r == DefaultWuxing
  {
    assert forall i: nat :: FirstListing(WuxingTable, c, i) ==> FirstMatch(WuxingTable, c) == Some(WuxingTable[i].name) by {
      forall i: nat | FirstListing(WuxingTable, c, i) {
        FirstMatchPicksFirst(WuxingTable, c, i);
      }
    }
    match FirstMatch(WuxingTable, c)
    case Some(name) => name
    case None => DefaultWuxing
  }

  // ---------------------------------------------------------------------
  // One character
  // ---------------------------------------------------------------------

  const NoRadical: Text := Utf16("暂无")

  /**
   * analyzeChar: null unless `s` is exactly one code unit; null as well when
   * any cnchar call throws (the catch block); otherwise the record.
   */
  function AnalyzeChar(lib: Library, s: Text): (r: Option<CharRecord>)
    ensures r.Some? <==> |s| == 1 && Succeeds(lib, s[0])
    ensures r.Some? ==>
      var c := s[0];
      && r.value.character == c
      && r.value.pinyin == lib.spellTone(c).value
      && r.value.pinyinArray == lib.spellReadings(c).value
      && r.value.stroke == lib.strokeCount(c).value
      && r.value.strokeOrder == lib.strokeArray(c).value
      && r.value.radical == (if lib.radical.Some? then lib.radical.value(c).value else NoRadical)
      && r.value.traditional == (if lib.simpleToTrad.Some? then lib.simpleToTrad.value(c).value else s)
      && r.value.structure == GetStructure(c)
      && r.value.wubi == GetWubi(c)
      && r.value.wuxing == GetWuxing(c)
      && r.value.meaning == GetMeaning(c)
      && r.value.words == GetWords(c)
      && r.value.sentences == GetSentences(c)
  {
    if |s| != 1 then None
    else
      var c := s[0];
      var pinyin := lib.spellTone(c);
      var pinyinArray := lib.spellReadings(c);
      var stroke := lib.strokeCount(c);
      var strokeOrder := lib.strokeArray(c);
      var radical := if lib.radical.Some? then lib.radical.value(c) else Returns(NoRadical);
      var traditional := if lib.simpleToTrad.Some? then lib.simpleToTrad.value(c) else Returns(s);
      if pinyin.Throws? || pinyinArray.Throws? || stroke.Throws? || strokeOrder.Throws?
         || radical.Throws? || traditional.Throws?
      then None
      else Some(CharRecord(
        character := c,
        pinyin := pinyin.value,
        pinyinArray := pinyinArray.value,
        stroke := stroke.value,
        strokeOrder := strokeOrder.value,
        radical := radical.value,
        structure := GetStructure(c),
        traditional := traditional.value,
        wubi := GetWubi(c),
        wuxing := GetWuxing(c),
        meaning := GetMeaning(c),
        words := GetWords(c),
        sentences := GetSentences(c)))
  }

  // ---------------------------------------------------------------------
  // A text
  // ---------------------------------------------------------------------

  /** `text.split('').filter(char => /[一-鿿]/.test(char))`. */
  function Ideographs(text: Text): (r: Text)
    ensures forall i :: 0 <= i < |r| ==> IsIdeograph(r[i])
  {
    if text == [] then []
    else
      var rest := Ideographs(text[1..]);
      if IsIdeograph(text[0]) then [text[0]] + rest else rest
  }

  /** The filter keeps every occurrence of an ideograph and nothing else. */
  lemma {:induction false} IdeographsCount(text: Text, u: CodeUnit)
    ensures multiset(Ideographs(text))[u] == if IsIdeograph(u) then multiset(text)[u] else 0
  {
    if text != [] {
      assert text == [text[0]] + text[1..];
      IdeographsCount(text[1..], u);
    }
  }

  /** A text without ideographs filters to nothing. */
  lemma {:induction false} IdeographsNone(text: Text)
    requires forall i :: 0 <= i < |text| ==> !IsIdeograph(text[i])
    ensures Ideographs(text) == []
  {
    if text != [] {
      assert !IsIdeograph(text[0]);
      IdeographsNone(text[1..]);
    }
  }

  /** The filter keeps the input order. */
  lemma {:induction false} IdeographsInOrder(text: Text)
    ensures SubsequenceOf(Ideographs(text), text)
  {
    if text != [] {
      IdeographsInOrder(text[1..]);
      var rest := Ideographs(text[1..]);
      if IsIdeograph(text[0]) {
        assert ([text[0]] + rest)[1..] == rest;
      }
    }
  }

  /** `chars.map(analyze)`. */
  function MapEach(analyze: CodeUnit -> Option<CharRecord>, units: Text): (r: seq<Option<CharRecord>>)
    ensures |r| == |units|
    ensures forall i :: 0 <= i < |units| ==> r[i] == analyze(units[i])
  {
    seq(|units|, i requires 0 <= i < |units| => analyze(units[i]))
  }

  /** `.filter(result => result !== null)`. */
  function Present(results: seq<Option<CharRecord>>): (r: seq<CharRecord>)
    ensures |r| <= |results|
    ensures forall i :: 0 <= i < |r| ==> Some(r[i]) in results
  {
    if results == [] then []
    else
      var rest := Present(results[1..]);
      assert forall x :: x in results[1..] ==> x in results;
      if results[0].Some? then [results[0].value] + rest else rest
  }

  /** The characters of the records, in order. */
  function Chars(records: seq<CharRecord>): (r: Text)
    ensures |r| == |records|
    ensures forall i :: 0 <= i < |records| ==> r[i] == records[i].character
  {
    seq(|records|, i requires 0 <= i < |records| => records[i].character)
  }

  /**
   * The shape of analyzeText for any per-character callback: an empty text
   * gives no record; otherwise the callback is mapped over the ideographs
   * and the nulls are dropped.
   */
  function AnalyzeWith(analyze: CodeUnit -> Option<CharRecord>, text: Text): seq<CharRecord> {
    if text == [] then [] else Present(MapEach(analyze, Ideographs(text)))
  }

  /** `char => this.analyzeChar(char)`, the callback analyzeText maps over the ideographs. */
  function Analyzer(lib: Library): CodeUnit -> Option<CharRecord> {
    (c: CodeUnit) => AnalyzeChar(lib, [c])
  }

  /** analyzeText: analyzeChar applied to each ideograph of the text, the nulls dropped. */
  function AnalyzeText(lib: Library, text: Text): seq<CharRecord> {
    AnalyzeWith(Analyzer(lib), text)
  }

  // ---------------------------------------------------------------------
  // The map-and-filter stage, for any callback
  // ---------------------------------------------------------------------

  /** A callback whose records are always for the code unit it was given. */
  ghost predicate KeepsCharacter(analyze: CodeUnit -> Option<CharRecord>) {
    forall u: CodeUnit :: analyze(u).Some? ==> analyze(u).value.character == u
  }

  lemma {:induction false} IdeographsConcat(a: Text, b: Text)
    ensures Ideographs(a + b) == Ideographs(a) + Ideographs(b)
  {
    if a == [] {
      assert a + b == b;
    } else {
      assert (a + b)[1..] == a[1..] + b;
      IdeographsConcat(a[1..], b);
    }
  }

  lemma {:induction false} PresentConcat(x: seq<Option<CharRecord>>, y: seq<Option<CharRecord>>)
    ensures Present(x + y) == Present(x) + Present(y)
  {
    if x == [] {
      assert x + y == y;
    } else {
      assert (x + y)[1..] == x[1..] + y;
      PresentConcat(x[1..], y);
    }
  }

  lemma AnalyzeWithConcat(analyze: CodeUnit -> Option<CharRecord>, a: Text, b: Text)
    ensures AnalyzeWith(analyze, a + b) == AnalyzeWith(analyze, a) + AnalyzeWith(analyze, b)
  {
    if a == [] {
      assert a + b == b;
    } else if b == [] {
      assert a + b == a;
    } else {
      IdeographsConcat(a, b);
      var ua, ub := Ideographs(a), Ideographs(b);
      assert MapEach(analyze, ua + ub) == MapEach(analyze, ua) + MapEach(analyze, ub);
      PresentConcat(MapEach(analyze, ua), MapEach(analyze, ub));
    }
  }

  lemma AnalyzeWithUnit(analyze: CodeUnit -> Option<CharRecord>, u: CodeUnit)
    ensures AnalyzeWith(analyze, [u]) ==
      if IsIdeograph(u) && analyze(u).Some? then [analyze(u).value] else []
  {
    assert [u][1..] == [];
    assert Ideographs([u]) == if IsIdeograph(u) then [u] else [];
    if IsIdeograph(u) {
      var results := MapEach(analyze, [u]);
      assert results == [analyze(u)];
      assert results[1..] == [];
    }
  }

  lemma CharsConcat(x: seq<CharRecord>, y: seq<CharRecord>)
    ensures Chars(x + y) == Chars(x) + Chars(y)
  {
  }

  /** Every record is for an ideograph and is the callback's result for it. */
  lemma AnalyzeWithSound(analyze: CodeUnit -> Option<CharRecord>, text: Text, i: nat)
    requires KeepsCharacter(analyze)
    requires i < |AnalyzeWith(analyze, text)|
    ensures IsIdeograph(AnalyzeWith(analyze, text)[i].character)
    ensures analyze(AnalyzeWith(analyze, text)[i].character) == Some(AnalyzeWith(analyze, text)[i])
  {
  }

  lemma {:induction false} AnalyzeWithKeepsOrder(analyze: CodeUnit -> Option<CharRecord>, text: Text)
    requires KeepsCharacter(analyze)
    ensures SubsequenceOf(Chars(AnalyzeWith(analyze, text)), text)
  {
    if text != [] {
      var u := text[0];
      assert text == [u] + text[1..];
      AnalyzeWithConcat(analyze, [u], text[1..]);
      AnalyzeWithUnit(analyze, u);
      AnalyzeWithKeepsOrder(analyze, text[1..]);
      var head, rest := AnalyzeWith(analyze, [u]), AnalyzeWith(analyze, text[1..]);
      CharsConcat(head, rest);
      if head != [] {
        assert (Chars(head) + Chars(rest))[1..] == Chars(rest);
      } else {
        assert Chars(head) + Chars(rest) == Chars(rest);
      }
    }
  }

  lemma {:induction false} AnalyzeWithTotal(analyze: CodeUnit -> Option<CharRecord>, text: Text)
    requires KeepsCharacter(analyze)
    requires forall u: CodeUnit :: IsIdeograph(u) ==> analyze(u).Some?
    ensures Chars(AnalyzeWith(analyze, text)) == Ideographs(text)
  {
    if text != [] {
      var u, tail := text[0], text[1..];
      assert text == [u] + tail;
      AnalyzeWithConcat(analyze, [u], tail);
      var head, rest := AnalyzeWith(analyze, [u]), AnalyzeWith(analyze, tail);
      CharsConcat(head, rest);
      AnalyzeWithUnit(analyze, u);
      assert Chars(head) == if IsIdeograph(u) then [u] else [];
      AnalyzeWithTotal(analyze, tail);
      assert Chars(rest) == Ideographs(tail);
    }
  }

  // ---------------------------------------------------------------------
  // What analyzeText promises
  // ---------------------------------------------------------------------

  /** analyzeChar's records are for the code unit it was given. */
  lemma AnalyzerKeepsCharacter(lib: Library)
    ensures KeepsCharacter(Analyzer(lib))
  {
  }

  /**
   * Every record analyzeText returns is for an ideograph and is exactly
   * what analyzeChar gives for its character.
   */
  lemma AnalyzeTextSound(lib: Library, text: Text, i: nat)
    requires i < |AnalyzeText(lib, text)|
    ensures IsIdeograph(AnalyzeText(lib, text)[i].character)
    ensures AnalyzeChar(lib, [AnalyzeText(lib, text)[i].character]) == Some(AnalyzeText(lib, text)[i])
  {
  }

  /**
   * Each code unit is analyzed on its own: analyzing a concatenation gives
   * the records of the first part followed by those of the second.
   */
  lemma AnalyzeTextConcat(lib: Library, a: Text, b: Text)
    ensures AnalyzeText(lib, a + b) == AnalyzeText(lib, a) + AnalyzeText(lib, b)
  {
    AnalyzeWithConcat(Analyzer(lib), a, b);
  }

  /** One code unit yields its record exactly when it is an ideograph and cnchar does not throw on it. */
  lemma AnalyzeTextUnit(lib: Library, u: CodeUnit)
    ensures AnalyzeText(lib, [u]) ==
      if IsIdeograph(u) && Succeeds(lib, u) then [AnalyzeChar(lib, [u]).value] else []
  {
    AnalyzeWithUnit(Analyzer(lib), u);
    assert [u][0] == u;
  }

  /** The analyzed characters are the input's code units with some left out, in input order. */
  lemma AnalyzeTextKeepsOrder(lib: Library, text: Text)
    ensures SubsequenceOf(Chars(AnalyzeText(lib, text)), text)
  {
    AnalyzerKeepsCharacter(lib);
    AnalyzeWithKeepsOrder(Analyzer(lib), text);
  }

  /**
   * When cnchar never throws on an ideograph, the analyzed characters are
   * exactly the text's ideographs: one record per in-range code unit, in
   * order, duplicates included.
   */
  lemma AnalyzeTextReliable(lib: Library, text: Text)
    requires Reliable(lib)
    ensures Chars(AnalyzeText(lib, text)) == Ideographs(text)
    ensures |AnalyzeText(lib, text)| == |Ideographs(text)|
  {
    AnalyzerKeepsCharacter(lib);
    forall u: CodeUnit | IsIdeograph(u)
      ensures Analyzer(lib)(u).Some?
    {
      assert Succeeds(lib, u);
      assert [u][0] == u;
    }
    AnalyzeWithTotal(Analyzer(lib), text);
  }

  /** A text without any ideograph, the empty text included, yields no record. */
  lemma AnalyzeTextWithoutIdeographs(lib: Library, text: Text)
    requires forall i :: 0 <= i < |text| ==> !IsIdeograph(text[i])
    ensures AnalyzeText(lib, text) == []
  {
    IdeographsNone(text);
  }

  // ---------------------------------------------------------------------
  // Sample characters
  // ---------------------------------------------------------------------

  /** 意 is listed under 上下结构 and under 上中下结构; the earlier entry wins. */
  lemma YiIsTopBottom()
    ensures GetStructure(0x610F) == "上下结构"
    ensures GetStructure(0x610F) != "上中下结构"
  {
    FirstMatchPicksFirst(StructureTable, 0x610F, 1);
  }

  /** 人 is in every table; its gloss, code, first word and structure are the tabled ones. */
  lemma RenMeaning()
    ensures GetMeaning(0x4EBA) == "人类，人民"
  {
  }

  lemma RenWubi()
    ensures GetWubi(0x4EBA) == "WWWW"
  {
  }

  lemma RenFirstWord()
    ensures GetWords(0x4EBA)[0] == "人民"
  {
  }

  lemma RenStructure()
    ensures GetStructure(0x4EBA) == "独体结构"
  {
    FirstMatchPicksFirst(StructureTable, 0x4EBA, 6);
  }

  /** 人大 yields the record of 人 and then that of 大. */
  lemma RenDaInOrder(lib: Library)
    requires Reliable(lib)
    ensures |AnalyzeText(lib, [0x4EBA, 0x5927])| == 2
    ensures AnalyzeText(lib, [0x4EBA, 0x5927])[0].character == 0x4EBA
    ensures AnalyzeText(lib, [0x4EBA, 0x5927])[1].character == 0x5927
  {
  }

  // ---------------------------------------------------------------------
  // Stroke description
  // ---------------------------------------------------------------------

  /** The names getStrokeOrderDescription gives to the strokes it knows. */
  const StrokeNames: map<char, string> := map[
    '一' := "横", '丨' := "竖", '丿' := "撇", '丶' := "点", '乙' := "折",
    '亅' := "竖钩", '丷' := "八字头", '冫' := "两点水", '冖' := "秃宝盖",
    '十' := "十字", '厂' := "厂字头", '匚' := "三匡", '刂' := "立刀旁",
    '卜' := "卜字旁", '占' := "占字头", '厶' := "私字旁", '又' := "又字旁"
  ]

  lemma StrokeNamesNonEmpty()
    ensures forall k :: k in StrokeNames ==> StrokeNames[k] != []
  {
  }

  /** `strokeNames[stroke] || stroke`: the tabled name, else the stroke itself. */
  function StrokeName(u: CodeUnit): (r: Text)
    ensures Lookup(StrokeNames, u).Some? ==> r == Utf16(StrokeNames[u as char])
    ensures Lookup(StrokeNames, u).None? ==> r == [u]
    ensures r != []
  {
    StrokeNamesNonEmpty();
    var named := match Lookup(StrokeNames, u)
      case Some(n) => Some(Utf16(n))
      case None => None;
    OrElse(named, [u])
  }

  /** One entry of the stroke description. */
  datatype StrokeStep = StrokeStep(order: nat, stroke: CodeUnit, name: Text, description: Text)

  const Di: CodeUnit := 0x7B2C      // 第
  const Bi: CodeUnit := 0x7B14      // 笔
  const Colon: CodeUnit := 0xFF1A   // ：

  /** The template literal `第${order}笔：${name}`. */
  function Describe(order: nat, name: Text): Text {
    [Di] + Decimal(order) + [Bi, Colon] + name
  }

  /**
   * getStrokeOrderDescription: one entry per code unit of the stroke string
   * cnchar gives, numbered from 1 in order; no entry at all when cnchar throws.
   */
  function StrokeOrderDescription(lib: Library, s: Text): (r: seq<StrokeStep>)
    ensures lib.strokeOrder(s).Throws? ==> r == []
    ensures lib.strokeOrder(s).Returns? ==> |r| == |lib.strokeOrder(s).value|
    ensures forall i :: 0 <= i < |r| ==>
      && r[i].order == i + 1
      && r[i].stroke == lib.strokeOrder(s).value[i]
      && r[i].name == StrokeName(r[i].stroke)
      && r[i].description == Describe(r[i].order, r[i].name)
  {
    match lib.strokeOrder(s)
    case Throws => []
    case Returns(strokes) =>
      seq(|strokes|, i requires 0 <= i < |strokes| =>
        StrokeStep(i + 1, strokes[i], StrokeName(strokes[i]), Describe(i + 1, StrokeName(strokes[i]))))
  }

  /**
   * Reads a description back: the number after 第 up to 笔：, and the name
   * after it. None for a string not of that form.
   */
  function ParseDescription(t: Text): (r: Option<(nat, Text)>)
  {
    if t == [] || t[0] != Di then None
    else
      var k := DigitRun(t[1..]);
      if k == 0 || |t| < k + 3 || t[k + 1] != Bi || t[k + 2] != Colon then None
      else
        assert forall i :: 0 <= i < k ==> IsDigit(t[1..][..k][i]);
        Some((DecimalValue(t[1..][..k]), t[k + 3..]))
  }

  /** A description determines the number and the name it was written from. */
  lemma DescribeRoundTrip(order: nat, name: Text)
    ensures ParseDescription(Describe(order, name)) == Some((order, name))
  {
    var d := Decimal(order);
    var t := Describe(order, name);
    assert t[0] == Di;
    assert t[1..] == d + ([Bi, Colon] + name);
    DigitRunOfDigits(d, [Bi, Colon] + name);
    var k := |d|;
    assert t[k + 1] == Bi && t[k + 2] == Colon;
    assert t[1..][..k] == d;
    assert t[k + 3..] == name;
    DecimalRoundTrip(order);
  }

  /** No two entries of a stroke description carry the same description text. */
  lemma DescriptionsDistinct(lib: Library, s: Text, i: nat, j: nat)
    requires i < j < |StrokeOrderDescription(lib, s)|
    ensures StrokeOrderDescription(lib, s)[i].description != StrokeOrderDescription(lib, s)[j].description
  {
    var r := StrokeOrderDescription(lib, s);
    DescribeRoundTrip(r[i].order, r[i].name);
    DescribeRoundTrip(r[j].order, r[j].name);
  }
}
