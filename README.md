# Hanzi learning assistant: the analyzer and the page logic

This project models the core of a small web application that teaches Chinese characters. The user types some text into the page, presses 分析, and gets one card per CJK ideograph in the text.

The model covers two parts of the source:

- **The static class `HanziAnalyzer`.** It builds one record per character. Some fields come from the cnchar library (pinyin, stroke count and strokes, radical, traditional form). The rest come from fixed lookup tables: five-stroke (五笔) code, gloss, example words and sentences, and, by first match over ordered tables, structure (结构) and element (五行). It also filters a text down to its ideographs and numbers a character's strokes as `第n笔：name`.
- **The page component.** This covers its three pieces of state and the analyze handler, the rule that disables the button, and which of the result list and the empty state is shown. It also covers what a card shows: the stroke breakdown with `getStrokeName`, the first four words and the first two sentences, and the five-stroke code with its fallback.

Files:

- `jstext.dfy`: JavaScript strings.
  - A string is a sequence of UTF-16 code units, so a lone surrogate is representable.
  - Property lookup with a one-unit key; `||` on a string.
  - The CJK range test; `String.prototype.trim`, with the white-space set of ECMA-262 sections 12.2 and 12.3.
  - `${n}` with its round trip; `Array.prototype.slice(0, n)`.
- `cnchar.dfy`: the cnchar library, as a record of oracle functions. Each call returns a value or throws. The radical and conversion plug-ins may be absent.
- `hanzi_analyzer.dfy`: `HanziAnalyzer`.
- `app.dfy`: the page logic.
  - `Page` is a class whose fields are `inputText`, `analyzedChars` and `isLoading`.
  - `HandleAnalyze` is the state transition of `handleAnalyze`.

Modelling choices:

- Table contents stay Dafny strings, because they only ever hold the source's own literals.
- Every text that comes from the user or from cnchar is a `seq` of code units.
- A table key is one character. The lookup `table[char]` with the one-unit string `[c]` hits exactly when `c` is not a surrogate and `c as char` is a key (`JsText.Lookup`).

## Model

| member | source | states |
|---|---|---|
| HanziAnalyzer.AnalyzeChar | src/lib/hanziAnalyzer.js:16-43 | Returns no record unless the input is exactly one code unit and no cnchar call on it throws; that covers the length guard and the catch block. On success, `char` is the input. The cnchar fields are cnchar's answers. The radical is 暂无 when the plug-in is absent; the traditional form is the input itself when conversion is absent. The six table fields equal the helpers applied to the character |
| HanziAnalyzer.Ideographs | src/lib/hanziAnalyzer.js:53 | Every kept code unit lies in U+4E00..U+9FFF |
| HanziAnalyzer.IdeographsCount | src/lib/hanziAnalyzer.js:53 | The filter keeps every occurrence of each ideograph, duplicates included, and no other unit |
| HanziAnalyzer.IdeographsInOrder | src/lib/hanziAnalyzer.js:53 | The kept units are a subsequence of the text, in the text's order |
| HanziAnalyzer.IdeographsNone | src/lib/hanziAnalyzer.js:53 | A text without ideographs filters to nothing |
| HanziAnalyzer.AnalyzeText | src/lib/hanziAnalyzer.js:50-55 | analyzeText itself: `[]` for the empty text, otherwise analyzeChar mapped over the ideographs with the nulls dropped; the lemmas below state what it returns |
| HanziAnalyzer.AnalyzeTextSound | src/lib/hanziAnalyzer.js:50-55 | Every record analyzeText returns is for an ideograph, and it is exactly what analyzeChar returns for that character |
| HanziAnalyzer.AnalyzeTextConcat | src/lib/hanziAnalyzer.js:53-54 | Analysis is per code unit: the records of `a + b` are those of `a` followed by those of `b` |
| HanziAnalyzer.AnalyzeTextUnit | src/lib/hanziAnalyzer.js:53-54 | A single code unit yields its analyzeChar record exactly when it is an ideograph and cnchar does not throw on it, and no record otherwise |
| HanziAnalyzer.AnalyzeTextKeepsOrder | src/lib/hanziAnalyzer.js:53-54 | The characters of the records form an order-preserving subsequence of the input's code units |
| HanziAnalyzer.AnalyzeTextReliable | src/lib/hanziAnalyzer.js:53-54 | When cnchar never throws on an ideograph, there is exactly one record per in-range code unit, duplicates included, in input order |
| HanziAnalyzer.AnalyzeTextWithoutIdeographs | src/lib/hanziAnalyzer.js:50-55 | The empty text, or any text without an in-range unit, yields `[]` |
| HanziAnalyzer.RenDaInOrder | src/lib/hanziAnalyzer.js:50-55 | With a reliable cnchar, 人大 yields two records, 人 first and 大 second |
| HanziAnalyzer.GetWubi | src/lib/hanziAnalyzer.js:62-78 | The tabled code for one of the 11 keys, 暂无 for any other unit; never empty |
| HanziAnalyzer.RenWubi | src/lib/hanziAnalyzer.js:67 | 人 has the code WWWW |
| HanziAnalyzer.FirstMatch | src/lib/hanziAnalyzer.js:98-103 | Finds no label exactly when no entry lists the character; a label it finds is one of the table's labels |
| HanziAnalyzer.FirstMatchPicksFirst | src/lib/hanziAnalyzer.js:98-102 | When entry i is the first, in declaration order, whose list holds the character, its label is returned |
| HanziAnalyzer.FirstMatchWitness | src/lib/hanziAnalyzer.js:98-102 | Conversely, a returned label belongs to the first entry listing the character |
| HanziAnalyzer.GetStructure | src/lib/hanziAnalyzer.js:85-104 | The label of the first entry listing the character, or 其他结构 when none does; always one of the eight labels |
| HanziAnalyzer.YiIsTopBottom | src/lib/hanziAnalyzer.js:90-92 | 意 is listed under both 上下结构 and 上中下结构; the earlier entry wins, so it is 上下结构 |
| HanziAnalyzer.RenStructure | src/lib/hanziAnalyzer.js:95 | 人 is 独体结构 |
| HanziAnalyzer.GetWuxing | src/lib/hanziAnalyzer.js:111-127 | The first element whose list holds the character, else 土; always one of 金木水火土 |
| HanziAnalyzer.GetMeaning | src/lib/hanziAnalyzer.js:134-157 | The tabled gloss for a key, 暂无释义 for any other unit; never empty |
| HanziAnalyzer.RenMeaning | src/lib/hanziAnalyzer.js:137 | 人 is glossed 人类，人民 |
| HanziAnalyzer.GetWords | src/lib/hanziAnalyzer.js:164-180 | The tabled five words for a key, otherwise the single placeholder 暂无组词 |
| HanziAnalyzer.RenFirstWord | src/lib/hanziAnalyzer.js:167 | The first word of 人 is 人民 |
| HanziAnalyzer.GetSentences | src/lib/hanziAnalyzer.js:187-203 | The tabled two sentences for a key, otherwise the single placeholder 暂无例句 |
| HanziAnalyzer.StrokeName | src/lib/hanziAnalyzer.js:213-237 | The analyzer's name for one of its 17 strokes, otherwise the stroke itself; never empty |
| HanziAnalyzer.StrokeOrderDescription | src/lib/hanziAnalyzer.js:210-243 | `[]` when cnchar throws. Otherwise one entry per code unit of cnchar's stroke string, in order. Entry i has order i+1, that unit as its stroke, the stroke's name, and the description 第{i+1}笔：{name} |
| HanziAnalyzer.Describe | src/lib/hanziAnalyzer.js:237 | The template literal 第${order}笔：${name}; DescribeRoundTrip states what it determines |
| HanziAnalyzer.DescribeRoundTrip | src/lib/hanziAnalyzer.js:237 | A description can be read back into the number and the name it was written from |
| HanziAnalyzer.DescriptionsDistinct | src/lib/hanziAnalyzer.js:233-238 | No two entries of a stroke description have the same description text |
| JsText.BlankIffAllWhitespace | src/App.jsx:17 | `!s.trim()` holds exactly when every code unit of `s` is ECMAScript white space |
| JsText.TrimIsSlice | src/App.jsx:17 | `trim` returns the slice between a white-space prefix and a white-space suffix, and neither end of that slice is white space |
| JsText.DecimalRoundTrip | src/lib/hanziAnalyzer.js:237 | The digits `${n}` writes read back as n |
| App.GetStrokeName | src/App.jsx:293-330 | The tabled name for a one-unit key among the 33, otherwise 其他; the result is always 其他 or one of the tabled names |
| App.StrokeNamesAgree | src/App.jsx:295-311 | On each of the analyzer's 17 strokes, getStrokeName gives the analyzer's own name |
| App.StrokeNameSamples | src/App.jsx:295-327 | 一 is 横 and ㇏ is 捺 |
| App.LongStrokeIsOther | src/App.jsx:329 | A stroke string that is not one code unit gets 其他 |
| App.AnalyzeDisabled | src/App.jsx:87 | The button's `disabled` expression: loading, or `!inputText.trim()`; AnalyzeDisabledIff states its meaning |
| App.ShowsResults | src/App.jsx:105 | The guard `analyzedChars.length > 0` of the result list |
| App.ShowsEmptyState | src/App.jsx:121 | The guard `analyzedChars.length === 0 && !isLoading` of the empty state |
| App.AnalyzeDisabledIff | src/App.jsx:87 | The button is disabled exactly while loading or while every unit of the input is white space |
| App.ResultAreaExclusive | src/App.jsx:105-121 | The result list and the empty state are never both shown; once loading is over, exactly one of them is; while loading with no results, neither is |
| App.WubiShown | src/App.jsx:198 | A card shows the record's five-stroke code, or 暂无 when it is empty |
| App.WubiShownIsWubi | src/App.jsx:198 | For a record analyzeChar built, the card shows getWubi of its character, because the `||` fallback never applies |
| App.WordBadges | src/App.jsx:263 | The first min(4, n) words, in order |
| App.SentenceLines | src/App.jsx:277 | The first min(2, n) sentences, in order |
| App.ExtendedTab | src/App.jsx:263-283 | For an analyzed record, a tabled character shows 4 of its 5 words, any other shows the one placeholder; all of its sentences are shown |
| App.StrokeCells | src/App.jsx:224-228 | One cell per element of strokeOrder, in order. Cell i has the caption 第{i+1}笔, the stroke itself, and getStrokeName of it |
| App.Caption | src/App.jsx:226 | The caption 第{index + 1}笔 of a stroke cell, for its 1-based position |
| App.CaptionsDistinct | src/App.jsx:226 | Distinct positions get distinct captions |
| App.CaptionBeginsDescription | src/App.jsx:226 | The caption of position n followed by ：name is the analyzer's description 第n笔：name |
| App.Page.constructor | src/App.jsx:13-15 | The page starts with empty input, no results and no loading |
| App.Page.SetInputText | src/App.jsx:76 | The input handler replaces inputText and leaves the rest of the state alone |
| App.Page.HandleAnalyze | src/App.jsx:16-28 | Blank input: nothing changes. Otherwise the analysis results replace analyzedChars, and a throw leaves analyzedChars as it was. In both cases isLoading ends false and the button is enabled again; inputText never changes |
| App.AnalyzeTextCall | src/App.jsx:21 | The call `HanziAnalyzer.analyzeText(inputText)` that handleAnalyze makes: it returns analyzeText's records and never throws |
| App.AnalyzeInput | src/App.jsx:13-28 | Typing a text into a fresh page and pressing 分析 leaves exactly analyzeText's records on the page, blank input included, with inputText kept and loading over |

## Left out

- **cnchar.** What cnchar computes (pinyin, stroke data, radicals, traditional forms) is not modelled. Its calls are oracle parameters that return a value or throw. `cnchar.use()` and the import of the plug-in bundle are module set-up without logic.
- **HanziAnimation.jsx.** It drives a DOM element and an external animation library loaded asynchronously, and its fallback font size is floating-point arithmetic.
- **Display.** JSX markup, CSS, icons, the static texts of the page and the `console.error` logging are not modelled. `handleKeyPress` is never used; the input's Enter handler only calls `handleAnalyze`, which is modelled.
- **Regular expression.** The test `/[一-鿿]/` on a one-unit string is the numeric range check 0x4E00 ≤ c ≤ 0x9FFF; the regex engine itself is not modelled.
- **Timing of `isLoading`.** `handleAnalyze` is `async`, but its body never awaits. The state with `isLoading` true happens only inside one call and is never rendered, so `HandleAnalyze` sets it and clears it within the method.
- **Idempotence and determinism.** The JavaScript functions are deterministic given cnchar's answers. Dafny functions are deterministic by construction, so there is nothing separate to prove.
- **Other inputs to analyzeChar.** `analyzeChar`'s `!char` guard for `null` or `undefined` is not modelled: the callers always pass a string. The empty string falls under the length guard.
- HanziAnalyzer.GetWubi, HanziAnalyzer.GetMeaning, HanziAnalyzer.GetWords and HanziAnalyzer.GetSentences: these take one code unit, which is how the analyzer calls them. They index an object literal with `map[char]`, so a multi-unit string naming a property of `Object.prototype` (such as `"toString"`) would get an inherited value; the model does not cover that.
- HanziAnalyzer.GetStructure and HanziAnalyzer.GetWuxing: these take one code unit. `Object.entries` sees own keys only and `includes` compares whole strings, so a multi-unit string matches no list and gets the default, 其他结构 or 土; the model does not state that case.
- App.GetStrokeName: the same inherited-property case for stroke strings is not modelled. A multi-unit stroke string is taken to miss the table.
- App.StrokeCells: `strokeOrder?.` cannot see a missing array, because the record always holds the array cnchar returned.
- **Result count.** The header `共分析了 {analyzedChars.length} 个汉字` only displays `|analyzedChars|`; it has no member of its own.
