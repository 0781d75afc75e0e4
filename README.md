# regex-generator-backend: pattern builders and format sniffer in Dafny

This project models the core of the regex-generator backend. The backend takes an example
document and writes a regular expression for documents of the same shape. Its main parts:

- **Four pattern builders.** Each turns one document into a pattern string:
  - JSON recurses over the parsed value and refuses nesting deeper than three levels.
  - XML recurses over the element tree; elements deeper than 3 get `[^<]*` as content, so nothing below depth 4 is looked at.
  - HTML is a parser object that appends one fragment per tag or text event.
  - CSV matches the header literally and classifies each data column as integer, decimal or text.
- **A dispatch** from a `FileType` to its builder.
- **A heuristic sniffer.** It tries JSON, HTML, XML and CSV in that order and returns the first format that accepts the text.
- **The match gate.** It asks the regex engine for a match at the start of the text.

The modules follow the source files:

- `PyStr` (common.dfy) holds the Python string operations the code relies on: `strip`, `lower`, `startswith`, substring `in`, `join` and `re.escape`. It also holds the exceptions the code raises.
- `FileTypes` (file_type.dfy) is the enum.
- `JsonRegex`, `XmlRegex`, `HtmlRegex` and `CsvRegex` are the four builders.
- `Logic` (logic.dfy) holds `match`, `generate_regex`, `detect_filetype` and the four probes.

Library calls are parameters: functions from their inputs to their results. A library exception
is a value of the result:

- `json.loads` gives a value, a decode error, or another exception.
- `ElementTree.fromstring` gives an element tree or `None` for a ParseError.
- `HTMLParser.feed` is the sequence of start-tag, end-tag and data events it reports.
- `csv.Sniffer().sniff` gives a dialect, or `None` for a csv.Error.
- `csv.reader` is the rows it yields, plus whether the next read raises csv.Error.
- `re.compile` says whether a pattern compiles.
- `re.match` gives the set of end positions of the matches that start at the beginning of the text.
- The classifier's `predict` gives a label, or `None` when it raises.

The JSON builder also re-parses its string leaves. It needs the fact that a parsed value is no
longer than its text, which makes the recursion terminate (`JsonRegex.Shrinks`).

The HTML parser is a class whose `pattern` field its handlers extend. The CSV builder is a class
with a fixed `delimiter`. Its `GenerateRegex` fills an array of column lists in place, with
nested loops, and is proved equal to the reference definition `CsvRegex.RegexFor`.
`Logic.IsCsv` reads up to five rows in a loop with an early exit, and is proved equal to the
closed-form `Logic.LooksLikeCsv`.

## Model

| member | source | states |
|---|---|---|
| FileTypes.Value | backend/enums/FileType.py:4-9 | each member's value is its position among the five members |
| FileTypes.FromValue | backend/enums/FileType.py:4-9 | lookup by value succeeds exactly for 0..4 and inverts `.value` |
| FileTypes.FromName | backend/logic.py:48 | `FileType[name]` either returns the member with that name or raises KeyError for that name |
| FileTypes.Display | backend/logic.py:32 | a member shows as `FileType.` followed by its name |
| FileTypes.MembersAreAll | backend/enums/FileType.py:4-9 | there are exactly five members, each listed once |
| FileTypes.ValueRoundTrip | backend/enums/FileType.py:5-9 | values are pairwise distinct and the value lookup inverts `.value`, so it is a bijection on 0..4 |
| FileTypes.NameRoundTrip | backend/enums/FileType.py:4-9 | `FileType[f.name]` is `f`; the name lookup succeeds on exactly the five names |
| FileTypes.SupportedIffNotUnsupported | backend/logic.py:22-32 | the four formats with a builder are exactly the members other than UNSUPPORTED |
| PyStr.UnescapeEscape | backend/regexgenerators/build_json_regex.py:26 | `re.escape` loses nothing: removing the added backslashes gives the original text back |
| PyStr.EscapeInjective | backend/regexgenerators/build_xml_regex.py:11 | distinct keys or tags give distinct escaped literals |
| PyStr.StripLower | backend/logic.py:88 | lower-casing and stripping commute |
| PyStr.ContainsOfStrip | backend/logic.py:88-91 | a marker that neither starts nor ends with whitespace occurs in the stripped text exactly when it occurs in the text |
| PyStr.StripIdempotent | backend/logic.py:50 | stripping text that is already stripped changes nothing |
| PyStr.StripEmptyIffBlank | backend/logic.py:50-52 | the stripped text is empty exactly when every character is whitespace |
| JsonRegex.BuildRec | backend/regexgenerators/build_json_regex.py:10-47 | defined by its body; its properties are in `BuildFailsIffTooDeep`, `MembersInOrder`, `ItemsInOrder`, `BoolPatternUnreachable` and `EmptyArray` |
| JsonRegex.BuildMembers | backend/regexgenerators/build_json_regex.py:23-30 | defined by its body; its properties are in `MembersInOrder` and `MembersFailIffTooDeep` |
| JsonRegex.BuildItems | backend/regexgenerators/build_json_regex.py:32-35 | defined by its body; its properties are in `ItemsInOrder` and `ItemsFailIffTooDeep` |
| JsonRegex.Height | backend/regexgenerators/build_json_regex.py:11-12 | reference definition of the nesting depth, independent of the builder; `BuildFailsIffTooDeep` ties the two together |
| JsonRegex.BuildFailsIffTooDeep | backend/regexgenerators/build_json_regex.py:10-18 | with a parser that raises nothing but decode errors, the builder fails exactly when the value nests below depth 3, where containers add a level and a re-parsed string does not; the failure is the depth ValueError |
| JsonRegex.MembersInOrder | backend/regexgenerators/build_json_regex.py:23-30 | an object gives one fragment per member, in insertion order: the escaped key literal, then the value's pattern; it succeeds iff every value does |
| JsonRegex.ItemsInOrder | backend/regexgenerators/build_json_regex.py:32-35 | an array gives one fragment per element, in order; it succeeds iff every element does |
| JsonRegex.EmptyArray | backend/regexgenerators/build_json_regex.py:32-35 | an empty array within the depth bound gives `\[\s*()?\s*\]` |
| JsonRegex.BoolPatternUnreachable | backend/regexgenerators/build_json_regex.py:37-41 | no value ever gets `(true|false)`; a boolean within the depth bound gets the numeric fragment |
| JsonRegex.Json | backend/regexgenerators/build_json_regex.py:6-8 | a result is anchored with `^` and `$` and compiles; it succeeds iff the build succeeds and its anchored form compiles |
| JsonRegex.JsonOfText | backend/regexgenerators/build_json_regex.py:15-21 | text that fails to decode gets the anchored quoted-string pattern, or RegexError if that does not compile; decodable text succeeds iff its value builds and the anchored build compiles, and the result is then `^`, that build, `$`; any other parser exception escapes unchanged |
| JsonRegex.JsonAsWrittenAlwaysFails | backend/regexgenerators/build_json_regex.py:6-19 | with `json` rebound to the entry point, every call fails with an AttributeError |
| XmlRegex.BuildRec | backend/regexgenerators/build_xml_regex.py:10-23 | defined by its body; its properties are in `ElementShape`, `OnePatternPerChild`, `IgnoresAttributesAndText`, `DepthBound` and `DeepElementIsOpaque` |
| XmlRegex.ElementShape | backend/regexgenerators/build_xml_regex.py:10-23 | every element pattern starts with the escaped opening tag of its element and ends with `>`, whatever the depth and children |
| XmlRegex.ChildPatterns | backend/regexgenerators/build_xml_regex.py:18-20 | the child loop gives as many patterns as there are children |
| XmlRegex.OnePatternPerChild | backend/regexgenerators/build_xml_regex.py:17-21 | the i-th sub-pattern is the pattern of the i-th child, in document order |
| XmlRegex.XmlPattern | backend/regexgenerators/build_xml_regex.py:5-8 | it fails with ParseError exactly when parsing fails; for parsed text it succeeds iff the builder's pattern for the root at depth 1 compiles, and the result is then exactly that pattern, starting with `<` and ending with `>`, with no `^`/`$` anchors |
| XmlRegex.IgnoresAttributesAndText | backend/regexgenerators/build_xml_regex.py:13-16 | attributes and text never reach the pattern: an element gives the same pattern as its skeleton with both removed |
| XmlRegex.DepthBound | backend/regexgenerators/build_xml_regex.py:15-16 | nothing below depth 4 influences an element's pattern: pruning those levels leaves it unchanged |
| XmlRegex.RootSeesFourLevels | backend/regexgenerators/build_xml_regex.py:7 | from the root at depth 1, three levels of descendants decide the whole pattern |
| XmlRegex.DeepElementIsOpaque | backend/regexgenerators/build_xml_regex.py:15-16 | past depth 3 an element's content is `[^<]*` whatever its children |
| HtmlRegex.Fragment | backend/regexgenerators/build_html_regex.py:6-23 | what one handler call appends, defined by its body; the handlers' ensures and `BlankDataAddsNothing`, `DataContentIgnored` and `TagGoesInVerbatim` state it |
| HtmlRegex.Fragments | backend/regexgenerators/build_html_regex.py:6-23 | the fragments of an event sequence in event order, defined by its body; `FragmentsAppend`, `EarlierStateIsPrefix` and `FragmentsEndInGap` state its properties |
| HtmlRegex.Anchored | backend/regexgenerators/build_html_regex.py:24-25 | the regex is `^`, the accumulated pattern less its last three characters, then `$`; an empty pattern gives `^$` |
| HtmlRegex.HtmlRegexParser.constructor | backend/regexgenerators/build_html_regex.py:5 | a fresh parser has an empty pattern |
| HtmlRegex.HtmlRegexParser.HandleStartTag | backend/regexgenerators/build_html_regex.py:6-9 | appends exactly `<T\b[^>]*>\s*` to the pattern |
| HtmlRegex.HtmlRegexParser.HandleEndTag | backend/regexgenerators/build_html_regex.py:11-14 | appends exactly `<\/T>\s*` to the pattern |
| HtmlRegex.HtmlRegexParser.HandleData | backend/regexgenerators/build_html_regex.py:16-23 | appends nothing for blank text, `[^<]*\s*` otherwise |
| HtmlRegex.HtmlRegexParser.GetRegex | backend/regexgenerators/build_html_regex.py:24-25 | reads the pattern without changing it and returns its anchored form |
| HtmlRegex.HtmlRegexParser.Feed | backend/regexgenerators/build_html_regex.py:4-23 | feeding events appends their fragments in event order |
| HtmlRegex.PatternFor | backend/regexgenerators/build_html_regex.py:27-33 | a tokeniser exception comes back unchanged; for tokenised text it succeeds exactly when the anchored fragments of the events compile, and the result is then those anchored fragments; otherwise it is the compile error |
| HtmlRegex.HtmlPattern | backend/regexgenerators/build_html_regex.py:27-33 | a fresh parser fed the whole text through its handlers and anchored by `get_regex` gives exactly `PatternFor` |
| HtmlRegex.FragmentsAppend | backend/regexgenerators/build_html_regex.py:9-23 | feeding two event runs one after the other appends the concatenation of their fragments |
| HtmlRegex.EarlierStateIsPrefix | backend/regexgenerators/build_html_regex.py:9-23 | the pattern only grows: each earlier state is a prefix of every later one |
| HtmlRegex.FragmentsEndInGap | backend/regexgenerators/build_html_regex.py:7-21 | every non-empty accumulated pattern ends in `\s*` |
| HtmlRegex.FinalGapDropped | backend/regexgenerators/build_html_regex.py:24-25 | `get_regex` drops exactly the final `\s*`; no events give `^$` |
| HtmlRegex.TagGoesInVerbatim | backend/regexgenerators/build_html_regex.py:7-12 | tag names are inserted unescaped |
| HtmlRegex.BlankDataAddsNothing | backend/regexgenerators/build_html_regex.py:17-19 | a data event whose stripped text is empty appends nothing |
| HtmlRegex.DataContentIgnored | backend/regexgenerators/build_html_regex.py:21-23 | any two non-blank data events append the same fragment |
| CsvRegex.CsvRegexGenerator.constructor | backend/regexgenerators/build_csv_regex.py:12-18 | the delimiter is the one given, fixed for the generator's life |
| CsvRegex.InferColumnPattern | backend/regexgenerators/build_csv_regex.py:20-34 | the result is one of three patterns: `\d+` iff every non-empty cell is all digits (vacuously for none), and the text pattern iff some non-empty cell is not a number |
| CsvRegex.IntegersAreDecimals | backend/regexgenerators/build_csv_regex.py:25-30 | an integer column passes the decimal test too, so the decimal pattern means "numbers, not all integers" |
| CsvRegex.EmptyCellsIgnored | backend/regexgenerators/build_csv_regex.py:25-29 | a blank cell never changes a column's classification |
| CsvRegex.Kept | backend/regexgenerators/build_csv_regex.py:64-66 | the kept rows are those whose field count equals the header's |
| CsvRegex.ColumnOfKept | backend/regexgenerators/build_csv_regex.py:61-68 | each column list receives exactly one cell per kept row, in row order |
| CsvRegex.MismatchedRowAddsNothing | backend/regexgenerators/build_csv_regex.py:64-66 | a row with the wrong field count leaves every column as it was |
| CsvRegex.Column | backend/regexgenerators/build_csv_regex.py:61-68 | the column lists the nested loops build, defined by its body; `ColumnOfKept` and `MismatchedRowAddsNothing` state its properties |
| CsvRegex.ColumnPatterns | backend/regexgenerators/build_csv_regex.py:71 | exactly one pattern per header field, inferred from the cells the rows with the header's field count have in that field, in row order |
| CsvRegex.TablePattern | backend/regexgenerators/build_csv_regex.py:74-83 | defined by its body; `MismatchedRowsIgnored` states that only the matching rows influence it |
| CsvRegex.MismatchedRowsIgnored | backend/regexgenerators/build_csv_regex.py:61-85 | the table pattern is the one the matching rows alone would give |
| CsvRegex.NoKeptRowsGivesIntegers | backend/regexgenerators/build_csv_regex.py:25-26 | when every data row has the wrong field count, every column is classified `\d+` |
| CsvRegex.RegexFor | backend/regexgenerators/build_csv_regex.py:36-85 | empty content gives ""; a bad delimiter raises TypeError and a reader failure raises csv.Error, and nothing else fails; a non-empty result is anchored |
| CsvRegex.RegexForAsWritten | backend/regexgenerators/build_csv_regex.py:43-46 | with `csv` bound to the standard module it is `RegexFor`; the shadowed binding is examined by `ImportedBuilderAlwaysFails` |
| CsvRegex.ImportedBuilderAlwaysFails | backend/regexgenerators/build_csv_regex.py:46-125 | once `csv` names the module-level function, only empty content succeeds and every other content raises the AttributeError for `reader`, which the corrected builder never raises |
| CsvRegex.CsvRegexGenerator.GenerateRegex | backend/regexgenerators/build_csv_regex.py:36-85 | the loops filling the column lists in place give exactly `RegexFor` |
| Logic.Match | backend/logic.py:13-17 | a missing pattern, or a missing or empty text, is rejected without asking the engine; acceptance needs a match at the start of the text |
| Logic.FullMatchPassesGate | backend/logic.py:17 | any full match, and any prefix match, passes the gate |
| Logic.PrefixMatchAcceptsMore | backend/logic.py:17 | an engine that matches `Line\d` only against the first five characters of "Line1\nLine2" still passes the gate, while a full-string test would not |
| Logic.IsJson | backend/logic.py:75-83 | true iff the stripped text opens with `{` or `[` and decodes; a decode error means false; any other exception escapes |
| Logic.IsHtml | backend/logic.py:86-93 | with the lower-cased, stripped text opening with `<`, an `<html` or `<div` anywhere in the lower-cased text, or a leading HTML doctype, makes it true; true needs that leading `<` and one of the three markers |
| Logic.IsXml | backend/logic.py:96-108 | true exactly when the stripped text opens with `<`, the parse succeeds, and no `<html` or `<div` occurs in any letter case |
| Logic.HtmlProbeIgnoresSurroundingSpace | backend/logic.py:86-93 | the HTML probe gives the same verdict on the stripped text as on the original |
| Logic.XmlAndHtmlOnlyThroughDoctype | backend/logic.py:86-108 | text both probes accept is HTML only through its doctype |
| Logic.FirstRows | backend/logic.py:133-139 | the probe reads the first min(5, available) rows, and fails only when the reader raises before five rows |
| Logic.CsvProbeReadsFiveRows | backend/logic.py:134 | rows past the fifth, and a failure after them, never matter |
| Logic.LooksLikeCsv | backend/logic.py:111-152 | closed-form reference for `is_csv`, defined by its body over the library's answers; `IsCsv` is proved equal to it |
| Logic.IsCsv | backend/logic.py:111-152 | the loop's verdict is `LooksLikeCsv`: non-blank, structured, sniffed, no reader failure within the rows read, at least two rows of at least two fields, all the same length |
| Logic.Sniffed | backend/logic.py:50-71 | probes run in the order JSON, HTML, XML, CSV: each reported format's probe accepted and every earlier probe rejected; UNSUPPORTED for non-blank text only when all four rejected; blank text is UNSUPPORTED; an exception from the JSON probe escapes |
| Logic.Predicted | backend/logic.py:46-48 | the classifier's label is looked up by name; an unknown label raises KeyError, a classifier failure propagates |
| Logic.DetectFiletype | backend/logic.py:36-73 | `is_file` gives UNSUPPORTED, `is_ml` gives the classifier's verdict, otherwise the probe chain on the stripped text |
| Logic.JsonNeedsBracket | backend/logic.py:54-78 | the sniffer reports JSON only when the stripped text opens with `{` or `[` |
| Logic.BlankIsUnsupported | backend/logic.py:50-52 | blank text is UNSUPPORTED |
| Logic.GenerateRegex | backend/logic.py:20-33 | each supported format goes to its own builder and UNSUPPORTED raises `Unsupported file type: FileType.UNSUPPORTED` |
| Logic.GenerateRegexAsWritten | backend/logic.py:20-33 | as written, only HTML can succeed: JSON and CSV call missing functions, and XML reads `.pattern` off a string |

## Left out

- I/O and side effects: the `print` calls in the HTML handlers and the demo blocks under `__main__`.
- The module-level `csv(string)` function in build_csv_regex.py returns None; it is modelled only through the name `csv` it rebinds (`CsvRegex.CsvBinding`).
- ml/transformer.py is not part of this model. The classifier is the `predict` parameter: a label, or a failure.
- Regex semantics are not modelled. Compiling is a yes/no parameter and matching is a set of end positions. No lemma proves that a generated pattern matches its example document.
- The library parsers are parameters: json.loads, ElementTree, the HTMLParser tokeniser, csv.Sniffer and csv.reader. Their grammars, `convert_charrefs`, and how self-closing tags are split into events are not modelled.
- PyStr.Lower: lower-cases ASCII letters only, not the rest of Unicode.
- CsvRegex.InferColumnPattern: `\d` is ASCII digits only, while Python's `\d` also matches other Unicode decimal digits.
- JsonRegex.BuildRec: termination assumes the parser's values are no longer than their texts (`Shrinks`), which every real parse satisfies.
- JsonRegex.BuildFailsIffTooDeep: proved only for a parser that raises nothing but decode errors. With any other exception, that exception propagates, as the model shows.
- Logic.IsXml: any exception other than ParseError is not modelled.
- Logic.IsCsv: an exception from csv.Sniffer other than csv.Error is not modelled.
- Logic.Match: text given as a value, not a pattern object; the engine's choice of match is not modelled, only whether one exists.
- The `is_file` branch of `detect_filetype` is a placeholder and returns UNSUPPORTED, as modelled.
- The corrected CSV branch of `Logic.GenerateRegex` uses a comma-delimited generator and returns its pattern without compiling it, since the source names no CSV entry point. It also assumes the CSV builder's `csv` name refers to the standard module, as in the corrected `CsvRegex.CsvRegexGenerator.GenerateRegex`.
- api/api.py, main.py, backend/regexgenerator.py and the dataset generators are not part of this model.

## Findings

| source | as written | input that shows it | evidently intended | confidence | as-written member | corrected member |
|---|---|---|---|---|---|---|
| backend/regexgenerators/build_json_regex.py:6-19 | `def json` rebinds the module name `json`, so the `json.loads` lookup and the `json.JSONDecodeError` handler both raise AttributeError | any text, e.g. `{"a": 1}` | parse the text with the `json` module and build from the parsed value | high; not executed | JsonRegex.JsonAsWrittenAlwaysFails | JsonRegex.JsonOfText |
| backend/logic.py:24,30,33 | `generate_regex` calls `json_pattern` and `csv_pattern`, which their modules do not define, and reads `.pattern` off the string that `xml_pattern` returns | `FileType.JSON`, `FileType.CSV`, or `FileType.XML` with `<a/>` | send each format to the builder its module defines and return that builder's pattern string | high; not executed | Logic.GenerateRegexAsWritten | Logic.GenerateRegex |
| backend/regexgenerators/build_csv_regex.py:3-125 | the module-level `def csv(string)` at line 124 rebinds the name of the `csv` module imported at line 3, so once the file is imported `csv.reader` at line 46 raises AttributeError | any non-empty content, e.g. `a,b\n1,2` | read the rows with the standard `csv` module | high; not executed | CsvRegex.ImportedBuilderAlwaysFails | CsvRegex.CsvRegexGenerator.GenerateRegex |
