/** The backend's entry points: the prefix-match gate, the dispatch from a
    format to its pattern builder, and the format sniffer with its string
    probes (JSON, HTML, XML, CSV) tried in a fixed order. */
module Logic {
  import opened PyStr
  import opened FileTypes
  import JsonRegex
  import XmlRegex
  import HtmlRegex
  import CsvRegex

  /** A dialect as `csv.Sniffer().sniff` reports it; the model only hands it
      on to the reader, which is a parameter, so its delimiter is all it keeps. */
  datatype Dialect = Dialect(delimiter: char)

  /** The library calls the backend makes, as functions of their inputs.
      `loads` is `json.loads`; `fromstring` is `ElementTree.fromstring`, with
      `None` for a ParseError; `tokenize` is what `HTMLParser.feed` reports;
      `sniff` is `csv.Sniffer().sniff` restricted to the common delimiters,
      with `None` for a csv.Error; `readDialect` and `readDelimited` are
      `csv.reader` with a sniffed dialect or an explicit delimiter;
      `compiles` says whether `re.compile` accepts a pattern; `predict` is the
      classifier's label, with `None` when it raises. */
  datatype Library = Library(
    loads: string -> JsonRegex.Loaded,
    fromstring: string -> Option<XmlRegex.Element>,
    tokenize: string -> Result<seq<HtmlRegex.HtmlEvent>>,
    sniff: string -> Option<Dialect>,
    readDialect: (string, Dialect) -> CsvRegex.RowStream,
    readDelimited: (string, string) -> CsvRegex.RowStream,
    compiles: string -> bool,
    predict: string -> Option<string>)

  /** The regex engine, seen through `re.match`: the end positions of the
      matches of a pattern that start at the beginning of a text. */
  type Engine = (string, string) -> set<nat>

  /** `match(pattern, string)`: false for a missing pattern and for a missing
      or empty text, without asking the engine; otherwise whether some prefix
      of the text matches. */
  function Match(pattern: Option<string>, text: Option<string>, prefixEnds: Engine): (r: bool)
    ensures pattern.None? || text.None? || text == Some([]) ==> !r
    ensures r ==> exists k :: k in prefixEnds(pattern.value, text.value)
  {
    if text.None? || |text.value| == 0 || pattern.None? then false
    else prefixEnds(pattern.value, text.value) != {}
  }

  /** What `re.fullmatch` would decide: the whole text matches. */
  predicate FullMatch(pattern: string, text: string, prefixEnds: Engine)
  {
    |text| in prefixEnds(pattern, text)
  }

  /** Every full match passes the gate, but so does any prefix match. */
  lemma FullMatchPassesGate(pattern: string, text: string, prefixEnds: Engine)
    requires text != []
    ensures FullMatch(pattern, text, prefixEnds) ==> Match(Some(pattern), Some(text), prefixEnds)
    ensures (exists k :: k in prefixEnds(pattern, text)) ==> Match(Some(pattern), Some(text), prefixEnds)
  {
  }

  /** `Line\d` matches the first line of "Line1\nLine2" and nothing longer,
      so the gate accepts the text although the pattern does not describe it. */
  lemma PrefixMatchAcceptsMore(prefixEnds: Engine)
    requires prefixEnds("Line\\d", "Line1\nLine2") == {5}
    ensures Match(Some("Line\\d"), Some("Line1\nLine2"), prefixEnds)
    ensures !FullMatch("Line\\d", "Line1\nLine2", prefixEnds)
  {
    assert |"Line1\nLine2"| == 11;
  }

  /** `is_json`: only text whose stripped form opens an object or an array
      is handed to `json.loads`; a decode error means "not JSON", any other
      exception escapes. */
  function IsJson(text: string, loads: string -> JsonRegex.Loaded): (r: Result<bool>)
    ensures r == Ok(true) ==> StartsWith(Strip(text), "{") || StartsWith(Strip(text), "[")
    ensures r == Ok(true) <==> (StartsWith(Strip(text), "{") || StartsWith(Strip(text), "[")) && loads(text).Parsed?
    ensures loads(text).DecodeError? ==> r == Ok(false)
    ensures r.Err? <==> text != [] && (StartsWith(Strip(text), "{") || StartsWith(Strip(text), "[")) && loads(text).Raised?
    ensures r.Err? ==> r.error == loads(text).error
  {
    if text == [] || !(StartsWith(Strip(text), "{") || StartsWith(Strip(text), "[")) then Ok(false)
    else
      match loads(text)
      case Parsed(_) => Ok(true)
      case DecodeError => Ok(false)
      case Raised(e) => Err(e)
  }

  /** `is_html`: the lower-cased, stripped text opens with `<` and names an
      `html` or `div` tag or opens with the HTML doctype. */
  function IsHtml(text: string): (r: bool)
    ensures r ==> StartsWith(Strip(Lower(text)), "<")
    ensures StartsWith(Strip(Lower(text)), "<!doctype html>") ==> r
    ensures StartsWith(Strip(Lower(text)), "<") && (Contains(Lower(text), "<html") || Contains(Lower(text), "<div")) ==> r
    ensures r ==> Contains(Lower(text), "<html") || Contains(Lower(text), "<div")
                  || StartsWith(Strip(Lower(text)), "<!doctype html>")
  {
    var lower := Strip(Lower(text));
    ContainsOfStrip(Lower(text), "<html");
    ContainsOfStrip(Lower(text), "<div");
    StartsWith(lower, "<")
    && (Contains(lower, "<html") || Contains(lower, "<div") || StartsWith(lower, "<!doctype html>"))
  }

  /** `is_xml`: opens with `<`, parses, and names no `html` or `div` tag in
      any letter case. */
  function IsXml(text: string, fromstring: string -> Option<XmlRegex.Element>): (r: bool)
    ensures r ==> StartsWith(Strip(text), "<") && fromstring(text).Some?
    ensures Contains(Lower(text), "<html") || Contains(Lower(text), "<div") ==> !r
    ensures (StartsWith(Strip(text), "<") && fromstring(text).Some?
             && !Contains(Lower(text), "<html") && !Contains(Lower(text), "<div")) ==> r
  {
    if !StartsWith(Strip(text), "<") then false
    else if fromstring(text).None? then false
    else !(Contains(Lower(text), "<html") || Contains(Lower(text), "<div"))
  }

  /** The sniffer's probes see the stripped text; for the HTML probe that
      changes nothing. */
  lemma HtmlProbeIgnoresSurroundingSpace(text: string)
    ensures IsHtml(Strip(text)) == IsHtml(text)
  {
    StripLower(Strip(text));
    StripIdempotent(text);
    StripLower(text);
  }

  /** Text both probes accept mentions neither marker: it is HTML only
      through its doctype. */
  lemma XmlAndHtmlOnlyThroughDoctype(text: string, fromstring: string -> Option<XmlRegex.Element>)
    requires IsXml(text, fromstring) && IsHtml(text)
    ensures StartsWith(Strip(Lower(text)), "<!doctype html>")
  {
    var lower := Strip(Lower(text));
    if Contains(lower, "<html") {
      ContainsInStrip(Lower(text), "<html");
      assert false;
    }
    if Contains(lower, "<div") {
      ContainsInStrip(Lower(text), "<div");
      assert false;
    }
  }

  const CommonDelimiters: seq<char> := [',', ';', '\t', '|', ':']
  const SampleSize: nat := 4096
  const MaxRows: nat := 5

  /** Several lines or at least one common delimiter. */
  predicate HasStructure(data: string)
  {
    '\n' in data || exists d :: d in CommonDelimiters && d in data
  }

  /** The rows the five-row probe reads: `None` when the reader raises
      csv.Error before five rows or the end. */
  function FirstRows(stream: CsvRegex.RowStream): (r: Option<seq<seq<string>>>)
    ensures r.Some? ==> |r.value| == (if |stream.rows| < MaxRows then |stream.rows| else MaxRows)
    ensures r.Some? ==> r.value == stream.rows[..|r.value|]
    ensures r.None? <==> stream.fails && |stream.rows| < MaxRows
  {
    if |stream.rows| >= MaxRows then Some(stream.rows[..MaxRows])
    else if stream.fails then None
    else Some(stream.rows)
  }

  /** At least two rows, at least two fields, the same count in every row. */
  predicate Consistent(rows: seq<seq<string>>)
  {
    |rows| >= 2 && |rows[0]| >= 2 && forall j :: 0 <= j < |rows| ==> |rows[j]| == |rows[0]|
  }

  /** What `is_csv` decides, stated over the library's answers. */
  predicate LooksLikeCsv(text: string, sniff: string -> Option<Dialect>, read: (string, Dialect) -> CsvRegex.RowStream)
  {
    var data := Strip(text);
    var sample := Take(data, SampleSize);
    data != [] && HasStructure(data) && sniff(sample).Some?
    && var rows := FirstRows(read(sample, sniff(sample).value));
    rows.Some? && Consistent(rows.value)
  }

  /** Rows past the fifth, and whether reading them would fail, never matter. */
  lemma CsvProbeReadsFiveRows(s1: CsvRegex.RowStream, s2: CsvRegex.RowStream)
    requires |s1.rows| >= MaxRows && |s2.rows| >= MaxRows
    requires s1.rows[..MaxRows] == s2.rows[..MaxRows]
    ensures FirstRows(s1) == FirstRows(s2)
  {
  }

  /** `is_csv`: strips, checks for structure, sniffs the first 4096
      characters, reads up to five rows and compares their field counts. */
  method IsCsv(text: string, sniff: string -> Option<Dialect>, read: (string, Dialect) -> CsvRegex.RowStream)
    returns (b: bool)
    ensures b == LooksLikeCsv(text, sniff, read)
  {
    var data := Strip(text);
    if |data| == 0 {
      return false;
    }
    if !HasStructure(data) {
      return false;
    }
    var sample := Take(data, SampleSize);
    var dialect := sniff(sample);
    if dialect.None? {
      return false;
    }
    var stream := read(sample, dialect.value);
    var rows: seq<seq<string>> := [];
    for attempt := 0 to MaxRows
      invariant attempt <= |stream.rows|
      invariant rows == stream.rows[..attempt]
    {
      if attempt == |stream.rows| {
        if stream.fails {
          return false;
        }
        break;
      }
      rows := rows + [stream.rows[attempt]];
    }
    assert rows == FirstRows(stream).value;
    if |rows| < 2 {
      return false;
    }
    var columnCount := |rows[0]|;
    if columnCount < 2 {
      return false;
    }
    b := forall j :: 0 <= j < |rows| ==> |rows[j]| == columnCount;
  }

  /** The heuristic sniffer on already stripped text: JSON, then HTML, then
      XML, then CSV, the first probe that accepts decides, UNSUPPORTED last. */
  function Sniffed(data: string, lib: Library): (r: Result<FileType>)
    ensures data == [] ==> r == Ok(UNSUPPORTED)
    ensures r == Ok(JSON) ==> IsJson(data, lib.loads) == Ok(true)
    ensures r == Ok(JSON) ==> StartsWith(Strip(data), "{") || StartsWith(Strip(data), "[")
    ensures r == Ok(HTML) ==> IsJson(data, lib.loads) == Ok(false) && IsHtml(data)
    ensures r == Ok(XML) ==> IsJson(data, lib.loads) == Ok(false) && !IsHtml(data) && IsXml(data, lib.fromstring)
    ensures r == Ok(CSV) ==>
      IsJson(data, lib.loads) == Ok(false) && !IsHtml(data) && !IsXml(data, lib.fromstring)
      && LooksLikeCsv(data, lib.sniff, lib.readDialect)
    ensures data != [] && r == Ok(UNSUPPORTED) ==>
      IsJson(data, lib.loads) == Ok(false) && !IsHtml(data) && !IsXml(data, lib.fromstring)
      && !LooksLikeCsv(data, lib.sniff, lib.readDialect)
    ensures r.Err? ==> data != [] && IsJson(data, lib.loads) == Err(r.error)
  {
    if data == [] then Ok(UNSUPPORTED)
    else
      match IsJson(data, lib.loads)
      case Err(e) => Err(e)
      case Ok(isJson) =>
        if isJson then Ok(JSON)
        else if IsHtml(data) then Ok(HTML)
        else if IsXml(data, lib.fromstring) then Ok(XML)
        else if LooksLikeCsv(data, lib.sniff, lib.readDialect) then Ok(CSV)
        else Ok(UNSUPPORTED)
  }

  /** The classifier's verdict: its label looked up by name. */
  function Predicted(text: string, predict: string -> Option<string>): (r: Result<FileType>)
    ensures predict(text).None? ==> r == Err(PredictorError)
    ensures predict(text).Some? ==> (r.Ok? <==> exists f: FileType :: Name(f) == predict(text).value)
    ensures r.Ok? ==> Name(r.value) == predict(text).value
    ensures predict(text).Some? && r.Err? ==> r.error == KeyError(predict(text).value)
  {
    match predict(text)
    case None => Err(PredictorError)
    case Some(name) =>
      NameRoundTrip(UNSUPPORTED, name);
      FromName(name)
  }

  /** `detect_filetype(string, is_file, is_ml)`. */
  method DetectFiletype(text: string, isFile: bool, isMl: bool, lib: Library) returns (r: Result<FileType>)
    ensures isFile ==> r == Ok(UNSUPPORTED)
    ensures !isFile && isMl ==> r == Predicted(text, lib.predict)
    ensures !isFile && !isMl ==> r == Sniffed(Strip(text), lib)
  {
    if isFile {
      return Ok(UNSUPPORTED);
    }
    if isMl {
      return Predicted(text, lib.predict);
    }
    var data := Strip(text);
    if |data| == 0 {
      return Ok(UNSUPPORTED);
    }
    var json := IsJson(data, lib.loads);
    if json.Err? {
      return Err(json.error);
    }
    if json.value {
      return Ok(JSON);
    }
    if IsHtml(data) {
      return Ok(HTML);
    }
    if IsXml(data, lib.fromstring) {
      return Ok(XML);
    }
    var csv := IsCsv(data, lib.sniff, lib.readDialect);
    if csv {
      return Ok(CSV);
    }
    return Ok(UNSUPPORTED);
  }

  /** The sniffer reports JSON only for text that opens an object or an
      array once stripped. */
  lemma JsonNeedsBracket(text: string, lib: Library)
    requires Sniffed(Strip(text), lib) == Ok(JSON)
    ensures StartsWith(Strip(text), "{") || StartsWith(Strip(text), "[")
  {
    StripIdempotent(text);
  }

  /** Text of spaces only is never classified. */
  lemma BlankIsUnsupported(text: string, lib: Library)
    requires IsBlank(text)
    ensures Sniffed(Strip(text), lib) == Ok(UNSUPPORTED)
  {
    StripEmptyIffBlank(text);
  }

  /** The message of the dispatch's generic exception. */
  function UnsupportedMessage(f: FileType): string
  {
    "Unsupported file type: " + Display(f)
  }

  /** `generate_regex(filetype, string)` with each branch calling the builder
      its module defines: the JSON entry point, `xml_pattern` (already a
      string), `html_pattern`, and a comma-delimited `CsvRegexGenerator`.
      UNSUPPORTED raises. */
  method GenerateRegex(filetype: FileType, text: string, lib: Library) returns (r: Result<string>)
    requires JsonRegex.Shrinks(lib.loads)
    ensures filetype == JSON ==> r == JsonRegex.Json(text, lib.loads, lib.compiles)
    ensures filetype == XML ==> r == XmlRegex.XmlPattern(text, lib.fromstring, lib.compiles)
    ensures filetype == HTML ==> r == HtmlRegex.PatternFor(text, lib.tokenize, lib.compiles)
    ensures filetype == CSV ==> r == CsvRegex.RegexFor(",", text, lib.readDelimited(text, ","))
    ensures !IsSupported(filetype) ==> r == Err(UnsupportedFileType(UnsupportedMessage(filetype)))
  {
    match filetype {
      case JSON =>
        r := JsonRegex.Json(text, lib.loads, lib.compiles);
      case XML =>
        r := XmlRegex.XmlPattern(text, lib.fromstring, lib.compiles);
      case HTML =>
        r := HtmlRegex.HtmlPattern(text, lib.tokenize, lib.compiles);
      case CSV =>
        var generator := new CsvRegex.CsvRegexGenerator(",");
        r := generator.GenerateRegex(text, lib.readDelimited);
      case UNSUPPORTED =>
        r := Err(UnsupportedFileType(UnsupportedMessage(filetype)));
    }
  }

  /** What looking up a missing function on a module raises. */
  function MissingAttribute(moduleName: string, name: string): Error
  {
    AttributeError("module '" + moduleName + "' has no attribute '" + name + "'")
  }

  /** `generate_regex` as written: the JSON and CSV branches call functions
      their modules do not define, and the XML branch reads `.pattern` off
      the string `xml_pattern` returns; only HTML can succeed. */
  method GenerateRegexAsWritten(filetype: FileType, text: string, lib: Library) returns (r: Result<string>)
    ensures r.Ok? ==> filetype == HTML
    ensures filetype == HTML ==> r == HtmlRegex.PatternFor(text, lib.tokenize, lib.compiles)
    ensures filetype == JSON ==> r == Err(MissingAttribute("backend.regexgenerators.build_json_regex", "json_pattern"))
    ensures filetype == CSV ==> r == Err(MissingAttribute("backend.regexgenerators.build_csv_regex", "csv_pattern"))
    ensures filetype == XML ==> r.Err? && (XmlRegex.XmlPattern(text, lib.fromstring, lib.compiles).Err? ==>
                                           r == XmlRegex.XmlPattern(text, lib.fromstring, lib.compiles))
    ensures !IsSupported(filetype) ==> r == Err(UnsupportedFileType(UnsupportedMessage(filetype)))
  {
    match filetype {
      case JSON =>
        r := Err(MissingAttribute("backend.regexgenerators.build_json_regex", "json_pattern"));
      case XML =>
        var built := XmlRegex.XmlPattern(text, lib.fromstring, lib.compiles);
        if built.Err? {
          r := built;
        } else {
          r := Err(AttributeError("'str' object has no attribute 'pattern'"));
        }
      case HTML =>
        r := HtmlRegex.HtmlPattern(text, lib.tokenize, lib.compiles);
      case CSV =>
        r := Err(MissingAttribute("backend.regexgenerators.build_csv_regex", "csv_pattern"));
      case UNSUPPORTED =>
        r := Err(UnsupportedFileType(UnsupportedMessage(filetype)));
    }
  }
}
