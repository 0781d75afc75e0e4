/** The HTML pattern builder: a parser object whose event handlers append one
    fragment per start tag, end tag and non-blank text run to an accumulated
    pattern, which is finally anchored with its last `\s*` cut off. */
module HtmlRegex {
  import opened PyStr

  /** What `HTMLParser` reports while tokenising: a self-closing tag arrives as
      a start tag followed by an end tag. */
  datatype HtmlEvent =
    | StartTag(tag: string, attrs: seq<(string, Option<string>)>)
    | EndTag(tag: string)
    | Data(text: string)

  /** The three-character `\s*` every fragment ends with. */
  const Gap: string := "\\s*"
  const AnyData: string := "[^<]*"

  /** `handle_starttag`: the tag name goes in as it is, unescaped. */
  function StartFragment(tag: string): string
  {
    "<" + tag + "\\b[^>]*>" + Gap
  }

  /** `handle_endtag`. */
  function EndFragment(tag: string): string
  {
    "<\\/" + tag + ">" + Gap
  }

  /** `handle_data`: nothing for whitespace-only text, otherwise a fragment
      that does not depend on the text. */
  function DataFragment(text: string): string
  {
    if IsBlank(text) then [] else AnyData + Gap
  }

  /** What one event appends. */
  function Fragment(ev: HtmlEvent): string
  {
    match ev
    case StartTag(tag, _) => StartFragment(tag)
    case EndTag(tag) => EndFragment(tag)
    case Data(text) => DataFragment(text)
  }

  /** What a sequence of events appends, in event order. */
  function Fragments(events: seq<HtmlEvent>): string
  {
    if events == [] then []
    else Fragments(events[..|events| - 1]) + Fragment(events[|events| - 1])
  }

  /** `get_regex` applied to an accumulated pattern. */
  function Anchored(pattern: string): (r: string)
    ensures |r| >= 2 && r[0] == '^' && r[|r| - 1] == '$'
    ensures pattern == [] ==> r == "^$"
    ensures |pattern| >= 3 ==> r[1..|r| - 1] + pattern[|pattern| - 3..] == pattern
  {
    var body := DropLast3(pattern);
    assert ("^" + body + "$")[1..|body| + 1] == body;
    "^" + body + "$"
  }

  /** `MyHTMLParser`: the accumulated pattern is its only state. */
  class HtmlRegexParser {
    var pattern: string

    constructor()
      ensures pattern == []
    {
      pattern := [];
    }

    method HandleStartTag(tag: string, attrs: seq<(string, Option<string>)>)
      modifies this
      ensures pattern == old(pattern) + StartFragment(tag)
    {
      pattern := pattern + StartFragment(tag);
    }

    method HandleEndTag(tag: string)
      modifies this
      ensures pattern == old(pattern) + EndFragment(tag)
    {
      pattern := pattern + EndFragment(tag);
    }

    method HandleData(data: string)
      modifies this
      ensures pattern == old(pattern) + DataFragment(data)
    {
      var stripped := Strip(data);
      StripEmptyIffBlank(data);
      if |stripped| == 0 {
        return;
      }
      pattern := pattern + AnyData + Gap;
    }

    /** `get_regex`: reads the accumulated pattern and leaves it alone. */
    function GetRegex(): (r: string)
      reads this
      ensures r == Anchored(pattern)
    {
      Anchored(pattern)
    }

    /** `feed`: hands each event to its handler, in order. */
    method Feed(events: seq<HtmlEvent>)
      modifies this
      ensures pattern == old(pattern) + Fragments(events)
    {
      for i := 0 to |events|
        invariant pattern == old(pattern) + Fragments(events[..i])
      {
        ghost var before := pattern;
        var ev := events[i];
        match ev {
          case StartTag(tag, attrs) => HandleStartTag(tag, attrs);
          case EndTag(tag) => HandleEndTag(tag);
          case Data(text) => HandleData(text);
        }
        assert pattern == before + Fragment(ev);
        FragmentsStep(events, i);
        AppendAssoc(old(pattern), Fragments(events[..i]), Fragment(ev));
      }
      assert events[..|events|] == events;
    }
  }

  /** What `html_pattern` returns for a text: the tokeniser's exception, or
      the anchored fragments of its events if they compile, or the compile
      error. */
  function PatternFor(text: string, tokenize: string -> Result<seq<HtmlEvent>>, compiles: string -> bool): (r: Result<string>)
    ensures tokenize(text).Err? ==> r == Err(tokenize(text).error)
    ensures r.Ok? ==> tokenize(text).Ok? && r.value == Anchored(Fragments(tokenize(text).value)) && compiles(r.value)
    ensures r.Err? && tokenize(text).Ok? ==> r.error == RegexError
    ensures tokenize(text).Ok? && compiles(Anchored(Fragments(tokenize(text).value))) ==> r.Ok?
  {
    match tokenize(text)
    case Err(e) => Err(e)
    case Ok(events) =>
      var regex := Anchored(Fragments(events));
      if compiles(regex) then Ok(regex) else Err(RegexError)
  }

  /** `html_pattern`: a fresh parser, fed the whole text, then compiled.
      A tokeniser failure is passed on unchanged. */
  method HtmlPattern(text: string, tokenize: string -> Result<seq<HtmlEvent>>, compiles: string -> bool)
    returns (r: Result<string>)
    ensures r == PatternFor(text, tokenize, compiles)
  {
    var parser := new HtmlRegexParser();
    match tokenize(text)
    case Err(e) =>
      return Err(e);
    case Ok(events) =>
      parser.Feed(events);
      assert parser.pattern == Fragments(events);
      var regex := parser.GetRegex();
      if compiles(regex) {
        return Ok(regex);
      }
      return Err(RegexError);
  }

  lemma AppendAssoc(a: string, b: string, c: string)
    ensures (a + b) + c == a + (b + c)
  {
  }

  /** One more event appends its own fragment. */
  lemma FragmentsStep(events: seq<HtmlEvent>, i: nat)
    requires i < |events|
    ensures Fragments(events[..i + 1]) == Fragments(events[..i]) + Fragment(events[i])
  {
    assert events[..i + 1][..i] == events[..i];
  }

  /** Feeding in two steps appends the same as feeding once. */
  lemma {:induction false} FragmentsAppend(a: seq<HtmlEvent>, b: seq<HtmlEvent>)
    ensures Fragments(a + b) == Fragments(a) + Fragments(b)
    decreases |b|
  {
    if b == [] {
      assert a + b == a;
    } else {
      var front := b[..|b| - 1];
      var last := b[|b| - 1];
      assert (a + b)[..|a + b| - 1] == a + front;
      assert (a + b)[|a + b| - 1] == last;
      FragmentsAppend(a, front);
      AppendAssoc(Fragments(a), Fragments(front), Fragment(last));
    }
  }

  /** The pattern only grows: an earlier state is a prefix of every later one. */
  lemma EarlierStateIsPrefix(events: seq<HtmlEvent>, i: nat)
    requires i <= |events|
    ensures StartsWith(Fragments(events), Fragments(events[..i]))
  {
    assert events == events[..i] + events[i..];
    FragmentsAppend(events[..i], events[i..]);
    var f := Fragments(events[..i]);
    assert Fragments(events)[..|f|] == f;
  }

  /** Every non-empty accumulated pattern ends in `\s*`. */
  lemma {:induction false} FragmentsEndInGap(events: seq<HtmlEvent>)
    ensures Fragments(events) == [] || (|Fragments(events)| >= 3 && Fragments(events)[|Fragments(events)| - 3..] == Gap)
  {
    if events != [] {
      var front := events[..|events| - 1];
      var last := Fragment(events[|events| - 1]);
      FragmentsEndInGap(front);
      if last != [] {
        assert last[|last| - 3..] == Gap;
        assert (Fragments(front) + last)[|Fragments(front) + last| - 3..] == last[|last| - 3..];
      }
    }
  }

  /** `get_regex` cuts off exactly the final `\s*`: the accumulated pattern is
      the anchored body followed by that `\s*`. */
  lemma FinalGapDropped(events: seq<HtmlEvent>)
    ensures var p := Fragments(events); var r := Anchored(p);
      p == [] ==> r == "^$"
    ensures var p := Fragments(events); var r := Anchored(p);
      p != [] ==> p == r[1..|r| - 1] + Gap
  {
    FragmentsEndInGap(events);
  }

  /** Tag names go into the pattern verbatim, regex metacharacters included. */
  lemma TagGoesInVerbatim(tag: string)
    ensures StartFragment(tag)[1..1 + |tag|] == tag
    ensures EndFragment(tag)[3..3 + |tag|] == tag
  {
    assert StartFragment(tag) == "<" + tag + ("\\b[^>]*>" + Gap);
    assert EndFragment(tag) == "<\\/" + tag + (">" + Gap);
  }

  /** A whitespace-only text run leaves the pattern as it was. */
  lemma BlankDataAddsNothing(events: seq<HtmlEvent>, text: string)
    requires Strip(text) == []
    ensures Fragments(events + [Data(text)]) == Fragments(events)
  {
    StripEmptyIffBlank(text);
    assert (events + [Data(text)])[..|events|] == events;
  }

  /** Text content never reaches the pattern: two non-blank runs give the same. */
  lemma DataContentIgnored(events: seq<HtmlEvent>, t1: string, t2: string)
    requires Strip(t1) != [] && Strip(t2) != []
    ensures Fragments(events + [Data(t1)]) == Fragments(events + [Data(t2)])
  {
    StripEmptyIffBlank(t1);
    StripEmptyIffBlank(t2);
    assert (events + [Data(t1)])[..|events|] == events;
    assert (events + [Data(t2)])[..|events|] == events;
  }
}
