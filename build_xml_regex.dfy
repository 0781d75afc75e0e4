/** The XML pattern builder: mirrors an element tree as a regex pattern string,
    one sub-pattern per child element in document order. Past depth 3 (the root
    is depth 1) an element's content degrades to `[^<]*` instead of failing.
    Attributes and text never reach the pattern. */
module XmlRegex {
  import opened PyStr

  /** An element as `ElementTree.fromstring` returns it. */
  datatype Element = Element(tag: string, attrib: seq<(string, string)>, text: string, children: seq<Element>)

  const RootDepth: nat := 1
  const MaxDepth: nat := 3
  const AnyText: string := "[^<]*"
  const Gap: string := "\\s*"

  /** Opening tag with any attributes. */
  function OpenTag(tag: string): string
  {
    "<\\s*" + Escape(tag) + "\\b[^>]*>"
  }

  function CloseTag(tag: string): string
  {
    "<\\s*/\\s*" + Escape(tag) + "\\s*>"
  }

  /** One element: its tags around its content, with optional whitespace between. */
  function ElementPattern(tag: string, content: string): string
  {
    OpenTag(tag) + Gap + content + Gap + CloseTag(tag)
  }

  /** `__build_xml_regex_recursive(element, depth, max_depth=3)`. */
  function BuildRec(e: Element, depth: nat): string
  {
    var content :=
      if depth > MaxDepth || |e.children| == 0 then AnyText
      else Join(Gap, ChildPatterns(e.children, depth + 1));
    ElementPattern(e.tag, content)
  }

  /** Every element pattern opens with the element's escaped opening tag and
      closes with `>`, whatever its content. */
  lemma ElementShape(e: Element, depth: nat)
    ensures var r := BuildRec(e, depth);
      StartsWith(r, OpenTag(e.tag)) && r[0] == '<' && r[|r| - 1] == '>'
  {
    var content :=
      if depth > MaxDepth || |e.children| == 0 then AnyText
      else Join(Gap, ChildPatterns(e.children, depth + 1));
    TagsAround(OpenTag(e.tag), Gap + content + Gap, CloseTag(e.tag));
    assert "<\\s*"[0] == '<';
    assert OpenTag(e.tag)[0] == '<';
  }

  /** A string built as `open + middle + close` starts with `open` and ends
      with the last character of `close`. */
  lemma TagsAround(open: string, middle: string, close: string)
    requires |open| > 0 && |close| > 0
    ensures var r := open + middle + close;
      StartsWith(r, open) && r[0] == open[0] && r[|r| - 1] == close[|close| - 1]
  {
    var r := open + middle + close;
    assert r[..|open|] == open;
  }

  /** The loop over the children: one pattern per child, in document order. */
  function ChildPatterns(children: seq<Element>, depth: nat): (r: seq<string>)
    ensures |r| == |children|
  {
    if children == [] then []
    else [BuildRec(children[0], depth)] + ChildPatterns(children[1..], depth)
  }

  /** Exactly one sub-pattern per child, in document order. */
  lemma {:induction false} OnePatternPerChild(children: seq<Element>, depth: nat, i: nat)
    requires i < |children|
    ensures ChildPatterns(children, depth)[i] == BuildRec(children[i], depth)
  {
    if i > 0 {
      OnePatternPerChild(children[1..], depth, i - 1);
    }
  }

  /** `xml_pattern(string)`: parse, build from the root at depth 1, compile, and
      return the pattern string itself, with no `^`/`$` anchors. */
  function XmlPattern(text: string, parse: string -> Option<Element>, compiles: string -> bool): (r: Result<string>)
    ensures r.Err? ==> r.error == XmlParseError || r.error == RegexError
    ensures r.Err? && r.error == XmlParseError <==> parse(text).None?
    ensures r.Ok? ==> |r.value| > 0 && r.value[0] == '<' && r.value[|r.value| - 1] == '>'
    ensures r.Ok? ==> parse(text).Some? && r.value == BuildRec(parse(text).value, RootDepth)
    ensures parse(text).Some? ==> (r.Ok? <==> compiles(BuildRec(parse(text).value, RootDepth)))
  {
    match parse(text)
    case None => Err(XmlParseError)
    case Some(root) =>
      var pattern := BuildRec(root, RootDepth);
      ElementShape(root, RootDepth);
      if compiles(pattern) then Ok(pattern) else Err(RegexError)
  }

  /** The element with its attributes and text dropped, at every level. */
  function Skeleton(e: Element): (s: Element)
    ensures s.tag == e.tag && |s.children| == |e.children|
  {
    Element(e.tag, [], "", SkeletonOfAll(e.children))
  }

  function SkeletonOfAll(es: seq<Element>): (r: seq<Element>)
    ensures |r| == |es|
    ensures forall i :: 0 <= i < |es| ==> r[i] == Skeleton(es[i])
  {
    if es == [] then [] else [Skeleton(es[0])] + SkeletonOfAll(es[1..])
  }

  /** The element with only `levels` levels of descendants kept. */
  function Prune(e: Element, levels: nat): (p: Element)
    ensures p.tag == e.tag && p.attrib == e.attrib && p.text == e.text
    ensures levels == 0 ==> p.children == []
    ensures levels > 0 ==> |p.children| == |e.children|
  {
    Element(e.tag, e.attrib, e.text, if levels == 0 then [] else PruneAll(e.children, levels - 1))
  }

  function PruneAll(es: seq<Element>, levels: nat): (r: seq<Element>)
    ensures |r| == |es|
    ensures forall i :: 0 <= i < |es| ==> r[i] == Prune(es[i], levels)
  {
    if es == [] then [] else [Prune(es[0], levels)] + PruneAll(es[1..], levels)
  }

  /** Attributes and text never appear in the pattern: two elements with the
      same tags and nesting get the same pattern. */
  lemma {:induction false} IgnoresAttributesAndText(e: Element, depth: nat)
    ensures BuildRec(e, depth) == BuildRec(Skeleton(e), depth)
    decreases e, 1
  {
    ChildrenIgnoreAttributesAndText(e.children, depth + 1);
  }

  lemma {:induction false} ChildrenIgnoreAttributesAndText(es: seq<Element>, depth: nat)
    ensures ChildPatterns(es, depth) == ChildPatterns(SkeletonOfAll(es), depth)
    decreases es, 0
  {
    forall i | 0 <= i < |es|
      ensures ChildPatterns(es, depth)[i] == ChildPatterns(SkeletonOfAll(es), depth)[i]
    {
      OnePatternPerChild(es, depth, i);
      OnePatternPerChild(SkeletonOfAll(es), depth, i);
      IgnoresAttributesAndText(es[i], depth);
    }
  }

  /** The depth bound: an element at `depth` is built the same from a copy
      that keeps only the levels of descendants that reach depth 4, so
      nothing below depth 4 influences the pattern. */
  lemma {:induction false} DepthBound(e: Element, depth: nat, levels: nat)
    requires depth + levels > MaxDepth
    ensures BuildRec(e, depth) == BuildRec(Prune(e, levels), depth)
    decreases e, 1
  {
    var p := Prune(e, levels);
    if depth > MaxDepth || |e.children| == 0 {
      assert BuildRec(e, depth) == ElementPattern(e.tag, AnyText);
      assert BuildRec(p, depth) == ElementPattern(e.tag, AnyText);
    } else {
      var kept := PruneAll(e.children, levels - 1);
      assert p.children == kept;
      PrunedChildren(e.children, depth + 1, levels - 1);
      assert BuildRec(e, depth) == ElementPattern(e.tag, Join(Gap, ChildPatterns(e.children, depth + 1)));
      assert BuildRec(p, depth) == ElementPattern(e.tag, Join(Gap, ChildPatterns(kept, depth + 1)));
    }
    assert BuildRec(e, depth) == BuildRec(p, depth);
  }

  lemma {:induction false} PrunedChildren(es: seq<Element>, depth: nat, levels: nat)
    requires depth + levels > MaxDepth
    ensures ChildPatterns(es, depth) == ChildPatterns(PruneAll(es, levels), depth)
    decreases es, 0
  {
    forall i | 0 <= i < |es|
      ensures ChildPatterns(es, depth)[i] == ChildPatterns(PruneAll(es, levels), depth)[i]
    {
      OnePatternPerChild(es, depth, i);
      OnePatternPerChild(PruneAll(es, levels), depth, i);
      DepthBound(es[i], depth, levels);
    }
  }

  /** From the root, three levels (depths 1 to 4) decide the whole pattern. */
  lemma RootSeesFourLevels(root: Element)
    ensures BuildRec(root, RootDepth) == BuildRec(Prune(root, MaxDepth), RootDepth)
  {
    DepthBound(root, RootDepth, MaxDepth);
  }

  /** Past the bound an element's content is `[^<]*` whatever its children. */
  lemma DeepElementIsOpaque(e: Element, depth: nat)
    requires depth > MaxDepth
    ensures BuildRec(e, depth) == OpenTag(e.tag) + Gap + AnyText + Gap + CloseTag(e.tag)
  {
  }
}
