/** Python values and `str` operations that the regex builders and the format
    sniffer rely on: the exceptions they raise, `str.strip`, `str.lower`,
    `str.startswith`, the `in` substring test, `str.join` and `re.escape`. */
module PyStr {

  datatype Option<+T> = None | Some(value: T)

  /** The exceptions the modelled code raises or lets through. */
  datatype Error =
    | ValueError(msg: string)          // raised by the JSON builder past its depth bound
    | AttributeError(msg: string)      // a name looked up on a module or object that lacks it
    | TypeError(msg: string)           // csv.reader given a delimiter that is not one character
    | XmlParseError                    // ElementTree.ParseError
    | CsvError                         // csv.Error
    | RegexError                       // re.error raised by re.compile
    | UnsupportedFileType(msg: string) // the generic Exception of the dispatch
    | KeyError(key: string)            // FileType[name] for an unknown name
    | PredictorError                   // anything the ML collaborator raises

  datatype Result<+T> = Ok(value: T) | Err(error: Error)

  /** Python's `str.isspace` for one character (what `str.strip()` removes). */
  predicate IsSpace(c: char)
  {
    c == ' ' || ('\t' <= c <= '\r') || ('\U{1C}' <= c <= '\U{1F}')
    || c == '\U{85}' || c == '\U{A0}' || c == '\U{1680}' || ('\U{2000}' <= c <= '\U{200A}')
    || c == '\U{2028}' || c == '\U{2029}' || c == '\U{202F}' || c == '\U{205F}' || c == '\U{3000}'
  }

  /** `str.lower` restricted to the ASCII letters. */
  function LowerChar(c: char): (r: char)
    ensures IsSpace(r) == IsSpace(c)
    ensures 'A' <= c <= 'Z' ==> r != c && 'a' <= r <= 'z'
    ensures !('A' <= c <= 'Z') ==> r == c
  {
    if 'A' <= c <= 'Z' then (c as int - 'A' as int + 'a' as int) as char else c
  }

  function Lower(s: string): (r: string)
    ensures |r| == |s|
    ensures forall i :: 0 <= i < |s| ==> r[i] == LowerChar(s[i])
  {
    seq(|s|, i requires 0 <= i < |s| => LowerChar(s[i]))
  }

  /** Number of whitespace characters `str.lstrip()` removes. */
  function LeadingSpaces(s: string): (n: nat)
    ensures n <= |s|
    ensures forall i :: 0 <= i < n ==> IsSpace(s[i])
    ensures n == |s| || !IsSpace(s[n])
  {
    if s != [] && IsSpace(s[0]) then 1 + LeadingSpaces(s[1..]) else 0
  }

  /** Number of whitespace characters `str.rstrip()` removes. */
  function TrailingSpaces(s: string): (n: nat)
    ensures n <= |s|
    ensures forall i :: |s| - n <= i < |s| ==> IsSpace(s[i])
    ensures n == |s| || !IsSpace(s[|s| - n - 1])
  {
    if s != [] && IsSpace(s[|s| - 1]) then 1 + TrailingSpaces(s[..|s| - 1]) else 0
  }

  /** `str.strip()`: the slice of `s` between its leading and trailing whitespace. */
  function Strip(s: string): (r: string)
    ensures r == s[LeadingSpaces(s)..|s| - TrailingSpaces(s[LeadingSpaces(s)..])]
    ensures r == [] || (!IsSpace(r[0]) && !IsSpace(r[|r| - 1]))
    ensures r == [] ==> forall i :: 0 <= i < |s| ==> IsSpace(s[i])
  {
    var t := s[LeadingSpaces(s)..];
    t[..|t| - TrailingSpaces(t)]
  }

  /** `LeadingSpaces` is the only count whose prefix is blank and is followed
      by a non-space. */
  lemma LeadingSpacesUnique(s: string, n: nat)
    requires n <= |s|
    requires forall i :: 0 <= i < n ==> IsSpace(s[i])
    requires n == |s| || !IsSpace(s[n])
    ensures LeadingSpaces(s) == n
  {
  }

  lemma TrailingSpacesUnique(s: string, n: nat)
    requires n <= |s|
    requires forall i :: |s| - n <= i < |s| ==> IsSpace(s[i])
    requires n == |s| || !IsSpace(s[|s| - n - 1])
    ensures TrailingSpaces(s) == n
  {
  }

  /** Lower-casing and stripping commute, as `str.lower` never turns a space
      into a non-space or back. */
  lemma StripLower(s: string)
    ensures Strip(Lower(s)) == Lower(Strip(s))
  {
    var lead := LeadingSpaces(s);
    LowerKeepsLeadingSpaces(s);
    LowerSlice(s, lead);
    var t := s[lead..];
    var trail := TrailingSpaces(t);
    LowerKeepsTrailingSpaces(t);
    LowerPrefix(t, |t| - trail);
  }

  lemma LowerKeepsLeadingSpaces(s: string)
    ensures LeadingSpaces(Lower(s)) == LeadingSpaces(s)
  {
    var low := Lower(s);
    var lead := LeadingSpaces(s);
    forall i | 0 <= i < lead
      ensures IsSpace(low[i])
    {
      assert low[i] == LowerChar(s[i]);
    }
    if lead < |s| {
      assert low[lead] == LowerChar(s[lead]);
    }
    LeadingSpacesUnique(low, lead);
  }

  lemma LowerKeepsTrailingSpaces(s: string)
    ensures TrailingSpaces(Lower(s)) == TrailingSpaces(s)
  {
    var low := Lower(s);
    var trail := TrailingSpaces(s);
    forall i | |s| - trail <= i < |s|
      ensures IsSpace(low[i])
    {
      assert low[i] == LowerChar(s[i]);
    }
    if trail < |s| {
      assert low[|s| - trail - 1] == LowerChar(s[|s| - trail - 1]);
    }
    TrailingSpacesUnique(low, trail);
  }

  lemma LowerSlice(s: string, k: nat)
    requires k <= |s|
    ensures Lower(s)[k..] == Lower(s[k..])
  {
  }

  lemma LowerPrefix(s: string, k: nat)
    requires k <= |s|
    ensures Lower(s)[..k] == Lower(s[..k])
  {
  }

  /** Stripping twice strips nothing more. */
  lemma StripIdempotent(s: string)
    ensures Strip(Strip(s)) == Strip(s)
  {
    var r := Strip(s);
    LeadingSpacesUnique(r, 0);
    assert r[0..] == r;
    TrailingSpacesUnique(r, 0);
    assert r[..|r|] == r;
  }

  /** Every character is whitespace (the empty string included). */
  predicate IsBlank(s: string)
  {
    forall i :: 0 <= i < |s| ==> IsSpace(s[i])
  }

  /** `s.strip()` is empty exactly when `s` is blank. */
  lemma StripEmptyIffBlank(s: string)
    ensures Strip(s) == [] <==> IsBlank(s)
  {
    if IsBlank(s) {
      assert LeadingSpaces(s) == |s|;
    }
  }

  predicate StartsWith(s: string, prefix: string)
  {
    |prefix| <= |s| && s[..|prefix|] == prefix
  }

  /** `needle` occurs in `s` starting at index `i`. */
  predicate OccursAt(s: string, needle: string, i: int)
  {
    0 <= i && i + |needle| <= |s| && s[i..i + |needle|] == needle
  }

  /** Python's `needle in s` for strings. */
  predicate Contains(s: string, needle: string)
  {
    exists i :: 0 <= i <= |s| - |needle| && OccursAt(s, needle, i)
  }

  lemma ContainsInSlice(s: string, lo: nat, hi: nat, needle: string)
    requires lo <= hi <= |s|
    requires Contains(s[lo..hi], needle)
    ensures Contains(s, needle)
  {
    var i :| 0 <= i <= (hi - lo) - |needle| && OccursAt(s[lo..hi], needle, i);
    assert i + |needle| <= hi - lo;
    forall k | 0 <= k < |needle|
      ensures needle[k] == s[lo + i + k]
    {
      assert needle[k] == s[lo..hi][i..i + |needle|][k];
    }
    assert s[lo + i..lo + i + |needle|] == needle;
    assert OccursAt(s, needle, lo + i);
  }

  /** A sub-string of the stripped text is a sub-string of the text. */
  lemma ContainsInStrip(s: string, needle: string)
    requires Contains(Strip(s), needle)
    ensures Contains(s, needle)
  {
    var lead := LeadingSpaces(s);
    var t := s[lead..];
    assert Strip(s) == s[lead..lead + (|t| - TrailingSpaces(t))];
    ContainsInSlice(s, lead, lead + (|t| - TrailingSpaces(t)), needle);
  }

  /** A needle that neither starts nor ends with whitespace occurs in the
      stripped text exactly when it occurs in the text. */
  lemma ContainsOfStrip(s: string, needle: string)
    requires needle != [] && !IsSpace(needle[0]) && !IsSpace(needle[|needle| - 1])
    ensures Contains(Strip(s), needle) <==> Contains(s, needle)
  {
    if Contains(s, needle) {
      var i :| 0 <= i <= |s| - |needle| && OccursAt(s, needle, i);
      var lead := LeadingSpaces(s);
      var t := s[lead..];
      var trail := TrailingSpaces(t);
      var j := i + |needle| - 1;
      assert s[i] == needle[0] && s[j] == needle[|needle| - 1] by {
        assert s[i..i + |needle|] == needle;
      }
      assert lead <= i;
      assert t[j - lead] == s[j];
      assert j - lead < |t| - trail;
      var r := Strip(s);
      assert r == t[..|t| - trail];
      assert r[i - lead..i - lead + |needle|] == s[i..i + |needle|];
      assert OccursAt(r, needle, i - lead);
    }
    if Contains(Strip(s), needle) {
      ContainsInStrip(s, needle);
    }
  }

  /** `sep.join(parts)`. */
  function Join(sep: string, parts: seq<string>): (r: string)
    ensures parts == [] ==> r == []
    ensures |parts| == 1 ==> r == parts[0]
  {
    if parts == [] then []
    else if |parts| == 1 then parts[0]
    else parts[0] + sep + Join(sep, parts[1..])
  }

  /** `s[:-3]`: all but the last three characters, or "" when `s` is shorter. */
  function DropLast3(s: string): (r: string)
    ensures |s| >= 3 ==> r + s[|s| - 3..] == s
    ensures |s| < 3 ==> r == []
  {
    if |s| >= 3 then s[..|s| - 3] else []
  }

  /** `s[:n]`. */
  function Take(s: string, n: nat): (r: string)
    ensures |r| == if |s| < n then |s| else n
    ensures StartsWith(s, r)
  {
    if |s| <= n then s else s[..n]
  }

  /** The characters `re.escape` (Python 3.7 and later) prefixes with a backslash. */
  predicate IsRegexSpecial(c: char)
  {
    c in "()[]{}?*+-|^$\\.&~# \t\n\r\U{B}\U{C}"
  }

  /** `re.escape`. */
  function Escape(s: string): (r: string)
    ensures |r| >= |s|
  {
    if s == [] then []
    else (if IsRegexSpecial(s[0]) then ['\\', s[0]] else [s[0]]) + Escape(s[1..])
  }

  /** Inverse of `Escape`: drops the backslash in front of each escaped character. */
  function Unescape(s: string): (r: string)
    ensures |r| <= |s|
  {
    if s == [] then []
    else if s[0] == '\\' && |s| >= 2 then [s[1]] + Unescape(s[2..])
    else [s[0]] + Unescape(s[1..])
  }

  /** `re.escape` loses nothing: the escaped text determines the original. */
  lemma {:induction false} UnescapeEscape(s: string)
    ensures Unescape(Escape(s)) == s
  {
    if s != [] {
      UnescapeEscape(s[1..]);
      var head := if IsRegexSpecial(s[0]) then ['\\', s[0]] else [s[0]];
      assert Escape(s) == head + Escape(s[1..]);
      if IsRegexSpecial(s[0]) {
        assert (head + Escape(s[1..]))[2..] == Escape(s[1..]);
      } else {
        assert (head + Escape(s[1..]))[1..] == Escape(s[1..]);
      }
    }
  }

  /** Escaping is injective, so distinct keys and tags give distinct literals. */
  lemma EscapeInjective(a: string, b: string)
    requires Escape(a) == Escape(b)
    ensures a == b
  {
    UnescapeEscape(a);
    UnescapeEscape(b);
  }
}
