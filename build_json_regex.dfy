/** The JSON pattern builder: mirrors a parsed JSON value as a regex pattern
    string, one fragment per object member or array element, and refuses values
    nested deeper than the depth bound. String leaves are handed to `json.loads`
    again and, when they parse, built from the parsed value at the same depth. */
module JsonRegex {
  import opened PyStr

  /** A value as `json.loads` returns it: objects keep their insertion order. */
  datatype JsonValue =
    | Object(members: seq<Member>)
    | Array(items: seq<JsonValue>)
    | Int(i: int)
    | Float(x: real)
    | Bool(b: bool)
    | Null
    | Str(s: string)

  /** One `(key, value)` item of a dict. */
  datatype Member = Member(key: string, value: JsonValue)

  /** The outcome of calling `json.loads` on a string leaf: a value, the
      JSONDecodeError the builder catches, or another exception it lets through. */
  datatype Loaded = Parsed(value: JsonValue) | DecodeError | Raised(error: Error)

  const MaxDepth: nat := 3
  const DepthError: Error := ValueError("Maximale Tiefe \U{FC}berschritten")

  const NumberPattern: string := "-?\\d+(\\.\\d+)?"
  const BoolPattern: string := "(true|false)"
  const NullPattern: string := "null"
  const StringPattern: string := "\"[^\"\\\\]*\""
  const Separator: string := "\\s*,\\s*"

  /** The literal that introduces one object member. */
  function KeyPattern(key: string): string
  {
    "\"" + Escape(key) + "\"\\s*:\\s*"
  }

  /** An object: the member fragments between escaped braces. */
  function ObjectPattern(parts: seq<string>): string
  {
    "\\{\\s*" + Join(Separator, parts) + "\\s*\\}"
  }

  /** An array: the element fragments in one optional group between escaped brackets. */
  function ArrayPattern(parts: seq<string>): string
  {
    "\\[\\s*(" + Join(Separator, parts) + ")?\\s*\\]"
  }

  /** A lower bound on the length of any JSON text that denotes `v`. */
  function Weight(v: JsonValue): nat
  {
    match v
    case Object(ms) => 1 + MembersWeight(ms)
    case Array(items) => 1 + ItemsWeight(items)
    case Str(s) => |s| + 2
    case _ => 1
  }

  function MembersWeight(ms: seq<Member>): nat
  {
    if ms == [] then 0 else 1 + Weight(ms[0].value) + MembersWeight(ms[1..])
  }

  function ItemsWeight(items: seq<JsonValue>): nat
  {
    if items == [] then 0 else 1 + Weight(items[0]) + ItemsWeight(items[1..])
  }

  /** What any real parser satisfies: the value it reads from a text is no
      heavier than the text is long. This is what makes re-parsing string
      leaves terminate. */
  ghost predicate Shrinks(loads: string -> Loaded)
  {
    forall s {:trigger Weight(loads(s).value)} :: loads(s).Parsed? ==> Weight(loads(s).value) <= |s|
  }

  /** The parser raises nothing but JSONDecodeError. */
  ghost predicate NeverRaises(loads: string -> Loaded)
  {
    forall s :: !loads(s).Raised?
  }

  /** `__build_json_regex_recursive(data, depth, max_depth=3)`. */
  function BuildRec(v: JsonValue, depth: nat, loads: string -> Loaded): (r: Result<string>)
    requires Shrinks(loads)
    decreases Weight(v), 1
  {
    if depth > MaxDepth then Err(DepthError)
    else
      match v
      case Str(s) =>
        (match loads(s)
         case Parsed(p) => BuildRec(p, depth, loads)
         case DecodeError => Ok(StringPattern)
         case Raised(e) => Err(e))
      case Object(ms) =>
        (match BuildMembers(ms, depth + 1, loads)
         case Ok(parts) => Ok(ObjectPattern(parts))
         case Err(e) => Err(e))
      case Array(items) =>
        (match BuildItems(items, depth + 1, loads)
         case Ok(parts) => Ok(ArrayPattern(parts))
         case Err(e) => Err(e))
      // The int/float test comes first and a Python bool is an int, so booleans
      // take this branch and the `(true|false)` branch is never reached.
      case Int(_) => Ok(NumberPattern)
      case Float(_) => Ok(NumberPattern)
      case Bool(_) => Ok(NumberPattern)
      case Null => Ok(NullPattern)
  }

  /** The member loop: one key-plus-value fragment per member, stopping at the first error. */
  function BuildMembers(ms: seq<Member>, depth: nat, loads: string -> Loaded): (r: Result<seq<string>>)
    requires Shrinks(loads)
    decreases MembersWeight(ms), 0
  {
    if ms == [] then Ok([])
    else
      match BuildRec(ms[0].value, depth, loads)
      case Err(e) => Err(e)
      case Ok(p) =>
        (match BuildMembers(ms[1..], depth, loads)
         case Err(e) => Err(e)
         case Ok(ps) => Ok([KeyPattern(ms[0].key) + p] + ps))
  }

  /** The list comprehension over the elements of an array. */
  function BuildItems(items: seq<JsonValue>, depth: nat, loads: string -> Loaded): (r: Result<seq<string>>)
    requires Shrinks(loads)
    decreases ItemsWeight(items), 0
  {
    if items == [] then Ok([])
    else
      match BuildRec(items[0], depth, loads)
      case Err(e) => Err(e)
      case Ok(p) =>
        (match BuildItems(items[1..], depth, loads)
         case Err(e) => Err(e)
         case Ok(ps) => Ok([p] + ps))
  }

  /** The module's `json(string)` entry point: builds from the text itself
      (a string, so it is parsed first), anchors it and compiles it. */
  function Json(text: string, loads: string -> Loaded, compiles: string -> bool): (r: Result<string>)
    requires Shrinks(loads)
    ensures r.Ok? ==> |r.value| >= 2 && r.value[0] == '^' && r.value[|r.value| - 1] == '$'
    ensures r.Ok? ==> compiles(r.value)
    ensures r.Ok? <==> BuildRec(Str(text), 0, loads).Ok? && compiles("^" + BuildRec(Str(text), 0, loads).value + "$")
  {
    match BuildRec(Str(text), 0, loads)
    case Err(e) => Err(e)
    case Ok(fragment) =>
      var pattern := "^" + fragment + "$";
      if compiles(pattern) then Ok(pattern) else Err(RegexError)
  }

  /** How deep the builder must go below a value: containers with children add
      one level, strings that parse count as the value they parse to. */
  function Height(v: JsonValue, loads: string -> Loaded): nat
    requires Shrinks(loads)
    decreases Weight(v), 1
  {
    match v
    case Str(s) => if loads(s).Parsed? then Height(loads(s).value, loads) else 0
    case Object(ms) => if ms == [] then 0 else 1 + MembersHeight(ms, loads)
    case Array(items) => if items == [] then 0 else 1 + ItemsHeight(items, loads)
    case _ => 0
  }

  function MembersHeight(ms: seq<Member>, loads: string -> Loaded): nat
    requires Shrinks(loads)
    decreases MembersWeight(ms), 0
  {
    if ms == [] then 0
    else
      var h := Height(ms[0].value, loads);
      var t := MembersHeight(ms[1..], loads);
      if h < t then t else h
  }

  function ItemsHeight(items: seq<JsonValue>, loads: string -> Loaded): nat
    requires Shrinks(loads)
    decreases ItemsWeight(items), 0
  {
    if items == [] then 0
    else
      var h := Height(items[0], loads);
      var t := ItemsHeight(items[1..], loads);
      if h < t then t else h
  }

  /** The builder raises exactly when the value reaches below depth 3, and
      then it raises the depth ValueError. */
  lemma {:induction false} BuildFailsIffTooDeep(v: JsonValue, depth: nat, loads: string -> Loaded)
    requires Shrinks(loads) && NeverRaises(loads)
    ensures BuildRec(v, depth, loads).Err? <==> depth + Height(v, loads) > MaxDepth
    ensures BuildRec(v, depth, loads).Err? ==> BuildRec(v, depth, loads).error == DepthError
    decreases Weight(v), 1
  {
    if depth <= MaxDepth {
      match v
      case Str(s) => StrFailsIffTooDeep(s, depth, loads);
      case Object(ms) => MembersFailIffTooDeep(ms, depth + 1, loads);
      case Array(items) => ItemsFailIffTooDeep(items, depth + 1, loads);
      case _ =>
    }
  }

  /** A string leaf is as deep as the value it parses to. */
  lemma {:induction false} StrFailsIffTooDeep(s: string, depth: nat, loads: string -> Loaded)
    requires Shrinks(loads) && NeverRaises(loads)
    requires depth <= MaxDepth
    ensures BuildRec(Str(s), depth, loads).Err? <==> depth + Height(Str(s), loads) > MaxDepth
    ensures BuildRec(Str(s), depth, loads).Err? ==> BuildRec(Str(s), depth, loads).error == DepthError
    decreases |s| + 2, 0
  {
    assert !loads(s).Raised?;
    if loads(s).Parsed? {
      var p := loads(s).value;
      assert BuildRec(Str(s), depth, loads) == BuildRec(p, depth, loads);
      assert Height(Str(s), loads) == Height(p, loads);
      BuildFailsIffTooDeep(p, depth, loads);
    }
  }

  lemma {:induction false} MembersFailIffTooDeep(ms: seq<Member>, depth: nat, loads: string -> Loaded)
    requires Shrinks(loads) && NeverRaises(loads)
    ensures BuildMembers(ms, depth, loads).Err? <==> ms != [] && depth + MembersHeight(ms, loads) > MaxDepth
    ensures BuildMembers(ms, depth, loads).Err? ==> BuildMembers(ms, depth, loads).error == DepthError
    decreases MembersWeight(ms), 0
  {
    if ms != [] {
      BuildFailsIffTooDeep(ms[0].value, depth, loads);
      MembersFailIffTooDeep(ms[1..], depth, loads);
    }
  }

  lemma {:induction false} ItemsFailIffTooDeep(items: seq<JsonValue>, depth: nat, loads: string -> Loaded)
    requires Shrinks(loads) && NeverRaises(loads)
    ensures BuildItems(items, depth, loads).Err? <==> items != [] && depth + ItemsHeight(items, loads) > MaxDepth
    ensures BuildItems(items, depth, loads).Err? ==> BuildItems(items, depth, loads).error == DepthError
    decreases ItemsWeight(items), 0
  {
    if items != [] {
      BuildFailsIffTooDeep(items[0], depth, loads);
      ItemsFailIffTooDeep(items[1..], depth, loads);
    }
  }

  /** An object's pattern holds one fragment per member, in insertion order:
      the escaped key literal followed by the member value's own pattern. */
  lemma {:induction false} MembersInOrder(ms: seq<Member>, depth: nat, loads: string -> Loaded)
    requires Shrinks(loads)
    ensures BuildMembers(ms, depth, loads).Ok? <==> forall i :: 0 <= i < |ms| ==> BuildRec(ms[i].value, depth, loads).Ok?
    ensures BuildMembers(ms, depth, loads).Ok? ==>
      var parts := BuildMembers(ms, depth, loads).value;
      |parts| == |ms| &&
      forall i :: 0 <= i < |ms| ==> parts[i] == KeyPattern(ms[i].key) + BuildRec(ms[i].value, depth, loads).value
    decreases |ms|
  {
    if ms != [] {
      MembersInOrder(ms[1..], depth, loads);
      assert forall i :: 1 <= i < |ms| ==> ms[i] == ms[1..][i - 1];
    }
  }

  /** An array's pattern is positional: one fragment per element, in order. */
  lemma {:induction false} ItemsInOrder(items: seq<JsonValue>, depth: nat, loads: string -> Loaded)
    requires Shrinks(loads)
    ensures BuildItems(items, depth, loads).Ok? <==> forall i :: 0 <= i < |items| ==> BuildRec(items[i], depth, loads).Ok?
    ensures BuildItems(items, depth, loads).Ok? ==>
      var parts := BuildItems(items, depth, loads).value;
      |parts| == |items| &&
      forall i :: 0 <= i < |items| ==> parts[i] == BuildRec(items[i], depth, loads).value
    decreases |items|
  {
    if items != [] {
      ItemsInOrder(items[1..], depth, loads);
      assert forall i :: 1 <= i < |items| ==> items[i] == items[1..][i - 1];
    }
  }

  /** No value, booleans included, is ever given the `(true|false)` fragment. */
  lemma {:induction false} BoolPatternUnreachable(v: JsonValue, depth: nat, loads: string -> Loaded)
    requires Shrinks(loads)
    ensures BuildRec(v, depth, loads).Ok? ==> BuildRec(v, depth, loads).value != BoolPattern
    ensures v.Bool? && depth <= MaxDepth ==> BuildRec(v, depth, loads) == Ok(NumberPattern)
    decreases Weight(v)
  {
    if depth <= MaxDepth {
      match v
      case Str(s) =>
        if loads(s).Parsed? { BoolPatternUnreachable(loads(s).value, depth, loads); }
      case Object(ms) =>
        var r := BuildRec(v, depth, loads);
        if r.Ok? { assert r.value[0] == '\\' != BoolPattern[0]; }
      case Array(items) =>
        var r := BuildRec(v, depth, loads);
        if r.Ok? { assert r.value[0] == '\\' != BoolPattern[0]; }
      case _ =>
    }
  }

  /** The outcome of the string branch's `try` when the module name `json`
      is rebound to the entry point: `json.loads` is an attribute lookup on
      a function and raises AttributeError; matching that exception against
      `json.JSONDecodeError` looks up another missing attribute, and that
      second AttributeError is the one that escapes. */
  function ShadowedLoads(s: string): Loaded
  {
    Raised(AttributeError("'function' object has no attribute 'JSONDecodeError'"))
  }

  /** The entry point as written: it fails on every text, with the
      AttributeError and never with a pattern. */
  lemma JsonAsWrittenAlwaysFails(text: string, compiles: string -> bool)
    ensures Shrinks(ShadowedLoads)
    ensures Json(text, ShadowedLoads, compiles) == Err(AttributeError("'function' object has no attribute 'JSONDecodeError'"))
  {
    assert BuildRec(Str(text), 0, ShadowedLoads) == Err(ShadowedLoads(text).error);
  }

  /** With a parser that works, text that is not JSON gets the quoted-string
      pattern, JSON text gets the anchored pattern of the value it denotes,
      and any other exception of the parser escapes. */
  lemma JsonOfText(text: string, loads: string -> Loaded, compiles: string -> bool)
    requires Shrinks(loads)
    ensures loads(text).DecodeError? ==>
      Json(text, loads, compiles) == (if compiles("^" + StringPattern + "$") then Ok("^" + StringPattern + "$") else Err(RegexError))
    ensures loads(text).Parsed? ==>
      (Json(text, loads, compiles).Ok? <==>
         BuildRec(loads(text).value, 0, loads).Ok? && compiles("^" + BuildRec(loads(text).value, 0, loads).value + "$"))
    ensures loads(text).Parsed? && Json(text, loads, compiles).Ok? ==>
      Json(text, loads, compiles).value == "^" + BuildRec(loads(text).value, 0, loads).value + "$"
    ensures loads(text).Raised? ==> Json(text, loads, compiles) == Err(loads(text).error)
  {
  }

  /** An empty array matches only brackets around optional whitespace. */
  lemma EmptyArray(depth: nat, loads: string -> Loaded)
    requires Shrinks(loads)
    requires depth <= MaxDepth
    ensures BuildRec(Array([]), depth, loads) == Ok("\\[\\s*()?\\s*\\]")
  {
    assert BuildItems([], depth + 1, loads) == Ok([]);
    assert Join(Separator, []) == [];
    assert ArrayPattern([]) == "\\[\\s*()?\\s*\\]";
  }
}
