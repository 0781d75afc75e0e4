/** The `FileType` enumeration: the format label the sniffer returns and the
    regex dispatch switches on. */
module FileTypes {
  import opened PyStr

  datatype FileType = JSON | XML | CSV | HTML | UNSUPPORTED

  /** Every member, in declaration order. */
  const Members: seq<FileType> := [JSON, XML, CSV, HTML, UNSUPPORTED]

  /** The member's `.value`. */
  function Value(f: FileType): (v: nat)
    ensures v < |Members| && Members[v] == f
  {
    match f
    case JSON => 0
    case XML => 1
    case CSV => 2
    case HTML => 3
    case UNSUPPORTED => 4
  }

  /** `FileType(v)`: the lookup by value; `None` stands for the ValueError it raises. */
  function FromValue(v: int): (r: Option<FileType>)
    ensures r.Some? <==> 0 <= v < 5
    ensures r.Some? ==> Value(r.value) == v
  {
    if 0 <= v < |Members| then Some(Members[v]) else None
  }

  /** The member's `.name`. */
  function Name(f: FileType): (n: string)
    ensures n != []
  {
    match f
    case JSON => "JSON"
    case XML => "XML"
    case CSV => "CSV"
    case HTML => "HTML"
    case UNSUPPORTED => "UNSUPPORTED"
  }

  /** `str(member)`, as an f-string shows it: the class name, a dot, the name. */
  function Display(f: FileType): (s: string)
    ensures |s| > |"FileType."| && s[..|"FileType."|] == "FileType."
    ensures s[|"FileType."|..] == Name(f)
  {
    "FileType." + Name(f)
  }

  /** `FileType[name]`: the lookup by name; unknown names raise KeyError. */
  function FromName(name: string): (r: Result<FileType>)
    ensures r.Err? ==> r.error == KeyError(name)
    ensures r.Ok? ==> Name(r.value) == name
  {
    if name == "JSON" then Ok(JSON)
    else if name == "XML" then Ok(XML)
    else if name == "CSV" then Ok(CSV)
    else if name == "HTML" then Ok(HTML)
    else if name == "UNSUPPORTED" then Ok(UNSUPPORTED)
    else Err(KeyError(name))
  }

  /** The formats the regex dispatch has a builder for, in the order it tests them. */
  predicate IsSupported(f: FileType)
  {
    f in [JSON, XML, HTML, CSV]
  }

  /** There are exactly five members and `Members` lists each once. */
  lemma MembersAreAll(f: FileType)
    ensures f in Members
    ensures |Members| == 5
    ensures forall i, j :: 0 <= i < j < |Members| ==> Members[i] != Members[j]
  {
  }

  /** Values are pairwise distinct, so lookup by value inverts `.value`
      and is a bijection between the members and 0..4. */
  lemma ValueRoundTrip(f: FileType, v: int)
    ensures FromValue(Value(f)) == Some(f)
    ensures FromValue(v).Some? ==> FromValue(v).value == Members[v]
    ensures forall g: FileType :: Value(g) == Value(f) ==> g == f
  {
  }

  /** `FileType[f.name] is f` and the name lookup succeeds on exactly the five names. */
  lemma NameRoundTrip(f: FileType, name: string)
    ensures FromName(Name(f)) == Ok(f)
    ensures FromName(name).Ok? <==> exists g: FileType :: Name(g) == name
  {
    forall g: FileType ensures FromName(Name(g)) == Ok(g) {
      match g { case _ => }
    }
  }

  /** The supported formats are the four members other than UNSUPPORTED. */
  lemma SupportedIffNotUnsupported(f: FileType)
    ensures IsSupported(f) <==> f != UNSUPPORTED
    ensures IsSupported(f) <==> Value(f) < 4
  {
  }
}
