/** The fixed schema of the APPLY options: the legal names at each level,
    the closed enumerations and the text of every diagnostic. */
module Schema {
  import opened JsonValue
  import opened Text

  /** The 23 legal top-level attributes. */
  const PossibleOptions: seq<string> :=
    ["apars", "assem", "bypass", "check", "compress", "exclude", "exsrcid", "fixcat", "forfmid",
     "functions", "group", "groupextend", "jclinreport", "nojclin", "ptfs", "redo", "retry", "reuse",
     "select", "sourceid", "usermods", "xzgroup", "xzreq"]

  /** The twelve top-level attributes that must be booleans. */
  const BooleanOptions: seq<string> :=
    ["apars", "assem", "check", "functions", "group", "jclinreport", "ptfs", "redo", "retry",
     "reuse", "usermods", "xzreq"]

  /** The eight top-level attributes that must be lists of strings. */
  const StringListOptions: seq<string> :=
    ["exclude", "exsrcid", "fixcat", "forfmid", "nojclin", "select", "sourceid", "xzgroup"]

  const GroupExtendValues: seq<string> := ["NOAPARS", "NOUSERMODS"]

  const PossibleBypassOptions: seq<string> :=
    ["holdclass", "holderror", "holdfixcat", "holdsystem", "holduser", "id", "ifreq", "pre", "req", "xzifreq"]

  const BypassBooleanOptions: seq<string> := ["id", "ifreq", "pre", "req"]

  const BypassListOptions: seq<string> := ["holdclass", "holderror", "holdfixcat", "holduser", "xzifreq"]

  const PossibleSystemReasonIds: seq<string> :=
    ["action", "ao", "db2bind", "dddef", "delete", "dep", "doc", "downld", "dynact", "ec", "enh",
     "exit", "exrf", "fullgen", "iogen", "ipl", "msgskel", "multsys", "restart"]

  const PossibleClassNames: seq<string> := ["ERREL", "HIPER", "PE", "UCLREL", "YR2000"]

  /** The 23 legal names are exactly the boolean names, the string-list
      names, GROUPEXTEND, COMPRESS and BYPASS. */
  lemma LegalNamesPartition(attr: string)
    ensures attr in PossibleOptions
        <==> attr in BooleanOptions || attr in StringListOptions
             || attr == "groupextend" || attr == "compress" || attr == "bypass"
  {
  }

  /** No name has two kinds. */
  lemma NameListsDisjoint(attr: string)
    ensures !(attr in BooleanOptions && attr in StringListOptions)
    ensures attr == "groupextend" || attr == "compress" || attr == "bypass"
        ==> attr !in BooleanOptions && attr !in StringListOptions
  {
  }

  /** The shape each legal BYPASS option must have. */
  datatype BypassKind = BypassBoolean | BypassList | BypassHoldSystem

  function BypassKindOf(key: string): Option<BypassKind> {
    if key in BypassBooleanOptions then Some(BypassBoolean)
    else if key in BypassListOptions then Some(BypassList)
    else if key == "holdsystem" then Some(BypassHoldSystem)
    else None
  }

  lemma BypassKindOfAgreesWithLists(key: string)
    ensures BypassKindOf(key).Some? <==> key in PossibleBypassOptions
    ensures BypassKindOf(key) == Some(BypassBoolean) <==> key in BypassBooleanOptions
    ensures BypassKindOf(key) == Some(BypassList) <==> key in BypassListOptions
    ensures BypassKindOf(key) == Some(BypassHoldSystem) <==> key == "holdsystem"
  {
  }

  /** One message of the filter, by category; Message gives its text. */
  datatype Diagnostic =
    | NotPossibleAttribute(attr: string)
    | MustBeBoolean(attr: string)
    | GroupExtendInvalid(attr: string)
    | CompressInvalid(attr: string)
    | BypassNotDictionary(attr: string)
    | ListNotStrings(attr: string)
    | NotPossibleBypassAttribute(key: string)
    | BypassMustBeBoolean(key: string)
    | BypassMustBeList(key: string)
    | BypassMustBeDictionary(key: string)
    | HoldClassNotStrings
    | UnknownClass(name: string)
    | UnknownSystemReason(reasonId: string)
    | SystemReasonNotList(reasonId: string)
    | BypassListNotStrings(key: string)
    | GroupExclusive
    | XzGroupEmpty

  /** The text the filter appends for each diagnostic. */
  function Message(d: Diagnostic): string {
    match d
    case NotPossibleAttribute(attr) =>
      "Attribute '" + attr + "' is not a possible attribute for the APPLY processing."
    case MustBeBoolean(attr) =>
      "Attribute '" + attr + "' must be a boolean."
    case GroupExtendInvalid(attr) =>
      "Attribute '" + attr + "' must be a list, empty or containing one or both values: 'NOAPARS', 'NOUSERMODS'."
    case CompressInvalid(attr) =>
      "Attribute '" + attr + "' must be either the string 'ALL' or a list, empty or containing strings."
    case BypassNotDictionary(attr) =>
      "Attribute '" + attr + "' must be a dictionary, empty or with multiple attributes."
    case ListNotStrings(attr) =>
      "Attribute '" + attr + "' must be a list, empty or containing strings."
    case NotPossibleBypassAttribute(key) =>
      "Attribute '" + key + "' is not a possible attribute for the BYPASS attribute."
    case BypassMustBeBoolean(key) =>
      "BYPASS option '" + key + "' must be a boolean."
    case BypassMustBeList(key) =>
      "BYPASS option '" + key + "' must be a list."
    case BypassMustBeDictionary(key) =>
      "BYPASS option '" + key + "' must be a dictionary."
    case HoldClassNotStrings =>
      "BYPASS HOLDCLASS must be a list of strings."
    case UnknownClass(name) =>
      "BYPASS HOLDCLASS informed class '" + name + "' is not one of the possible names: "
      + Join(PossibleClassNames, ", ") + "."
    case UnknownSystemReason(reasonId) =>
      "BYPASS HOLDSYSTEM informed system reason ID '" + reasonId + "' is not one of the possible names: "
      + Join(PossibleSystemReasonIds, ", ") + "."
    case SystemReasonNotList(reasonId) =>
      "BYPASS HOLDSYSTEM informed system reason ID '" + reasonId + "' must be a list, empty or not."
    case BypassListNotStrings(key) =>
      "BYPASS attribute '" + key + "' must be a list, empty or containing strings."
    case GroupExclusive =>
      "Attribute 'group' and 'groupextend' are mutually exclusive if 'group' is true."
    case XzGroupEmpty =>
      "If the XZREQ operand is specified, the XZGROUP operand may not be specified as a null list."
  }

  function Messages(ds: seq<Diagnostic>): (texts: seq<string>)
    ensures |texts| == |ds|
    ensures forall i :: 0 <= i < |ds| ==> texts[i] == Message(ds[i])
  {
    seq(|ds|, i requires 0 <= i < |ds| => Message(ds[i]))
  }

  const ErrorPrefix: string := "isValidContent - "

  const NotADictionaryText: string := "isValidContent - Filter must be applied on a dictionary."
}
