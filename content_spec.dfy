/** What the isValidContent filter computes, stated as functions: the
    diagnostics each attribute contributes, in key-iteration order, the two
    cross-field rules and the outcome. The imperative filter in module
    Validator is proved to compute exactly this. */
module ContentSpec {
  import opened JsonValue
  import opened Text
  import opened Schema

  /** The filter either raises on a non-dictionary, returns True, or raises
      with the collected diagnostics. */
  datatype Outcome = NotADict | Valid | Invalid(diagnostics: seq<Diagnostic>)

  predicate AllStrings(items: seq<Value>) {
    forall i :: 0 <= i < |items| ==> items[i].Str?
  }

  /** The number of elements that are not strings. */
  function NonStringCount(items: seq<Value>): (n: nat)
    ensures n <= |items|
    ensures n == 0 <==> AllStrings(items)
  {
    if items == [] then 0
    else
      var init := items[..|items| - 1];
      var n := NonStringCount(init) + (if items[|items| - 1].Str? then 0 else 1);
      assert AllStrings(items) ==> AllStrings(init) by {
        if AllStrings(items) {
          forall i | 0 <= i < |init| ensures init[i].Str? { assert init[i] == items[i]; }
        }
      }
      assert AllStrings(init) && items[|items| - 1].Str? ==> AllStrings(items) by {
        if AllStrings(init) && items[|items| - 1].Str? {
          forall i | 0 <= i < |items| ensures items[i].Str? {
            if i < |items| - 1 { assert items[i] == init[i]; }
          }
        }
      }
      n
  }

  function Repeat(msg: Diagnostic, n: nat): seq<Diagnostic> {
    seq(n, _ => msg)
  }

  /** A scan that reports every non-string element and carries on. */
  function EachNonString(items: seq<Value>, msg: Diagnostic): seq<Diagnostic> {
    Repeat(msg, NonStringCount(items))
  }

  /** A scan that reports the first non-string element and stops. */
  function FirstNonString(items: seq<Value>, msg: Diagnostic): seq<Diagnostic> {
    if AllStrings(items) then [] else [msg]
  }

  /** A GROUPEXTEND element: a string whose upper-cased, stripped form is one
      of the two tokens. */
  predicate IsGroupExtendToken(v: Value) {
    v.Str? && Strip(Upper(v.text)) in GroupExtendValues
  }

  /** The GROUPEXTEND scan stops at its first bad element. */
  function GroupExtendDiagnostics(attr: string, items: seq<Value>): seq<Diagnostic> {
    if forall i :: 0 <= i < |items| ==> IsGroupExtendToken(items[i]) then []
    else [GroupExtendInvalid(attr)]
  }

  /** A COMPRESS value that is not a list passes only as the word ALL, in any
      case and surrounded by any whitespace. */
  predicate IsAllLiteral(v: Value) {
    v.Str? && Strip(Upper(v.text)) == "ALL"
  }

  function FlatMap<T>(xs: seq<T>, f: T -> seq<Diagnostic>): seq<Diagnostic> {
    if xs == [] then [] else f(xs[0]) + FlatMap(xs[1..], f)
  }

  /** The messages one top-level attribute contributes: the chain of
      checks of the key loop, ending in the generic list-element check that
      every key reaching it goes through. */
  function AttributeDiagnostics(attr: string, v: Value): seq<Diagnostic> {
    if attr !in PossibleOptions then [NotPossibleAttribute(attr)]
    else if attr in BooleanOptions then
      if IsBoolLike(v) then [] else [MustBeBoolean(attr)]
    else if attr == "groupextend" then
      if v.List? then GroupExtendDiagnostics(attr, v.items) + EachNonString(v.items, ListNotStrings(attr))
      else [GroupExtendInvalid(attr)]
    else if attr == "compress" && !v.List? && !IsAllLiteral(v) then [CompressInvalid(attr)]
    else if attr == "bypass" then
      if v.Dict? then BypassDiagnostics(v.entries) else [BypassNotDictionary(attr)]
    else if attr in StringListOptions && !v.List? then [ListNotStrings(attr)]
    else if v.List? then EachNonString(v.items, ListNotStrings(attr))
    else []
  }

  function AttributeEntryDiagnostics(entry: (string, Value)): seq<Diagnostic> {
    AttributeDiagnostics(entry.0, entry.1)
  }

  /** All per-attribute messages, in key-iteration order. */
  function AttributesDiagnostics(entries: seq<(string, Value)>): seq<Diagnostic> {
    FlatMap(entries, AttributeEntryDiagnostics)
  }

  /** The messages one BYPASS option contributes. */
  function BypassOptionDiagnostics(key: string, v: Value): seq<Diagnostic> {
    match BypassKindOf(key)
    case None => [NotPossibleBypassAttribute(key)]
    case Some(BypassBoolean) =>
      if IsBoolLike(v) then [] else [BypassMustBeBoolean(key)]
    case Some(BypassList) =>
      if !v.List? then [BypassMustBeList(key)]
      else
        (if key == "holdclass" then HoldClassDiagnostics(v.items) else [])
        + FirstNonString(v.items, BypassListNotStrings(key))
    case Some(BypassHoldSystem) =>
      if v.Dict? then HoldSystemDiagnostics(v.entries) else [BypassMustBeDictionary(key)]
  }

  function BypassEntryDiagnostics(entry: (string, Value)): seq<Diagnostic> {
    BypassOptionDiagnostics(entry.0, entry.1)
  }

  function BypassDiagnostics(entries: seq<(string, Value)>): seq<Diagnostic> {
    FlatMap(entries, BypassEntryDiagnostics)
  }

  /** HOLDCLASS: one message per string whose upper-case form is not a class
      name, until the first non-string element, which ends the scan. */
  function HoldClassDiagnostics(items: seq<Value>): seq<Diagnostic> {
    if items == [] then []
    else if !items[0].Str? then [HoldClassNotStrings]
    else
      (if Upper(items[0].text) in PossibleClassNames then [] else [UnknownClass(Upper(items[0].text))])
      + HoldClassDiagnostics(items[1..])
  }

  /** The messages one HOLDSYSTEM reason ID contributes. */
  function SystemReasonDiagnostics(reasonId: string, v: Value): seq<Diagnostic> {
    if reasonId !in PossibleSystemReasonIds then [UnknownSystemReason(reasonId)]
    else if !v.List? then [SystemReasonNotList(reasonId)]
    else FirstNonString(v.items, SystemReasonNotList(reasonId))
  }

  function SystemReasonEntryDiagnostics(entry: (string, Value)): seq<Diagnostic> {
    SystemReasonDiagnostics(entry.0, entry.1)
  }

  function HoldSystemDiagnostics(entries: seq<(string, Value)>): seq<Diagnostic> {
    FlatMap(entries, SystemReasonEntryDiagnostics)
  }

  /** GROUP that equals True excludes GROUPEXTEND. */
  predicate GroupConflict(entries: seq<(string, Value)>) {
    HasKey(entries, "groupextend") && HasKey(entries, "group")
    && EqualsTrue(Lookup(entries, "group").value)
  }

  /** XZREQ that equals True excludes an empty XZGROUP list. */
  predicate XzGroupConflict(entries: seq<(string, Value)>) {
    HasKey(entries, "xzreq") && HasKey(entries, "xzgroup")
    && EqualsTrue(Lookup(entries, "xzreq").value) && Lookup(entries, "xzgroup").value == List([])
  }

  function CrossFieldDiagnostics(entries: seq<(string, Value)>): seq<Diagnostic> {
    (if GroupConflict(entries) then [GroupExclusive] else [])
    + (if XzGroupConflict(entries) then [XzGroupEmpty] else [])
  }

  /** Every message the filter collects for a dictionary, in order. */
  function Diagnostics(entries: seq<(string, Value)>): seq<Diagnostic> {
    AttributesDiagnostics(entries) + CrossFieldDiagnostics(entries)
  }

  function Validate(input: Value): Outcome {
    if !input.Dict? then NotADict
    else
      var d := Diagnostics(input.entries);
      if d == [] then Valid else Invalid(d)
  }

  /** The text of the error the filter raises. */
  function ErrorText(outcome: Outcome): string
    requires !outcome.Valid?
  {
    match outcome
    case NotADict => NotADictionaryText
    case Invalid(d) => ErrorPrefix + Join(Messages(d), "\n")
  }
}
