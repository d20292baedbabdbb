/** The isValidContent filter as the source runs it: a scan of the keys that
    appends to a local list of messages, with the same `break` and
    `continue` decisions, followed by the cross-field rules and the final
    length test. Each method is proved to compute its ContentSpec function. */
module Validator {
  import opened JsonValue
  import opened Text
  import opened Schema
  import opened ContentSpec

  method IsValidContent(inputContent: Value) returns (outcome: Outcome)
    ensures outcome == Validate(inputContent)
    ensures outcome == NotADict <==> !inputContent.Dict?
    ensures outcome.Invalid? ==> outcome.diagnostics != []
  {
    if !inputContent.Dict? {
      return NotADict;
    }
    var entries := inputContent.entries;
    var errorMsgs: seq<Diagnostic> := [];
    for n := 0 to |entries|
      invariant errorMsgs + AttributesDiagnostics(entries[n..]) == AttributesDiagnostics(entries)
    {
      assert entries[n..][0] == entries[n] && entries[n..][1..] == entries[n + 1..];
      var (attr, value) := entries[n];
      var msgs := CheckAttribute(attr, value);
      errorMsgs := errorMsgs + msgs;
    }
    assert errorMsgs == AttributesDiagnostics(entries);
    var crossField := CheckCrossFields(entries);
    errorMsgs := errorMsgs + crossField;
    assert errorMsgs == Diagnostics(entries);
    if |errorMsgs| > 0 {
      return Invalid(errorMsgs);
    }
    return Valid;
  }

  /** The two cross-field rules, checked after the key loop whatever it
      reported. */
  method CheckCrossFields(entries: seq<(string, Value)>) returns (msgs: seq<Diagnostic>)
    ensures msgs == CrossFieldDiagnostics(entries)
  {
    msgs := [];
    if HasKey(entries, "groupextend") && HasKey(entries, "group") && EqualsTrue(Lookup(entries, "group").value) {
      msgs := msgs + [GroupExclusive];
    }
    if HasKey(entries, "xzreq") && HasKey(entries, "xzgroup") && EqualsTrue(Lookup(entries, "xzreq").value)
       && Lookup(entries, "xzgroup").value == List([])
    {
      msgs := msgs + [XzGroupEmpty];
    }
  }

  /** One pass of the key loop; `return` stands for the source's `continue`. */
  method CheckAttribute(attr: string, value: Value) returns (msgs: seq<Diagnostic>)
    ensures msgs == AttributeDiagnostics(attr, value)
  {
    msgs := [];
    if attr !in PossibleOptions {
      return [NotPossibleAttribute(attr)];
    }
    if attr in BooleanOptions {
      if !IsBoolLike(value) {
        return [MustBeBoolean(attr)];
      }
    } else if attr == "groupextend" {
      if !value.List? {
        return [GroupExtendInvalid(attr)];
      }
      msgs := CheckGroupExtend(attr, value.items);
    } else if attr == "compress" && !value.List? && !IsAllLiteral(value) {
      return [CompressInvalid(attr)];
    } else if attr == "bypass" {
      if !value.Dict? {
        return [BypassNotDictionary(attr)];
      }
      msgs := CheckBypass(value.entries);
    } else if attr in StringListOptions && !value.List? {
      return [ListNotStrings(attr)];
    }
    if value.List? {
      var more := ReportEachNonString(value.items, ListNotStrings(attr));
      msgs := msgs + more;
    }
  }

  /** The GROUPEXTEND element loop: it stops at the first bad element. */
  method CheckGroupExtend(attr: string, items: seq<Value>) returns (msgs: seq<Diagnostic>)
    ensures msgs == GroupExtendDiagnostics(attr, items)
  {
    msgs := [];
    for i := 0 to |items|
      invariant msgs == []
      invariant forall j :: 0 <= j < i ==> IsGroupExtendToken(items[j])
    {
      var elem := items[i];
      if !elem.Str? {
        msgs := [GroupExtendInvalid(attr)];
        break;
      } else if Strip(Upper(elem.text)) !in GroupExtendValues {
        msgs := [GroupExtendInvalid(attr)];
        break;
      }
    }
  }

  /** An element loop that reports every non-string element. */
  method ReportEachNonString(items: seq<Value>, msg: Diagnostic) returns (msgs: seq<Diagnostic>)
    ensures msgs == EachNonString(items, msg)
  {
    msgs := [];
    for i := 0 to |items|
      invariant msgs == Repeat(msg, NonStringCount(items[..i]))
    {
      assert items[..i + 1][..i] == items[..i];
      if !items[i].Str? {
        msgs := msgs + [msg];
        continue;
      }
    }
    assert items[..|items|] == items;
  }

  /** An element loop that reports the first non-string element and stops. */
  method ReportFirstNonString(items: seq<Value>, msg: Diagnostic) returns (msgs: seq<Diagnostic>)
    ensures msgs == FirstNonString(items, msg)
  {
    msgs := [];
    for i := 0 to |items|
      invariant msgs == []
      invariant forall j :: 0 <= j < i ==> items[j].Str?
    {
      if !items[i].Str? {
        msgs := [msg];
        break;
      }
    }
  }

  /** The loop over the BYPASS keys. */
  method CheckBypass(entries: seq<(string, Value)>) returns (msgs: seq<Diagnostic>)
    ensures msgs == BypassDiagnostics(entries)
  {
    msgs := [];
    for n := 0 to |entries|
      invariant msgs + BypassDiagnostics(entries[n..]) == BypassDiagnostics(entries)
    {
      assert entries[n..] == [entries[n]] + entries[n + 1..];
      var (key, value) := entries[n];
      var more := CheckBypassOption(key, value);
      msgs := msgs + more;
    }
  }

  /** One pass of the BYPASS key loop; `return` stands for `continue`. */
  method CheckBypassOption(key: string, value: Value) returns (msgs: seq<Diagnostic>)
    ensures msgs == BypassOptionDiagnostics(key, value)
  {
    msgs := [];
    if key !in PossibleBypassOptions {
      return [NotPossibleBypassAttribute(key)];
    } else if key in BypassBooleanOptions && !IsBoolLike(value) {
      return [BypassMustBeBoolean(key)];
    } else if key in BypassListOptions && !value.List? {
      return [BypassMustBeList(key)];
    } else if key == "holdsystem" && !value.Dict? {
      return [BypassMustBeDictionary(key)];
    }
    if key == "holdclass" {
      msgs := CheckHoldClass(value.items);
    } else if key == "holdsystem" {
      msgs := CheckHoldSystem(value.entries);
    }
    if value.List? {
      var more := ReportFirstNonString(value.items, BypassListNotStrings(key));
      msgs := msgs + more;
    }
  }

  /** The HOLDCLASS element loop. */
  method CheckHoldClass(items: seq<Value>) returns (msgs: seq<Diagnostic>)
    ensures msgs == HoldClassDiagnostics(items)
  {
    msgs := [];
    for i := 0 to |items|
      invariant msgs + HoldClassDiagnostics(items[i..]) == HoldClassDiagnostics(items)
    {
      assert items[i..][1..] == items[i + 1..];
      var elem := items[i];
      if !elem.Str? {
        msgs := msgs + [HoldClassNotStrings];
        break;
      } else if Upper(elem.text) !in PossibleClassNames {
        msgs := msgs + [UnknownClass(Upper(elem.text))];
        continue;
      }
    }
  }

  /** The loop over the HOLDSYSTEM reason IDs. */
  method CheckHoldSystem(entries: seq<(string, Value)>) returns (msgs: seq<Diagnostic>)
    ensures msgs == HoldSystemDiagnostics(entries)
  {
    msgs := [];
    for n := 0 to |entries|
      invariant msgs + HoldSystemDiagnostics(entries[n..]) == HoldSystemDiagnostics(entries)
    {
      assert entries[n..][0] == entries[n] && entries[n..][1..] == entries[n + 1..];
      var (reasonId, value) := entries[n];
      var more := CheckSystemReason(reasonId, value);
      msgs := msgs + more;
    }
  }

  /** One pass of the HOLDSYSTEM loop; `return` stands for `continue`. */
  method CheckSystemReason(reasonId: string, value: Value) returns (msgs: seq<Diagnostic>)
    ensures msgs == SystemReasonDiagnostics(reasonId, value)
  {
    if reasonId !in PossibleSystemReasonIds {
      return [UnknownSystemReason(reasonId)];
    } else if !value.List? {
      return [SystemReasonNotList(reasonId)];
    } else {
      msgs := ReportFirstNonString(value.items, SystemReasonNotList(reasonId));
    }
  }
}
