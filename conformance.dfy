/** The schema the filter enforces, stated declaratively, independently of
    how the messages are collected: a dictionary passes the filter exactly
    when it conforms. */
module Conformance {
  import opened JsonValue
  import opened Text
  import opened Schema
  import opened ContentSpec
  import opened ContentProperties

  predicate SystemReasonConforms(reasonId: string, v: Value) {
    reasonId in PossibleSystemReasonIds && v.List? && AllStrings(v.items)
  }

  predicate BypassOptionConforms(key: string, v: Value) {
    && key in PossibleBypassOptions
    && (key in BypassBooleanOptions ==> IsBoolLike(v))
    && (key in BypassListOptions ==> v.List? && AllStrings(v.items))
    && (key == "holdclass" ==>
          forall i :: 0 <= i < |v.items| ==> Upper(v.items[i].text) in PossibleClassNames)
    && (key == "holdsystem" ==>
          v.Dict? && forall i :: 0 <= i < |v.entries| ==> SystemReasonConforms(v.entries[i].0, v.entries[i].1))
  }

  predicate AttributeConforms(attr: string, v: Value) {
    && attr in PossibleOptions
    && (attr in BooleanOptions ==> IsBoolLike(v))
    && (attr in StringListOptions ==> v.List? && AllStrings(v.items))
    && (attr == "groupextend" ==>
          v.List? && forall i :: 0 <= i < |v.items| ==> IsGroupExtendToken(v.items[i]))
    && (attr == "compress" ==> (v.List? && AllStrings(v.items)) || IsAllLiteral(v))
    && (attr == "bypass" ==>
          v.Dict? && forall i :: 0 <= i < |v.entries| ==> BypassOptionConforms(v.entries[i].0, v.entries[i].1))
  }

  /** Every attribute has a legal name and shape, and neither cross-field
      rule is broken. */
  predicate Conforms(entries: seq<(string, Value)>) {
    && (forall i :: 0 <= i < |entries| ==> AttributeConforms(entries[i].0, entries[i].1))
    && !GroupConflict(entries)
    && !XzGroupConflict(entries)
  }

  lemma BypassOptionAcceptedIffConforms(key: string, v: Value)
    ensures BypassOptionDiagnostics(key, v) == [] <==> BypassOptionConforms(key, v)
  {
    BypassKindOfAgreesWithLists(key);
    if key == "holdclass" && v.List? {
      HoldClassEmpty(v.items);
      if HoldClassDiagnostics(v.items) == [] {
        assert AllStrings(v.items);
      }
    }
    if key == "holdsystem" && v.Dict? {
      FlatMapEmpty(v.entries, SystemReasonEntryDiagnostics);
    }
  }

  lemma AttributeAcceptedIffConforms(attr: string, v: Value)
    ensures AttributeDiagnostics(attr, v) == [] <==> AttributeConforms(attr, v)
  {
    LegalNamesPartition(attr);
    NameListsDisjoint(attr);
    if attr == "groupextend" && v.List? {
      if forall i :: 0 <= i < |v.items| ==> IsGroupExtendToken(v.items[i]) {
        assert AllStrings(v.items);
      }
    }
    if attr == "bypass" && v.Dict? {
      FlatMapEmpty(v.entries, BypassEntryDiagnostics);
      forall i | 0 <= i < |v.entries|
        ensures BypassOptionDiagnostics(v.entries[i].0, v.entries[i].1) == []
            <==> BypassOptionConforms(v.entries[i].0, v.entries[i].1)
      {
        BypassOptionAcceptedIffConforms(v.entries[i].0, v.entries[i].1);
      }
    }
  }

  /** The filter returns True exactly for the dictionaries that conform to
      the schema. */
  lemma ValidIffConforms(entries: seq<(string, Value)>)
    ensures Validate(Dict(entries)) == Valid <==> Conforms(entries)
  {
    FlatMapEmpty(entries, AttributeEntryDiagnostics);
    forall i | 0 <= i < |entries|
      ensures AttributeDiagnostics(entries[i].0, entries[i].1) == [] <==> AttributeConforms(entries[i].0, entries[i].1)
    {
      AttributeAcceptedIffConforms(entries[i].0, entries[i].1);
    }
  }
}
