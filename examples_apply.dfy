/** Concrete APPLY option dictionaries and what the filter does with them. */
module ApplyExamples {
  import opened JsonValue
  import opened Text
  import opened Schema
  import opened ContentSpec
  import opened ContentProperties

  /** With a single key neither cross-field rule can apply, so the outcome
      is decided by that key's own messages. */
  lemma SingleKeyOutcome(attr: string, v: Value)
    ensures Diagnostics([(attr, v)]) == AttributeDiagnostics(attr, v)
  {
    var e := [(attr, v)];
    assert e[1..] == [];
    assert FlatMap(e[1..], AttributeEntryDiagnostics) == [];
    assert AttributesDiagnostics(e) == AttributeEntryDiagnostics(e[0]) + [];
  }

  /** Two keys: the messages of the first, then those of the second, then
      the cross-field messages. */
  lemma TwoKeyDiagnostics(e: seq<(string, Value)>)
    requires |e| == 2
    ensures Diagnostics(e)
         == AttributeDiagnostics(e[0].0, e[0].1) + AttributeDiagnostics(e[1].0, e[1].1) + CrossFieldDiagnostics(e)
  {
    assert e[1..][0] == e[1] && e[1..][1..] == [];
    assert FlatMap(e[1..][1..], AttributeEntryDiagnostics) == [];
    assert FlatMap(e[1..], AttributeEntryDiagnostics) == AttributeEntryDiagnostics(e[1]) + [];
    assert AttributesDiagnostics(e) == AttributeEntryDiagnostics(e[0]) + AttributeEntryDiagnostics(e[1]);
  }

  /** A BYPASS dictionary with one option contributes that option's
      messages. */
  lemma SingleBypassOption(key: string, v: Value)
    ensures AttributeDiagnostics("bypass", Dict([(key, v)])) == BypassOptionDiagnostics(key, v)
  {
    var e := [(key, v)];
    assert "bypass" in PossibleOptions && "bypass" !in BooleanOptions;
    assert e[1..] == [];
    assert FlatMap(e[1..], BypassEntryDiagnostics) == [];
    assert BypassDiagnostics(e) == BypassEntryDiagnostics(e[0]) + [];
  }

  lemma EmptyOptionsAreValid()
    ensures Validate(Dict([])) == Valid
  {
  }

  /** Only dictionaries are accepted at all. */
  lemma ListInputIsFatal()
    ensures Validate(List([Str("apars")])) == NotADict
  {
  }

  /** Attribute names are case-sensitive. */
  lemma UpperCaseNameIsUnknown()
    ensures Validate(Dict([("APARS", Bool(true))])) == Invalid([NotPossibleAttribute("APARS")])
  {
    assert "APARS" !in PossibleOptions;
    SingleKeyOutcome("APARS", Bool(true));
  }

  /** Boolean attributes accept 0 and 1 and refuse strings and other
      integers. */
  lemma BooleanAttributeValues()
    ensures Validate(Dict([("check", Int(1))])) == Valid
    ensures Validate(Dict([("check", Str("yes"))])) == Invalid([MustBeBoolean("check")])
    ensures Validate(Dict([("check", Int(2))])) == Invalid([MustBeBoolean("check")])
  {
    assert "check" in BooleanOptions;
    SingleKeyOutcome("check", Int(1));
    SingleKeyOutcome("check", Str("yes"));
    SingleKeyOutcome("check", Int(2));
  }

  /** Tokens are compared after upper-casing and stripping. */
  lemma PaddedLowerCaseToken()
    ensures IsGroupExtendToken(Str(" noapars "))
  {
    assert Upper(" noapars ") == " NOAPARS ";
    assert SkipSpace(" NOAPARS ", 0) == 1;
    assert SkipSpaceBack(" NOAPARS ", 1, 9) == 8;
    assert Strip(" NOAPARS ") == "NOAPARS";
  }

  lemma ExactToken()
    ensures IsGroupExtendToken(Str("NOUSERMODS"))
  {
    assert Upper("NOUSERMODS") == "NOUSERMODS";
    assert SkipSpace("NOUSERMODS", 0) == 0;
    assert SkipSpaceBack("NOUSERMODS", 0, 10) == 10;
    assert "NOUSERMODS"[0..10] == "NOUSERMODS";
  }

  lemma OtherWordIsNoToken()
    ensures !IsGroupExtendToken(Str("BOGUS"))
  {
    assert Upper("BOGUS") == "BOGUS";
    assert SkipSpace("BOGUS", 0) == 0;
    assert SkipSpaceBack("BOGUS", 0, 5) == 5;
  }

  lemma GroupExtendAcceptsTokens()
    ensures Validate(Dict([("groupextend", List([Str("NOUSERMODS"), Str(" noapars ")]))])) == Valid
  {
    var items := [Str("NOUSERMODS"), Str(" noapars ")];
    assert "groupextend" in PossibleOptions && "groupextend" !in BooleanOptions;
    TokenListAccepted();
    SingleKeyOutcome("groupextend", List(items));
  }

  lemma TokenListAccepted()
    ensures GroupExtendDiagnostics("groupextend", [Str("NOUSERMODS"), Str(" noapars ")]) == []
    ensures NonStringCount([Str("NOUSERMODS"), Str(" noapars ")]) == 0
  {
    var items := [Str("NOUSERMODS"), Str(" noapars ")];
    ExactToken();
    PaddedLowerCaseToken();
    assert forall i :: 0 <= i < |items| ==> IsGroupExtendToken(items[i]);
    assert AllStrings(items);
  }

  lemma GroupExtendRejectsOtherWords()
    ensures Validate(Dict([("groupextend", List([Str("BOGUS")]))])) == Invalid([GroupExtendInvalid("groupextend")])
  {
    var items := [Str("BOGUS")];
    assert "groupextend" in PossibleOptions && "groupextend" !in BooleanOptions;
    OtherWordIsNoToken();
    assert NonStringCount(items) == 0;
    SingleKeyOutcome("groupextend", List(items));
  }

  /** A non-string GROUPEXTEND element is reported twice: by the GROUPEXTEND
      check and by the generic list check. */
  lemma GroupExtendNonStringReportedTwice()
    ensures Validate(Dict([("groupextend", List([Int(7)]))]))
         == Invalid([GroupExtendInvalid("groupextend"), ListNotStrings("groupextend")])
  {
    assert "groupextend" in PossibleOptions && "groupextend" !in BooleanOptions;
    assert NonStringCount([Int(7)]) == 1 by {
      assert [Int(7)][..0] == [];
    }
    SingleKeyOutcome("groupextend", List([Int(7)]));
  }

  lemma GroupAndGroupExtendAccepted()
    ensures AttributeDiagnostics("group", Bool(true)) == []
    ensures AttributeDiagnostics("groupextend", List([])) == []
  {
    assert "group" in BooleanOptions;
    assert "groupextend" in PossibleOptions && "groupextend" !in BooleanOptions;
  }

  lemma XzReqAndXzGroupAccepted()
    ensures AttributeDiagnostics("xzreq", Bool(true)) == []
    ensures AttributeDiagnostics("xzgroup", List([])) == []
  {
    assert "xzreq" in BooleanOptions;
    assert "xzgroup" in PossibleOptions && "xzgroup" !in BooleanOptions && "xzgroup" in StringListOptions;
  }

  lemma GroupExcludesGroupExtend()
    ensures Validate(Dict([("group", Bool(true)), ("groupextend", List([]))])) == Invalid([GroupExclusive])
  {
    var e := [("group", Bool(true)), ("groupextend", List([]))];
    GroupAndGroupExtendAccepted();
    TwoKeyDiagnostics(e);
    assert GroupConflict(e) by {
      assert e[1].0 == "groupextend" && e[0].0 == "group";
    }
    assert !XzGroupConflict(e) by {
      assert !HasKey(e, "xzreq");
    }
  }

  lemma XzGroupMayNotBeEmpty()
    ensures Validate(Dict([("xzreq", Bool(true)), ("xzgroup", List([]))])) == Invalid([XzGroupEmpty])
  {
    var e := [("xzreq", Bool(true)), ("xzgroup", List([]))];
    XzReqAndXzGroupAccepted();
    TwoKeyDiagnostics(e);
    assert XzGroupConflict(e) by {
      assert e[1].0 == "xzgroup" && e[0].0 == "xzreq";
    }
    assert !GroupConflict(e) by {
      assert !HasKey(e, "groupextend");
    }
  }

  lemma PaddedLowerCaseAll()
    ensures IsAllLiteral(Str(" all"))
  {
    assert Upper(" all") == " ALL";
    assert SkipSpace(" ALL", 0) == 1;
    assert SkipSpaceBack(" ALL", 1, 4) == 4;
  }

  lemma CompressAcceptsAll()
    ensures Validate(Dict([("compress", Str(" all"))])) == Valid
  {
    assert "compress" in PossibleOptions && "compress" !in BooleanOptions;
    PaddedLowerCaseAll();
    SingleKeyOutcome("compress", Str(" all"));
  }

  lemma CompressListElementsAreStrings()
    ensures Validate(Dict([("compress", List([Str("MOD1"), Int(3)]))])) == Invalid([ListNotStrings("compress")])
  {
    var items := [Str("MOD1"), Int(3)];
    assert "compress" in PossibleOptions && "compress" !in BooleanOptions;
    assert NonStringCount(items) == 1 by {
      assert items[..1] == [Str("MOD1")];
      assert [Str("MOD1")][..0] == [];
    }
    SingleKeyOutcome("compress", List(items));
  }

  lemma CompressRejectsOtherShapes()
    ensures Validate(Dict([("compress", Bool(true))])) == Invalid([CompressInvalid("compress")])
  {
    assert "compress" in PossibleOptions && "compress" !in BooleanOptions;
    SingleKeyOutcome("compress", Bool(true));
  }

  lemma UpperCasesClassNames()
    ensures Upper("hiper") == "HIPER" && Upper("pe") == "PE" && Upper("HIPER") == "HIPER" && Upper("bogus") == "BOGUS"
  {
  }

  lemma HoldClassAcceptsAnyCase()
    ensures Validate(Dict([("bypass", Dict([("holdclass", List([Str("hiper"), Str("pe")]))]))])) == Valid
  {
    var items := [Str("hiper"), Str("pe")];
    HoldClassItemsAccepted();
    assert BypassKindOf("holdclass") == Some(BypassList);
    assert BypassOptionDiagnostics("holdclass", List(items)) == [];
    SingleBypassOption("holdclass", List(items));
    SingleKeyOutcome("bypass", Dict([("holdclass", List(items))]));
  }

  lemma HoldClassItemsAccepted()
    ensures HoldClassDiagnostics([Str("hiper"), Str("pe")]) == []
  {
    var items := [Str("hiper"), Str("pe")];
    UpperCasesClassNames();
    assert items[1..] == [Str("pe")] && items[1..][1..] == [];
  }

  lemma HoldClassItemsRejected()
    ensures HoldClassDiagnostics([Str("HIPER"), Str("bogus")]) == [UnknownClass("BOGUS")]
  {
    var items := [Str("HIPER"), Str("bogus")];
    UpperCasesClassNames();
    assert items[1..] == [Str("bogus")] && items[1..][1..] == [];
  }

  /** A repeated unknown name is reported once per occurrence. */
  lemma HoldClassRepeatedNameReportedTwice()
    ensures HoldClassDiagnostics([Str("bogus"), Str("bogus")]) == [UnknownClass("BOGUS"), UnknownClass("BOGUS")]
  {
    var items := [Str("bogus"), Str("bogus")];
    UpperCasesClassNames();
    assert items[1..] == [Str("bogus")] && items[1..][1..] == [];
  }

  lemma HoldClassRejectsOtherNames()
    ensures Validate(Dict([("bypass", Dict([("holdclass", List([Str("HIPER"), Str("bogus")]))]))]))
         == Invalid([UnknownClass("BOGUS")])
  {
    var items := [Str("HIPER"), Str("bogus")];
    HoldClassItemsRejected();
    assert BypassKindOf("holdclass") == Some(BypassList);
    assert BypassOptionDiagnostics("holdclass", List(items)) == [UnknownClass("BOGUS")];
    SingleBypassOption("holdclass", List(items));
    SingleKeyOutcome("bypass", Dict([("holdclass", List(items))]));
  }

  /** HOLDFIXCAT is only checked for being a list of strings. */
  lemma HoldFixCatIsNotRestricted()
    ensures Validate(Dict([("bypass", Dict([("holdfixcat", List([Str("BOGUS")]))]))])) == Valid
  {
    assert BypassKindOf("holdfixcat") == Some(BypassList);
    assert BypassOptionDiagnostics("holdfixcat", List([Str("BOGUS")])) == [];
    SingleBypassOption("holdfixcat", List([Str("BOGUS")]));
    SingleKeyOutcome("bypass", Dict([("holdfixcat", List([Str("BOGUS")]))]));
  }

  lemma ReasonIdsChecked()
    ensures HoldSystemDiagnostics([("ipl", List([Str("X")])), ("bogus", List([Str("Y")]))])
         == [UnknownSystemReason("bogus")]
  {
    var reasons := [("ipl", List([Str("X")])), ("bogus", List([Str("Y")]))];
    SystemReasonMessages("ipl", List([Str("X")]));
    SystemReasonMessages("bogus", List([Str("Y")]));
    assert "ipl" in PossibleSystemReasonIds;
    assert "bogus" !in PossibleSystemReasonIds;
    assert reasons[1..][0] == reasons[1] && reasons[1..][1..] == [];
    assert FlatMap(reasons[1..][1..], SystemReasonEntryDiagnostics) == [];
  }

  lemma HoldSystemReasonIds()
    ensures Validate(Dict([("bypass", Dict([("holdsystem",
              Dict([("ipl", List([Str("X")])), ("bogus", List([Str("Y")]))]))]))]))
         == Invalid([UnknownSystemReason("bogus")])
  {
    var reasons := [("ipl", List([Str("X")])), ("bogus", List([Str("Y")]))];
    ReasonIdsChecked();
    assert BypassKindOf("holdsystem") == Some(BypassHoldSystem);
    assert BypassOptionDiagnostics("holdsystem", Dict(reasons)) == [UnknownSystemReason("bogus")];
    SingleBypassOption("holdsystem", Dict(reasons));
    SingleKeyOutcome("bypass", Dict([("holdsystem", Dict(reasons))]));
  }

  lemma UnknownAttributeIsReported()
    ensures AttributeDiagnostics("bogus", Bool(true)) == [NotPossibleAttribute("bogus")]
  {
    assert "bogus" !in PossibleOptions;
  }

  lemma OtherWordIsReported()
    ensures AttributeDiagnostics("groupextend", List([Str("BOGUS")])) == [GroupExtendInvalid("groupextend")]
  {
    assert "groupextend" in PossibleOptions && "groupextend" !in BooleanOptions;
    OtherWordIsNoToken();
    assert NonStringCount([Str("BOGUS")]) == 0;
  }

  /** Two independent problems are both reported, in key order. */
  lemma TwoProblemsBothReported()
    ensures Validate(Dict([("bogus", Bool(true)), ("groupextend", List([Str("BOGUS")]))]))
         == Invalid([NotPossibleAttribute("bogus"), GroupExtendInvalid("groupextend")])
  {
    var e := [("bogus", Bool(true)), ("groupextend", List([Str("BOGUS")]))];
    UnknownAttributeIsReported();
    OtherWordIsReported();
    TwoKeyDiagnostics(e);
    assert !GroupConflict(e) by {
      assert !HasKey(e, "group");
    }
    assert !XzGroupConflict(e) by {
      assert !HasKey(e, "xzreq");
    }
  }
}
