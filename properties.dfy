/** What the filter promises, proved about ContentSpec: every key is
    visited in order, every problem is reported, and what each kind of
    attribute, BYPASS option and HOLDSYSTEM reason contributes. */
module ContentProperties {
  import opened JsonValue
  import opened Text
  import opened Schema
  import opened ContentSpec

  // Diagnostics collected over a sequence of keys.

  lemma {:induction false} FlatMapAppend<T>(xs: seq<T>, ys: seq<T>, f: T -> seq<Diagnostic>)
    ensures FlatMap(xs + ys, f) == FlatMap(xs, f) + FlatMap(ys, f)
  {
    if xs == [] {
      assert xs + ys == ys;
    } else {
      assert (xs + ys)[1..] == xs[1..] + ys;
      FlatMapAppend(xs[1..], ys, f);
    }
  }

  /** The messages of the i-th key sit between those of the keys before it
      and those of the keys after it. */
  lemma FlatMapAt<T>(xs: seq<T>, i: nat, f: T -> seq<Diagnostic>)
    requires i < |xs|
    ensures FlatMap(xs, f) == FlatMap(xs[..i], f) + f(xs[i]) + FlatMap(xs[i + 1..], f)
  {
    var rest := xs[i..];
    assert xs == xs[..i] + rest;
    FlatMapAppend(xs[..i], rest, f);
    assert rest[0] == xs[i] && rest[1..] == xs[i + 1..];
    assert FlatMap(rest, f) == f(xs[i]) + FlatMap(xs[i + 1..], f);
  }

  /** A scan over keys collects nothing exactly when no key contributes. */
  lemma {:induction false} FlatMapEmpty<T>(xs: seq<T>, f: T -> seq<Diagnostic>)
    ensures FlatMap(xs, f) == [] <==> forall i :: 0 <= i < |xs| ==> f(xs[i]) == []
  {
    if xs != [] {
      FlatMapEmpty(xs[1..], f);
      assert forall i :: 1 <= i < |xs| ==> xs[i] == xs[1..][i - 1];
    }
  }

  lemma {:induction false} RepeatCounts(msg: Diagnostic, n: nat, d: Diagnostic)
    ensures multiset(Repeat(msg, n))[d] == if d == msg then n else 0
  {
    if n > 0 {
      assert Repeat(msg, n) == Repeat(msg, n - 1) + [msg];
      RepeatCounts(msg, n - 1, d);
    }
  }

  // The outcome.

  /** A non-dictionary raises the fatal error; a dictionary is valid exactly
      when no message was collected, and otherwise fails with all of them. */
  lemma OutcomeFollowsDiagnostics(input: Value)
    ensures !input.Dict? ==> Validate(input) == NotADict && ErrorText(Validate(input)) == NotADictionaryText
    ensures input.Dict? ==> (Validate(input) == Valid <==> Diagnostics(input.entries) == [])
    ensures input.Dict? && Diagnostics(input.entries) != [] ==>
      Validate(input) == Invalid(Diagnostics(input.entries))
      && ErrorText(Validate(input)) == ErrorPrefix + Join(Messages(Diagnostics(input.entries)), "\n")
    ensures Validate(Dict([])) == Valid
  {
  }

  /** Every key is visited, in key-iteration order, and the cross-field
      messages come after all per-key messages. */
  lemma EveryKeyVisitedInOrder(entries: seq<(string, Value)>, i: nat)
    requires i < |entries|
    ensures Diagnostics(entries)
         == AttributesDiagnostics(entries[..i]) + AttributeDiagnostics(entries[i].0, entries[i].1)
          + AttributesDiagnostics(entries[i + 1..]) + CrossFieldDiagnostics(entries)
  {
    FlatMapAt(entries, i, AttributeEntryDiagnostics);
  }

  /** Whatever the other keys hold, every message a key contributes is in
      the single failure. */
  lemma EveryProblemReported(entries: seq<(string, Value)>, i: nat)
    requires i < |entries|
    requires AttributeDiagnostics(entries[i].0, entries[i].1) != []
    ensures Validate(Dict(entries)).Invalid?
    ensures forall d :: d in AttributeDiagnostics(entries[i].0, entries[i].1) ==> d in Validate(Dict(entries)).diagnostics
  {
    EveryKeyVisitedInOrder(entries, i);
  }

  /** The raised text is the prefix followed by one line per message, so the
      messages can be read back when none contains a newline. */
  lemma ErrorTextListsEveryMessage(ds: seq<Diagnostic>)
    requires ds != []
    requires forall i :: 0 <= i < |ds| ==> '\n' !in Message(ds[i])
    ensures |ErrorText(Invalid(ds))| >= |ErrorPrefix|
    ensures ErrorText(Invalid(ds))[..|ErrorPrefix|] == ErrorPrefix
    ensures Split(ErrorText(Invalid(ds))[|ErrorPrefix|..], '\n') == Messages(ds)
  {
    var text := ErrorPrefix + Join(Messages(ds), "\n");
    assert ErrorText(Invalid(ds)) == text;
    assert text[|ErrorPrefix|..] == Join(Messages(ds), "\n");
    SplitJoin(Messages(ds), '\n');
  }

  // Top-level attributes.

  /** A name outside the 23 (compared case-sensitively) gets one message and
      no other check. */
  lemma UnknownAttributeOnlyMessage(attr: string, v: Value)
    requires attr !in PossibleOptions
    ensures AttributeDiagnostics(attr, v) == [NotPossibleAttribute(attr)]
  {
  }

  /** A boolean attribute passes when it equals False or True, so also as 0
      or 1, and otherwise gets exactly one message. */
  lemma BooleanAttributeMessages(attr: string, v: Value)
    requires attr in BooleanOptions
    ensures AttributeDiagnostics(attr, v) == [] <==> v.Bool? || v == Int(0) || v == Int(1)
    ensures AttributeDiagnostics(attr, v) != [] ==> AttributeDiagnostics(attr, v) == [MustBeBoolean(attr)]
  {
    LegalNamesPartition(attr);
  }

  /** A list attribute gets one message when it is not a list, and otherwise
      one message per non-string element and nothing else. */
  lemma StringListAttributeMessages(attr: string, v: Value)
    requires attr in StringListOptions
    ensures !v.List? ==> AttributeDiagnostics(attr, v) == [ListNotStrings(attr)]
    ensures v.List? ==>
      |AttributeDiagnostics(attr, v)| == NonStringCount(v.items)
      && forall d :: d in AttributeDiagnostics(attr, v) ==> d == ListNotStrings(attr)
    ensures AttributeDiagnostics(attr, v) == [] <==> v.List? && AllStrings(v.items)
  {
    LegalNamesPartition(attr);
    NameListsDisjoint(attr);
  }

  /** GROUPEXTEND: a non-list gets one message; a list gets at most one
      GROUPEXTEND message, present exactly when some element is not one of
      the two tokens, and separately one list message per non-string. */
  lemma GroupExtendMessages(v: Value)
    ensures !v.List? ==> AttributeDiagnostics("groupextend", v) == [GroupExtendInvalid("groupextend")]
    ensures v.List? ==>
      var r := AttributeDiagnostics("groupextend", v);
      var allTokens := forall i :: 0 <= i < |v.items| ==> IsGroupExtendToken(v.items[i]);
      multiset(r)[GroupExtendInvalid("groupextend")] == (if allTokens then 0 else 1)
      && multiset(r)[ListNotStrings("groupextend")] == NonStringCount(v.items)
      && |r| == multiset(r)[GroupExtendInvalid("groupextend")] + NonStringCount(v.items)
      && (r == [] <==> allTokens)
  {
    assert "groupextend" in PossibleOptions && "groupextend" !in BooleanOptions;
    if v.List? {
      var bad := GroupExtendInvalid("groupextend");
      var msg := ListNotStrings("groupextend");
      var g := GroupExtendDiagnostics("groupextend", v.items);
      var e := EachNonString(v.items, msg);
      assert AttributeDiagnostics("groupextend", v) == g + e;
      assert multiset(g + e) == multiset(g) + multiset(e);
      RepeatCounts(msg, NonStringCount(v.items), bad);
      RepeatCounts(msg, NonStringCount(v.items), msg);
      if forall i :: 0 <= i < |v.items| ==> IsGroupExtendToken(v.items[i]) {
        assert AllStrings(v.items);
        assert g == [];
      } else {
        assert g == [bad];
      }
    }
  }

  /** COMPRESS: any list passes apart from one message per non-string
      element; any other value passes only as the word ALL, and gets exactly
      one message otherwise. */
  lemma CompressMessages(v: Value)
    ensures v.List? ==>
      |AttributeDiagnostics("compress", v)| == NonStringCount(v.items)
      && forall d :: d in AttributeDiagnostics("compress", v) ==> d == ListNotStrings("compress")
    ensures !v.List? ==> (AttributeDiagnostics("compress", v) == [] <==> IsAllLiteral(v))
    ensures !v.List? && !IsAllLiteral(v) ==> AttributeDiagnostics("compress", v) == [CompressInvalid("compress")]
  {
    assert "compress" in PossibleOptions && "compress" !in BooleanOptions;
  }

  /** BYPASS: a non-dictionary gets one message and no nested check; a
      dictionary contributes the messages of its options, in key order. */
  lemma BypassMessages(v: Value)
    ensures !v.Dict? ==> AttributeDiagnostics("bypass", v) == [BypassNotDictionary("bypass")]
    ensures v.Dict? ==> AttributeDiagnostics("bypass", v) == BypassDiagnostics(v.entries)
    ensures v.Dict? ==> forall i :: 0 <= i < |v.entries| ==>
      AttributeDiagnostics("bypass", v)
      == BypassDiagnostics(v.entries[..i]) + BypassOptionDiagnostics(v.entries[i].0, v.entries[i].1)
       + BypassDiagnostics(v.entries[i + 1..])
  {
    assert "bypass" in PossibleOptions && "bypass" !in BooleanOptions;
    if v.Dict? {
      forall i | 0 <= i < |v.entries|
        ensures BypassDiagnostics(v.entries)
             == BypassDiagnostics(v.entries[..i]) + BypassOptionDiagnostics(v.entries[i].0, v.entries[i].1)
              + BypassDiagnostics(v.entries[i + 1..])
      {
        FlatMapAt(v.entries, i, BypassEntryDiagnostics);
      }
    }
  }

  // BYPASS options.

  lemma UnknownBypassOptionOnlyMessage(key: string, v: Value)
    requires key !in PossibleBypassOptions
    ensures BypassOptionDiagnostics(key, v) == [NotPossibleBypassAttribute(key)]
  {
    BypassKindOfAgreesWithLists(key);
  }

  lemma BypassBooleanMessages(key: string, v: Value)
    requires key in BypassBooleanOptions
    ensures BypassOptionDiagnostics(key, v) == [] <==> v.Bool? || v == Int(0) || v == Int(1)
    ensures BypassOptionDiagnostics(key, v) != [] ==> BypassOptionDiagnostics(key, v) == [BypassMustBeBoolean(key)]
  {
    BypassKindOfAgreesWithLists(key);
  }

  /** The five list options, HOLDCLASS included, get one message for a
      non-list. For HOLDERROR, HOLDFIXCAT, HOLDUSER and XZIFREQ a list gets
      one message if it holds a non-string, and its strings are not checked
      against any enumeration. */
  lemma BypassListMessages(key: string, v: Value)
    requires key in BypassListOptions
    ensures !v.List? ==> BypassOptionDiagnostics(key, v) == [BypassMustBeList(key)]
    ensures v.List? && key != "holdclass" ==> (BypassOptionDiagnostics(key, v) == [] <==> AllStrings(v.items))
    ensures v.List? && key != "holdclass" && !AllStrings(v.items) ==>
      BypassOptionDiagnostics(key, v) == [BypassListNotStrings(key)]
  {
    BypassKindOfAgreesWithLists(key);
  }

  /** HOLDCLASS is accepted exactly when every element is a string whose
      upper-case form is one of the five class names. */
  lemma HoldClassAccepted(v: Value)
    requires v.List?
    ensures BypassOptionDiagnostics("holdclass", v) == []
        <==> forall i :: 0 <= i < |v.items| ==> v.items[i].Str? && Upper(v.items[i].text) in PossibleClassNames
  {
    assert BypassKindOf("holdclass") == Some(BypassList);
    HoldClassEmpty(v.items);
  }

  lemma {:induction false} HoldClassEmpty(items: seq<Value>)
    ensures HoldClassDiagnostics(items) == []
        <==> forall i :: 0 <= i < |items| ==> items[i].Str? && Upper(items[i].text) in PossibleClassNames
  {
    if items != [] {
      HoldClassEmpty(items[1..]);
      assert forall i :: 1 <= i < |items| ==> items[i] == items[1..][i - 1];
    }
  }

  /** The HOLDCLASS scan ends at the first non-string element: what follows
      it is never examined, and that element gets the HOLDCLASS message. */
  lemma {:induction false} HoldClassStopsAtNonString(items: seq<Value>, k: nat)
    requires k < |items| && !items[k].Str?
    requires forall j :: 0 <= j < k ==> items[j].Str?
    ensures HoldClassDiagnostics(items) == HoldClassDiagnostics(items[..k]) + [HoldClassNotStrings]
  {
    if k > 0 {
      HoldClassStopsAtNonString(items[1..], k - 1);
      assert items[1..][..k - 1] == items[..k][1..];
    }
  }

  /** A non-string HOLDCLASS element gets the HOLDCLASS message and then the
      generic BYPASS list message. */
  lemma HoldClassNonStringReportedTwice(items: seq<Value>, k: nat)
    requires k < |items| && !items[k].Str?
    requires forall j :: 0 <= j < k ==> items[j].Str?
    ensures BypassOptionDiagnostics("holdclass", List(items))
         == HoldClassDiagnostics(items[..k]) + [HoldClassNotStrings, BypassListNotStrings("holdclass")]
  {
    assert BypassKindOf("holdclass") == Some(BypassList);
    HoldClassStopsAtNonString(items, k);
    assert !AllStrings(items);
  }

  /** Every string before the first non-string whose upper-case form is not
      a class name is reported, under that upper-case form. */
  lemma {:induction false} UnknownClassReported(items: seq<Value>, j: nat)
    requires j < |items|
    requires forall m :: 0 <= m <= j ==> items[m].Str?
    requires Upper(items[j].text) !in PossibleClassNames
    ensures UnknownClass(Upper(items[j].text)) in HoldClassDiagnostics(items)
  {
    if j > 0 {
      UnknownClassReported(items[1..], j - 1);
    }
  }

  /** The upper-case forms of the strings in `strs` that are not class
      names, in order. */
  function UnknownClassNames(strs: seq<Value>): seq<string> {
    if strs == [] then []
    else
      var last := strs[|strs| - 1];
      UnknownClassNames(strs[..|strs| - 1])
      + (if last.Str? && Upper(last.text) !in PossibleClassNames then [Upper(last.text)] else [])
  }

  function UnknownClassMessages(names: seq<string>): seq<Diagnostic> {
    seq(|names|, i requires 0 <= i < |names| => UnknownClass(names[i]))
  }

  /** A HOLDCLASS scan over strings can be split after any prefix. */
  lemma {:induction false} HoldClassAppend(strs: seq<Value>, x: Value)
    requires AllStrings(strs)
    ensures HoldClassDiagnostics(strs + [x]) == HoldClassDiagnostics(strs) + HoldClassDiagnostics([x])
  {
    if strs != [] {
      assert (strs + [x])[1..] == strs[1..] + [x];
      HoldClassAppend(strs[1..], x);
    }
  }

  /** Over strings only, the HOLDCLASS scan reports exactly the unknown
      names, in order. */
  lemma {:induction false} HoldClassOverStrings(strs: seq<Value>)
    requires AllStrings(strs)
    ensures HoldClassDiagnostics(strs) == UnknownClassMessages(UnknownClassNames(strs))
  {
    if strs != [] {
      var init := strs[..|strs| - 1];
      var last := strs[|strs| - 1];
      assert strs == init + [last];
      assert AllStrings(init);
      HoldClassOverStrings(init);
      HoldClassAppend(init, last);
    }
  }

  /** With `k` the index of the first non-string element (or the length),
      the HOLDCLASS scan gives one message per unknown name before `k`, in
      order and repeats included, then the HOLDCLASS list message when a
      non-string element ended the scan, and nothing else. */
  lemma HoldClassMessagesExact(items: seq<Value>, k: nat)
    requires k <= |items| && (forall j :: 0 <= j < k ==> items[j].Str?)
    requires k < |items| ==> !items[k].Str?
    ensures HoldClassDiagnostics(items)
         == UnknownClassMessages(UnknownClassNames(items[..k]))
          + (if k < |items| then [HoldClassNotStrings] else [])
  {
    assert AllStrings(items[..k]);
    HoldClassOverStrings(items[..k]);
    if k < |items| {
      HoldClassStopsAtNonString(items, k);
    } else {
      assert items[..k] == items;
    }
  }

  /** HOLDSYSTEM: a non-dictionary gets one message; a dictionary is
      accepted exactly when every reason ID is one of the 19 and maps to a
      list of strings. */
  lemma HoldSystemMessages(v: Value)
    ensures !v.Dict? ==> BypassOptionDiagnostics("holdsystem", v) == [BypassMustBeDictionary("holdsystem")]
    ensures v.Dict? ==> (BypassOptionDiagnostics("holdsystem", v) == []
        <==> forall i :: 0 <= i < |v.entries| ==>
               v.entries[i].0 in PossibleSystemReasonIds && v.entries[i].1.List? && AllStrings(v.entries[i].1.items))
  {
    assert BypassKindOf("holdsystem") == Some(BypassHoldSystem);
    if v.Dict? {
      FlatMapEmpty(v.entries, SystemReasonEntryDiagnostics);
    }
  }

  /** A reason ID outside the 19 gets one message naming it; a known one
      gets one message when its value is not a list of strings. */
  lemma SystemReasonMessages(reasonId: string, v: Value)
    ensures reasonId !in PossibleSystemReasonIds ==> SystemReasonDiagnostics(reasonId, v) == [UnknownSystemReason(reasonId)]
    ensures reasonId in PossibleSystemReasonIds ==>
      (SystemReasonDiagnostics(reasonId, v) == [] <==> v.List? && AllStrings(v.items))
      && (SystemReasonDiagnostics(reasonId, v) != [] ==> SystemReasonDiagnostics(reasonId, v) == [SystemReasonNotList(reasonId)])
  {
  }

  // Cross-field rules, applied whatever else was reported.

  /** The two messages only the cross-field rules produce. */
  predicate IsCrossField(d: Diagnostic) {
    d.GroupExclusive? || d.XzGroupEmpty?
  }

  lemma {:induction false} FlatMapAvoids<T>(xs: seq<T>, f: T -> seq<Diagnostic>, d: Diagnostic)
    requires forall i :: 0 <= i < |xs| ==> d !in f(xs[i])
    ensures d !in FlatMap(xs, f)
  {
    if xs != [] {
      assert forall i :: 0 <= i < |xs| - 1 ==> xs[1..][i] == xs[i + 1];
      FlatMapAvoids(xs[1..], f, d);
    }
  }

  lemma {:induction false} HoldClassNoCrossField(items: seq<Value>, d: Diagnostic)
    requires IsCrossField(d)
    ensures d !in HoldClassDiagnostics(items)
  {
    if items != [] && items[0].Str? {
      HoldClassNoCrossField(items[1..], d);
    }
  }

  lemma BypassOptionNoCrossField(key: string, v: Value, d: Diagnostic)
    requires IsCrossField(d)
    ensures d !in BypassOptionDiagnostics(key, v)
  {
    if BypassKindOf(key) == Some(BypassList) && v.List? {
      HoldClassNoCrossField(v.items, d);
    } else if BypassKindOf(key) == Some(BypassHoldSystem) && v.Dict? {
      FlatMapAvoids(v.entries, SystemReasonEntryDiagnostics, d);
    }
  }

  lemma AttributeNoCrossField(attr: string, v: Value, d: Diagnostic)
    requires IsCrossField(d)
    ensures d !in AttributeDiagnostics(attr, v)
  {
    if attr == "bypass" && v.Dict? {
      forall i | 0 <= i < |v.entries| ensures d !in BypassEntryDiagnostics(v.entries[i]) {
        BypassOptionNoCrossField(v.entries[i].0, v.entries[i].1, d);
      }
      FlatMapAvoids(v.entries, BypassEntryDiagnostics, d);
    }
  }

  /** No key's own checks produce a cross-field message. */
  lemma AttributesNoCrossField(entries: seq<(string, Value)>, d: Diagnostic)
    requires IsCrossField(d)
    ensures d !in AttributesDiagnostics(entries)
  {
    forall i | 0 <= i < |entries| ensures d !in AttributeEntryDiagnostics(entries[i]) {
      AttributeNoCrossField(entries[i].0, entries[i].1, d);
    }
    FlatMapAvoids(entries, AttributeEntryDiagnostics, d);
  }

  /** The mutual-exclusion message appears exactly once when GROUP equals
      True (so also the integer 1) next to any GROUPEXTEND, and never
      otherwise. */
  lemma GroupConflictReported(entries: seq<(string, Value)>)
    ensures multiset(Diagnostics(entries))[GroupExclusive] == if GroupConflict(entries) then 1 else 0
    ensures GroupConflict(entries) ==>
      Validate(Dict(entries)).Invalid? && GroupExclusive in Validate(Dict(entries)).diagnostics
  {
    AttributesNoCrossField(entries, GroupExclusive);
    assert multiset(Diagnostics(entries))
        == multiset(AttributesDiagnostics(entries)) + multiset(CrossFieldDiagnostics(entries));
  }

  /** The null-list message appears exactly once when XZREQ equals True
      next to an empty XZGROUP, and never otherwise. */
  lemma XzGroupConflictReported(entries: seq<(string, Value)>)
    ensures multiset(Diagnostics(entries))[XzGroupEmpty] == if XzGroupConflict(entries) then 1 else 0
    ensures XzGroupConflict(entries) ==>
      Validate(Dict(entries)).Invalid? && XzGroupEmpty in Validate(Dict(entries)).diagnostics
  {
    AttributesNoCrossField(entries, XzGroupEmpty);
    assert multiset(Diagnostics(entries))
        == multiset(AttributesDiagnostics(entries)) + multiset(CrossFieldDiagnostics(entries));
  }
}
