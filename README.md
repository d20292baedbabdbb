# isValidContent: a verified model of the APPLY option validator

The Ansible filter `isValidContent` of the `zos_smpe_apply` role checks the
option dictionary of an SMP/E APPLY request before it is turned into
control statements. It works in three steps:

- It rejects anything that is not a dictionary.
- It walks every top-level key and every `bypass` sub-key, comparing each against
  fixed name lists, shape rules and closed enumerations. Along the way it collects
  messages in a local list.
- It applies two cross-field rules. Then it either returns `True` or raises a
  single error that carries all the collected messages.

This project models that filter in Dafny and proves what it does.

- `value.dfy` (`JsonValue`): the JSON-like values the filter receives. A
  dictionary is an ordered association list, so key-iteration order, and
  with it message order, is part of the model. It also holds Python's
  equality tests against `True`/`False`, and key presence and lookup.
- `text.dfy` (`Text`): `str.upper`, `str.strip`, `str.join` and a newline
  split used to read the raised text back.
- `schema.dfy` (`Schema`): all the fixed name lists, how they split the
  legal names, the kind of each BYPASS option, and the exact text of every
  message.
- `content_spec.dfy` (`ContentSpec`): the filter as a pure function.
  `Validate` returns `NotADict`, `Valid` or `Invalid(diagnostics)`, and
  `ErrorText` renders the raised text.
- `validator.dfy` (`Validator`): the filter as the source runs it. The
  method keeps a local message list and uses `for` loops over the keys,
  the BYPASS keys, the HOLDSYSTEM reason IDs and list elements, with the
  source's `break`/`continue` choices. Each method is proved to compute its
  `ContentSpec` function.
- `properties.dfy` (`ContentProperties`): the behaviour promised for each
  attribute kind, each BYPASS option, message order and the cross-field rules.
- `conformance.dfy` (`Conformance`): an independent, declarative statement
  of the schema. It proves that the filter accepts a dictionary exactly when
  that dictionary conforms.
- `examples_apply.dfy` (`ApplyExamples`): concrete option dictionaries and
  their exact outcomes.

## Model

| member | source | states |
|---|---|---|
| Validator.IsValidContent | filter_plugins/isValidContent.py:13-117 | The message-collecting scan returns exactly `Validate(input)`. A non-dictionary gives the fatal outcome and nothing else does. A failure always carries at least one message. |
| Validator.CheckCrossFields | filter_plugins/isValidContent.py:108-112 | The two cross-field checks append exactly the cross-field messages: mutual exclusion first, then the null-list message. |
| Validator.CheckAttribute | filter_plugins/isValidContent.py:24-106 | One pass of the key loop, including its early `continue`s, appends exactly `AttributeDiagnostics(attr, value)`. |
| Validator.CheckGroupExtend | filter_plugins/isValidContent.py:35-41 | The GROUPEXTEND element loop stops at the first non-string or non-NOAPARS/NOUSERMODS element. It gives no message or exactly one. |
| Validator.ReportEachNonString | filter_plugins/isValidContent.py:102-106 | The generic list loop reports every non-string element, once each, and does not stop. |
| Validator.ReportFirstNonString | filter_plugins/isValidContent.py:92-96 | A BYPASS list, or a HOLDSYSTEM list, reports only its first non-string element. |
| Validator.CheckBypass | filter_plugins/isValidContent.py:56-96 | The loop over the BYPASS keys appends the messages of every key, in order. |
| Validator.CheckBypassOption | filter_plugins/isValidContent.py:57-96 | One pass of the BYPASS loop appends exactly `BypassOptionDiagnostics(key, value)`. |
| Validator.CheckHoldClass | filter_plugins/isValidContent.py:70-77 | The HOLDCLASS loop gives one message per unknown upper-cased class name and stops at the first non-string element. |
| Validator.CheckHoldSystem | filter_plugins/isValidContent.py:79-90 | The HOLDSYSTEM loop appends the messages of every reason ID, in order. |
| Validator.CheckSystemReason | filter_plugins/isValidContent.py:80-90 | One pass of the HOLDSYSTEM loop gives at most one message: for an unknown ID, a non-list value, or a list with a non-string element. |
| JsonValue.Lookup | filter_plugins/isValidContent.py:108-111 | `input_content[k]` is defined exactly when `k` is a key, and returns a value stored under `k`. |
| JsonValue.LookupEntry | filter_plugins/isValidContent.py:108-111 | When keys are unique, looking up any key returns the value stored beside it. |
| Text.UpperIdempotent | filter_plugins/isValidContent.py:39 | Upper-casing a string that is already upper-cased changes nothing. |
| Text.UpperEqualIffSameIgnoringCase | filter_plugins/isValidContent.py:75 | Two strings have the same upper-case form exactly when they have the same length and agree up to ASCII case at every position. This is why `hiper` and `HIPER` are the same class name. |
| Text.StripIsTrimmedInfix | filter_plugins/isValidContent.py:39 | `strip()` returns the infix left after removing all-whitespace ends. The result neither starts nor ends with whitespace. |
| Text.SplitJoin | filter_plugins/isValidContent.py:115 | Joining newline-free parts with a newline and splitting at newlines gives the parts back. |
| Schema.LegalNamesPartition | filter_plugins/isValidContent.py:20-98 | The 23 legal names are exactly the 12 boolean names, the 8 string-list names, GROUPEXTEND, COMPRESS and BYPASS. |
| Schema.NameListsDisjoint | filter_plugins/isValidContent.py:27-98 | No name is both a boolean name and a string-list name. GROUPEXTEND, COMPRESS and BYPASS are in neither list. |
| Schema.BypassKindOfAgreesWithLists | filter_plugins/isValidContent.py:51-66 | Exactly the 10 BYPASS names have a kind. The boolean and list kinds are the two lists, and HOLDSYSTEM is the dictionary kind. |
| ContentSpec.NonStringCount | filter_plugins/isValidContent.py:102-106 | The number of non-string elements is at most the list length, and is zero exactly when all elements are strings. |
| ContentProperties.OutcomeFollowsDiagnostics | filter_plugins/isValidContent.py:13-117 | A non-dictionary raises the fatal text. A dictionary is valid exactly when no message was collected, and `{}` is valid. Otherwise there is a single failure whose text is the prefix followed by the messages joined by newlines. |
| ContentProperties.EveryKeyVisitedInOrder | filter_plugins/isValidContent.py:23-112 | Messages come in key order. Each key contributes its own messages between those of the keys before it and those after it. The cross-field messages come last. |
| ContentProperties.EveryProblemReported | filter_plugins/isValidContent.py:23-117 | A key with a problem makes the filter fail whatever the other keys hold, and each of its messages is in the failure. |
| ContentProperties.ErrorTextListsEveryMessage | filter_plugins/isValidContent.py:114-115 | The raised text starts with `isValidContent - `. When no message contains a newline, splitting the rest at newlines gives back exactly the collected messages, in order. A key that contains a newline breaks this read-back. |
| ContentProperties.UnknownAttributeOnlyMessage | filter_plugins/isValidContent.py:24-26 | A name outside the 23, compared case-sensitively, gets exactly one message and no other check. |
| ContentProperties.BooleanAttributeMessages | filter_plugins/isValidContent.py:27-30 | A boolean attribute passes exactly for booleans, 0 and 1. Otherwise it gets exactly one message. |
| ContentProperties.StringListAttributeMessages | filter_plugins/isValidContent.py:98-106 | The eight list attributes get one message for a non-list and one per non-string element. They pass exactly for lists of strings. |
| ContentProperties.GroupExtendMessages | filter_plugins/isValidContent.py:31-41 | A non-list gets one message. A list gets at most one GROUPEXTEND message, given exactly when some element is not a token, plus one generic message per non-string element. |
| ContentProperties.CompressMessages | filter_plugins/isValidContent.py:42-44 | A list gets one generic message per non-string element. A non-list passes exactly when it is a string stripping and upper-casing to `ALL`, and otherwise gets one message. |
| ContentProperties.BypassMessages | filter_plugins/isValidContent.py:46-96 | A non-dictionary BYPASS gets one message and no nested checks. A dictionary contributes every BYPASS key's messages, in order. |
| ContentProperties.UnknownBypassOptionOnlyMessage | filter_plugins/isValidContent.py:57-59 | An unknown BYPASS key gets exactly one message. |
| ContentProperties.BypassBooleanMessages | filter_plugins/isValidContent.py:60-62 | ID, IFREQ, PRE and REQ pass exactly for booleans, 0 and 1. Otherwise they get one message. |
| ContentProperties.BypassListMessages | filter_plugins/isValidContent.py:63-96 | All five list options, HOLDCLASS included, get exactly one message for a non-list. For a list, HOLDERROR, HOLDFIXCAT, HOLDUSER and XZIFREQ get one message exactly when some element is not a string. The names in them are not checked. |
| ContentProperties.HoldClassAccepted | filter_plugins/isValidContent.py:70-77 | A HOLDCLASS list passes exactly when every element is a string whose upper-case form is a class name. |
| ContentProperties.HoldClassEmpty | filter_plugins/isValidContent.py:70-77 | The HOLDCLASS scan gives no message exactly when every element is a string naming a class. |
| ContentProperties.HoldClassStopsAtNonString | filter_plugins/isValidContent.py:71-74 | The first non-string element ends the scan with one HOLDCLASS message. Nothing after it is examined. |
| ContentProperties.HoldClassNonStringReportedTwice | filter_plugins/isValidContent.py:70-96 | The first non-string HOLDCLASS element gets the HOLDCLASS message and then the generic BYPASS list message. Both scans stop there, so later elements get none. |
| ContentProperties.UnknownClassReported | filter_plugins/isValidContent.py:75-77 | An unknown class name before any non-string element is reported, upper-cased. |
| ContentProperties.HoldClassMessagesExact | filter_plugins/isValidContent.py:70-77 | Let `k` be the index of the first non-string element, or the length. The HOLDCLASS scan gives one message per unknown upper-cased name before `k`, in order and once per occurrence. That is followed by the HOLDCLASS list message exactly when `k` is inside the list, and nothing else. |
| ContentProperties.HoldSystemMessages | filter_plugins/isValidContent.py:66-90 | A non-dictionary HOLDSYSTEM gets one message. A dictionary passes exactly when every reason ID is known and holds a list of strings. |
| ContentProperties.SystemReasonMessages | filter_plugins/isValidContent.py:79-90 | An unknown reason ID, compared case-sensitively, gets exactly one message. A known one gets one message exactly when its value is not a list of strings. |
| ContentProperties.AttributesNoCrossField | filter_plugins/isValidContent.py:23-106 | No per-key check, nested BYPASS checks included, ever produces one of the two cross-field messages. |
| ContentProperties.GroupConflictReported | filter_plugins/isValidContent.py:108-109 | The mutual-exclusion message occurs exactly once when GROUP equals True (so also the integer 1) next to GROUPEXTEND, and never otherwise. When it occurs, the filter fails whatever else was reported. |
| ContentProperties.XzGroupConflictReported | filter_plugins/isValidContent.py:111-112 | The null-list message occurs exactly once when XZREQ equals True next to an empty XZGROUP, and never otherwise. When it occurs, the filter fails whatever else was reported. |
| Conformance.BypassOptionAcceptedIffConforms | filter_plugins/isValidContent.py:57-96 | A BYPASS option gives no message exactly when it conforms to the declarative BYPASS schema. |
| Conformance.AttributeAcceptedIffConforms | filter_plugins/isValidContent.py:24-106 | An attribute gives no message exactly when it conforms to the declarative attribute schema. |
| Conformance.ValidIffConforms | filter_plugins/isValidContent.py:13-117 | The filter returns True exactly for dictionaries whose attributes all conform and that break neither cross-field rule. |
| ApplyExamples.SingleKeyOutcome | filter_plugins/isValidContent.py:23-112 | A dictionary with one key gets exactly that key's messages, since neither cross-field rule can apply. |
| ApplyExamples.TwoKeyDiagnostics | filter_plugins/isValidContent.py:23-112 | With two keys, the messages come in this order: the first key's, then the second key's, then the cross-field ones. |
| ApplyExamples.SingleBypassOption | filter_plugins/isValidContent.py:46-96 | A BYPASS dictionary with one option contributes exactly that option's messages. |
| ApplyExamples.EmptyOptionsAreValid | filter_plugins/isValidContent.py:114-117 | `{}` passes. |
| ApplyExamples.ListInputIsFatal | filter_plugins/isValidContent.py:14-15 | A list is refused with the fatal error. |
| ApplyExamples.UpperCaseNameIsUnknown | filter_plugins/isValidContent.py:24-26 | `APARS` in upper case is not a legal attribute. |
| ApplyExamples.BooleanAttributeValues | filter_plugins/isValidContent.py:27-30 | CHECK accepts 1 and refuses `"yes"` and 2. |
| ApplyExamples.PaddedLowerCaseToken | filter_plugins/isValidContent.py:39 | ` noapars ` is a GROUPEXTEND token once upper-cased and stripped. |
| ApplyExamples.OtherWordIsNoToken | filter_plugins/isValidContent.py:39 | `BOGUS` is not a GROUPEXTEND token. |
| ApplyExamples.GroupExtendAcceptsTokens | filter_plugins/isValidContent.py:35-41 | `NOUSERMODS` and ` noapars ` are accepted after upper-casing and stripping. |
| ApplyExamples.GroupExtendRejectsOtherWords | filter_plugins/isValidContent.py:39-41 | `["BOGUS"]` gets exactly the GROUPEXTEND message. `ContentProperties.GroupExtendMessages` states this for every list. |
| ApplyExamples.GroupExtendNonStringReportedTwice | filter_plugins/isValidContent.py:36-38 | In `[7]`, the non-string element gets the GROUPEXTEND message and then the generic one. |
| ApplyExamples.GroupExcludesGroupExtend | filter_plugins/isValidContent.py:108-109 | GROUP True together with an empty GROUPEXTEND fails with only the exclusion message. |
| ApplyExamples.XzGroupMayNotBeEmpty | filter_plugins/isValidContent.py:111-112 | XZREQ True together with an empty XZGROUP fails with only the null-list message. |
| ApplyExamples.PaddedLowerCaseAll | filter_plugins/isValidContent.py:42 | ` all` reads as `ALL` once upper-cased and stripped. |
| ApplyExamples.CompressAcceptsAll | filter_plugins/isValidContent.py:42 | ` all` is accepted for COMPRESS. |
| ApplyExamples.CompressListElementsAreStrings | filter_plugins/isValidContent.py:102-106 | A COMPRESS list with one integer gets one generic message. |
| ApplyExamples.CompressRejectsOtherShapes | filter_plugins/isValidContent.py:42-44 | COMPRESS `True` gets exactly the COMPRESS message. `ContentProperties.CompressMessages` states this for every non-list value. |
| ApplyExamples.HoldClassAcceptsAnyCase | filter_plugins/isValidContent.py:75 | Lower-case class names are accepted. |
| ApplyExamples.HoldClassRepeatedNameReportedTwice | filter_plugins/isValidContent.py:70-77 | `["bogus", "bogus"]` gets two `BOGUS` messages. |
| ApplyExamples.HoldClassRejectsOtherNames | filter_plugins/isValidContent.py:75-77 | An unknown class is reported by its upper-case form. |
| ApplyExamples.HoldFixCatIsNotRestricted | filter_plugins/isValidContent.py:63-96 | HOLDFIXCAT `["BOGUS"]` is valid. `ContentProperties.BypassListMessages` states that any list of strings passes. |
| ApplyExamples.HoldSystemReasonIds | filter_plugins/isValidContent.py:79-82 | Of two reason IDs, only the unknown one is reported. |
| ApplyExamples.TwoProblemsBothReported | filter_plugins/isValidContent.py:23-41 | Two bad keys are both reported, in key order. |

## Left out

- Ansible registration (`FilterModule.filters`) and the `AnsibleFilterTypeError` exception type are not modelled. Raising is modelled as the outcomes `NotADict` and `Invalid`, and `ErrorText` gives the raised text.
- The fatal error precedes any message collection because `Validate` and `IsValidContent` return `NotADict` before scanning.
- Floating-point values are not modelled. Values are null, booleans, integers, strings, lists and dictionaries with string keys. Non-string dictionary keys are not modelled either.
- Python's `str()` of arbitrary objects, used for COMPRESS, is not modelled. A non-list, non-string COMPRESS value never renders as `ALL` among these values, so it always gets the COMPRESS message.
- Text.Upper and Text.Strip use ASCII case mapping and ASCII whitespace: space, 9-13 and 28-31. Python's full Unicode tables are not modelled.
- Dictionaries are association lists. JsonValue.Lookup returns the first entry with the key, which agrees with Python when keys are unique, as in a real dictionary.
- Validator.IsValidContent: the single Python function is split into several methods: one per loop, one per loop pass, and one for the two cross-field checks. Each method is proved to compute its own function. Messages are accumulated as `Diagnostic` values, and `Schema.Message` gives each one's text.
- Where the schema as documented and the code differ, the code is followed:
  - Only HOLDCLASS, and not HOLDFIXCAT, is checked against the class names.
  - The integers 0 and 1 pass as booleans.
  - The GROUPEXTEND and BYPASS element scans stop early.
  - The first non-string HOLDCLASS element gets two messages, and later ones get none. A non-string GROUPEXTEND element gets the GROUPEXTEND message only when it is the first bad element. Every non-string GROUPEXTEND element gets the generic message.
  - COMPRESS list elements are checked for being strings.
