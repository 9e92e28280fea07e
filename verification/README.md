# Podway verification

A Dafny model of the parts of Podway where a small mistake is hard to see, and proofs of what those
parts promise. The main results are statements over all inputs, all runs or all interleavings; a
few lemmas show a single input where something fails.

`dafny verify dfyconfig.toml` checks the whole project.

## What is modelled

**Canonical JSON.** Python writes the contract manifest and its digest, Rust recomputes the digest
at build time, a fuzz oracle prints the same values a third way, and `write_canonical_json` of the
core crate has the oracle's form. `CanonicalJson.dfy` gives one reference text for every value; all
the printers are proved to produce exactly that text and to refuse exactly the same values. The
heart of it is that Python's code-point order of keys is Rust's order of UTF-8 bytes
(`Utf8.OrderAgreement`). The text itself is fixed to the byte: UTF-8 is the table of section 4 of RFC
3629 (`Utf8Table.EncodeIsTable`), and the canonical text is the one text of a shape that is given
with its octets and without any printer (`CanonicalShape.ShapeIsCanonical`).

**The bounded JSON reader.** `JsonGrammar.dfy` states sections 2 to 7 of RFC 8259 as concrete syntax
trees that keep white space, escapes and number spellings. `JsonParser.dfy` is the reader in the
source's form, an object with a position and a node counter; `JsonReader.dfy` is the function each
of its methods refines. On every grammatical text the reader gives the verdict of a bounded walk
over the tree, and everything it accepts is grammatical, so acceptance is characterized exactly.
Refusals are characterized as exactly: a text is refused with an error if and only if reading stops at
a token, a name or a limit that this error is for (`JsonFaults.DocumentFails`), and so is a whole
document (`ProcedureDocument.DecodeFails`). Reading the canonical text of a value returns that value,
and canonical bytes determine the value.

**The YAML path.** The visitor counts and refuses on a decoded tree as the JSON reader does: same
acceptance, same error, same reported count at the same node, and the same admission with nulls. In
front of it stands a preflight that takes signed 64-bit integers only, so a decoded tree is admitted
from YAML exactly when it is admitted from JSON and none of its numbers lies beyond the signed range.
This compares trees: what the rules on YAML text refuse before there is a tree is left out.

**Delegation work packages.** The admission charge bounds the canonical length of every package
that any goal and any frozen evidence can later produce, so projection never fails on size after
admission; what is admitted and what can be packaged is stated exactly, errors included; what stands
under every name of a package is stated from the Procedure and the input alone
(`PackageContents.PackageSays`); and the package bytes determine every runtime input.

**The `session.next` byte budget.** Saturating charges equal exact sums capped once; the tariff
never under-prices JSON with short field names (and 58 characters is the exact bound); the exact
placements that fit the decision-record allocation; the record ceiling implies the byte budget;
suggestions, criterion results, complete decision records, the counter array, the static content of
a placement and the whole evidence surface, previews and tokens included, fit what is charged for
them as the daemon prints them. Put together with what a session prints without any charge (its
goal, its blockers, its place in the graph), the complete result of an admitted placement fits the
frame, whatever the session has recorded, and it says what was recorded: every member of it is stated
from the placement and the state of the session (`NextProjection.ProjectNext`). The charges are
stated in numbers as well: what each part of a placement adds to its static charge
(`StaticIncrements.dfy`), to its evidence (`EvidenceNumbers.ChargesInNumbers`) and to the tests
(`BudgetNumbers.dfy`).

**Dates and timestamps.** The closed-form date equals a calendar that only turns to the next or
previous day, for every integer day number; timestamps print, validate, read back and sort as the
instants they stand for, and which bytes stand at which place is stated
(`TimestampLayout.InstantPrints`).

**Two stream readers.** The end-to-end runner's outcome does not depend on how the output is cut into
blocks. The bounded capture of two pipes is a state machine over every schedule of ready pipes.

### Findings

* JSON and YAML do not admit the same decoded trees. The number 9223372036854775808 is admitted from
  JSON and refused from YAML (`YamlAdmission.UnsignedIntegerIsRefused`); the two agree exactly on
  trees whose numbers are signed 64-bit integers (`YamlAdmission.TextAdmissionAgrees`).
* The closed-form date is not total on `i64`: the first addition overflows on the last 719,468 day
  numbers (`Calendar.LastDayOverflows`), and nothing else ever overflows
  (`Calendar.OnlyTheShiftOverflows`). Its only caller stays far below.
* The reason a capture reports can depend on the interleaving: one byte too many on each pipe is
  enough (`PipeCapture.BothCeilingsOccur`). It does so exactly when both streams outgrow their
  ceilings (`PipeCapture.ReasonDependsOnInterleaving`).
* The criterion charge is computed with `unsatisfied`, although `not_applicable` is longer. At the
  tariff's price it covers every valid result (`TariffInstances.CriterionResultCovered`) only because
  an inapplicable criterion cites nothing: with citations it would be priced 18 above the charge
  (`TariffInstances.CitingInapplicableIsPricedHigher`). In bytes there is no such case: any result
  with at most four citations prints within the charge (`TariffInstances.CriterionResultPrints`). The
  names `applicability` and `unresolved` are priced above the charged `assessment` and `resolved` as
  well, and what stands beside them makes up for it (`DecisionRecordSize.ResultsCost`,
  `DecisionRecordSize.SnapshotCosts`).
* `items_total` and `items_truncated` of a readback and the name of the `preview` field are charged
  nowhere. The evidence surface fits all the same, because identifiers, UUIDs and digests are charged
  six bytes a character and print as one (`EvidenceSurface.ReferenceFits`).
* The goal, the blocker window, the identity of session and node, and suggestions for goal commands
  and optional check results have no charge. Their bounds add up to 90,760 bytes, of which the blocker
  window alone is 49,152; the reserve that is held back for serialization and the envelope is 49,152.
  The aggregate test therefore does not show by itself that a result fits. It does fit, for two
  reasons: evidence prints less than it is charged (`NextResponse.FramedResultFits`), and the
  observation test already leaves enough room (`NextResponse.ObservedResultFits`).
* The comment on `DECISION_RECORD_BUDGET` says that the allocation bounds a placement to one decision
  source. Two plain decisions fit (`BudgetTheorems.TwoPlainDecisionsFit`), and so do eight; one source
  is the bound only when it assesses the goal (`BudgetTheorems.DecisionRecordAdmission`). The model
  follows the code.
* The CLI formats timestamps with its own date computation beside the protocol's. The two agree on
  every day from the epoch on (`Timestamps.ProtocolDateAgrees`), and the two printers on every instant
  (`Timestamps.PrintersOfInstantsAgree`).
* A final unterminated `test result:` line is printed but not counted as a result
  (`ExactRun.UnterminatedResultIsNotCounted`).

## Model

| member | source | states |
|---|---|---|
| Utf8.OrderAgreement | tools/contract_manifest.py:73-82 | one text sorts before another by code points if and only if its UTF-8 encoding sorts before the other's by bytes |
| Utf8.EncodeDecoded | crates/podway-config/src/parser.rs:109-111 | what strict UTF-8 decoding accepts is the encoding of what it returns; Utf8Table says what both are |
| Utf8.DecodeEncoded | crates/podway-config/src/parser.rs:109-111 | every text decodes from its encoding, which Utf8Table.EncodeIsTable gives octet by octet |
| Utf8Table.DecodeIsTable | crates/podway-config/src/parser.rs:109-111 | decoding gives a text if and only if the bytes fall into octet groups of the table in section 4 of RFC 3629 whose payload bits are its characters; it gives none exactly when there is no such text |
| Utf8Table.EncodeIsTable | crates/podway-protocol/build_support.rs:25-28 | the encoding of a text is the one sequence of such groups |
| Decimal.SpellReads | crates/podway-config/src/parser.rs:1018-1061 | every integer reads back from its canonical spelling, which is never `-0` |
| Decimal.SpellingIsUnique | crates/podway-config/src/parser.rs:1018-1061 | apart from `-0`, an integer text is the one canonical spelling of what it denotes |
| CanonicalJson.AscendingIsSortedKeys | crates/podway-protocol/build_support.rs:40-41 | a strictly ascending list of exactly the keys of an object is the canonical key order |
| CanonicalPrinters.SerdeStringIsQuoted | crates/podway-protocol/build_support.rs:25-28 | escaping the UTF-8 bytes of a text is escaping its characters |
| CanonicalPrinters.SortBytewise | crates/podway-protocol/build_support.rs:40-41 | sorting distinct keys by UTF-8 bytes keeps the entries and puts them in ascending code-point order |
| CanonicalPrinters.CanonicalJsonBytes | crates/podway-protocol/build_support.rs:9-13 | succeeds exactly on values whose numbers are 64-bit integers, and returns the canonical text, which CanonicalShape gives byte by byte |
| CanonicalPrinters.AppendCanonicalJson | crates/podway-protocol/build_support.rs:15-56 | appends the canonical text behind what the buffer held, or refuses, exactly as above |
| CanonicalPrinters.AppendCanonicalArray | crates/podway-protocol/build_support.rs:29-38 | the same for arrays |
| CanonicalPrinters.AppendCanonicalObject | crates/podway-protocol/build_support.rs:39-53 | the same for objects, whatever order the map iterates in |
| CanonicalPrinters.ExpectedCanonical | fuzz/fuzz_targets/canonical_json.rs:8-22 | the oracle appends the same canonical text and refuses the same values |
| CanonicalPrinters.SortedEntries | crates/podway-core/src/canonical.rs:105-106 | entries sorted by key bytes carry the canonical key order and each key's own value |
| CanonicalPrinters.ExpectedMembers | crates/podway-core/src/canonical.rs:104-119 | printing sorted entries appends the members in canonical key order and refuses exactly when some member is refused |
| CanonicalPrinters.PythonDumpsEncodes | tools/contract_manifest.py:73-84 | the UTF-8 bytes of the Python printer's text are the canonical text |
| CanonicalPrinters.NumbersPassAlike | tools/contract_manifest.py:54-70 | the number walk of Python passes exactly the values whose numbers are 64-bit integers |
| CanonicalPrinters.PrintersAgree | tools/contract_manifest.py:54-84 | Python yields bytes exactly on values whose numbers are 64-bit integers, and the bytes are the ones Rust recomputes |
| CanonicalShape.ShapeIsCanonical | crates/podway-protocol/build_support.rs:9-56 | bytes are the canonical text of a value if and only if they have its shape: the words, plain decimal digits, quoted characters, commas, colons and brackets as octets, names each once in code-point order, and nothing else |
| CanonicalShape.CharacterShape | crates/podway-protocol/build_support.rs:25-28 | a character is printed as one of seven short escapes, as `\u00` and two lower-case hexadecimal digits, or as its octets |
| CanonicalShape.NumberShape | crates/podway-protocol/build_support.rs:20-24 | an integer is printed as a minus sign if it is negative and its decimal digits without leading zeros |
| CanonicalShape.OrderedIsSorted | crates/podway-protocol/build_support.rs:40-41 | the canonical key order is the order in which the first difference decides and a prefix comes first |
| JsonStrings.ParityIsAutomaton | crates/podway-config/src/parser.rs:890-898 | behind the opening quote, an odd backward run of backslashes is the escaped state of the forward automaton, and the run never crosses the opening quote |
| JsonStrings.ScanFindsClosingQuote | crates/podway-config/src/parser.rs:1063-1082 | on any grammatical string the scan stops at exactly its closing quote |
| JsonStrings.DecodeIsMeaning | crates/podway-config/src/parser.rs:1070-1074 | decoding a grammatical string body gives the text section 7 of RFC 8259 assigns to it, surrogate pairs included, or nothing for a lone surrogate |
| JsonStrings.DecodedIsGrammatical | crates/podway-config/src/parser.rs:1070-1074 | every body that decodes is a grammatical string body |
| JsonStringShape.BodySays | crates/podway-config/src/parser.rs:1070-1074 | a string body is decoded to a text if and only if its octets fall into pieces that stand for its characters: plain octet groups, eight two-byte escapes, `\u` with four digits of either case, and pairs of those for higher planes |
| JsonParser.JsonStringQuoteIsEscaped | crates/podway-config/src/parser.rs:890-898 | the backward loop computes the parity of the run of backslashes |
| JsonParser.JsonParser.constructor | crates/podway-config/src/parser.rs:928-935 | a reader starts at position zero with no node counted |
| JsonParser.JsonParser.SkipWhitespace | crates/podway-config/src/parser.rs:1116-1123 | leaves the input behind its leading white space |
| JsonParser.JsonParser.Consume | crates/podway-config/src/parser.rs:1107-1114 | moves past the byte exactly when it is next |
| JsonParser.JsonParser.ExpectLiteral | crates/podway-config/src/parser.rs:1084-1097 | value, rest and counter, or the error, are those of the specified reader |
| JsonParser.JsonParser.CountNode | crates/podway-config/src/parser.rs:899-918 | refuses by depth first, then by count, with the offending number; otherwise one more node is counted |
| JsonParser.JsonParser.FindClosingQuote | crates/podway-config/src/parser.rs:1067-1081 | the loop with backward parity finds what the forward automaton finds |
| JsonParser.JsonParser.ParseString | crates/podway-config/src/parser.rs:1063-1082 | text, rest and counter, or the error, are those of the specified reader |
| JsonParser.JsonParser.ParseNumber | crates/podway-config/src/parser.rs:1018-1061 | the same for numbers |
| JsonParser.JsonParser.ParseValue | crates/podway-config/src/parser.rs:947-968 | the same for values, at any depth and counter |
| JsonParser.JsonParser.ParseArray | crates/podway-config/src/parser.rs:1000-1016 | the same for arrays |
| JsonParser.JsonParser.ParseObject | crates/podway-config/src/parser.rs:970-998 | the same for objects, repeated keys refused |
| JsonParser.JsonParser.Parse | crates/podway-config/src/parser.rs:937-945 | terminates on every input with the result of the specified reader, whose values JsonDocument.DocumentAccepts and whose errors JsonFaults.DocumentFails characterize |
| JsonReaderProofs.ReadsValue | crates/podway-config/src/parser.rs:947-1061 | on any grammatical text followed by anything that may follow it, the reader stops where the text ends with the verdict of the bounded walk over its tree |
| JsonReaderSoundness.ValueWasText | crates/podway-config/src/parser.rs:947-1061 | whatever the reader accepts is a text of the RFC 8259 grammar |
| JsonReader.CountWithinInput | crates/podway-config/src/parser.rs:899-968 | every counted node has taken at least one byte, so the counter never passes the length of the input |
| JsonDocument.DocumentVerdict | crates/podway-config/src/parser.rs:937-1061 | on every JSON text with white space around it the answer is the walk's: the same value or the same first error |
| JsonDocument.DocumentAccepts | crates/podway-config/src/parser.rs:937-1061 | a byte sequence is accepted with a value if and only if it is a JSON text denoting it: decodable strings, canonical integers in range, no repeated key, height and node count within limits |
| JsonDocument.DocumentErrors | crates/podway-config/src/parser.rs:899-1061 | on every JSON text an error is the first refusal in document order, and a limit error reports the first number past a limit the text really exceeds |
| JsonFaults.StringFaults | crates/podway-config/src/parser.rs:1063-1082 | reading a string fails with an error if and only if that error is for the first control byte before the closing quote, for a missing closing quote, or for a closed body that says nothing |
| JsonFaults.NumberFaults | crates/podway-config/src/parser.rs:1018-1061 | the same for numbers: no integer where one has to be, a fraction, exponent, superfluous zero, `-0` or integer out of range, or a byte a number cannot run into |
| JsonFaults.TokenFaults | crates/podway-config/src/parser.rs:947-968 | the same for whatever can start a value, by its first byte |
| JsonFaults.DocumentFails | crates/podway-config/src/parser.rs:937-1105 | bytes are refused with an error if and only if a part of a JSON text leads up to what the error is for: a faulty token, a missing colon, comma or end, a repeated name, a depth or count just past its limit, or something behind a whole value |
| JsonDocument.IntegerSpellings | crates/podway-config/src/parser.rs:1050-1060 | a number is taken as an integer if and only if it is that integer's canonical spelling and the integer is in [-2^63, 2^64-1] |
| JsonDocument.CanonicalI64Spellings | crates/podway-config/src/parser.rs:802-811 | the YAML rule accepts exactly the canonical spellings of `i64` values |
| DocumentWalk.WalkAccepts | crates/podway-config/src/parser.rs:899-918 | the walk accepts exactly well-formed trees within the limits, returns their meaning, and its final counter is the node count |
| DocumentOrder.WalkIsPass | crates/podway-config/src/parser.rs:899-1016 | the recursive walk stops where one flat pass over nodes and keys in document order stops, with the same error or the same final count |
| DocumentOrder.LimitErrorsAreTruthful | crates/podway-config/src/parser.rs:899-918 | a depth or node error names the limit and the next number, and the tree is that deep or that large |
| CanonicalRoundTrip.TreePrints | crates/podway-protocol/build_support.rs:15-56 | the canonical text of a value is the text of a grammatical tree |
| CanonicalRoundTrip.TreeMeans | crates/podway-protocol/build_support.rs:15-56 | that tree denotes the value, with the same node count and height |
| CanonicalRoundTrip.CanonicalRoundTrips | crates/podway-config/src/parser.rs:937-1138 | reading canonical text returns the value if and only if its height and node count are within the limits, and never another value |
| CanonicalRoundTrip.CanonicalInjective | crates/podway-protocol/build_support.rs:9-56 | equal canonical bytes come from equal values |
| ProcedureDocument.DecodeProcedureDocument | crates/podway-config/src/parser.rs:97-122 | the stages in order (size, encoding, reader, nulls), each with its own error, for the JSON format; DecodeAccepts and DecodeFails say what comes of which input |
| ProcedureDocument.TextThenUtf8 | crates/podway-config/src/parser.rs:109-111 | every text of the grammar is valid UTF-8 |
| ProcedureDocument.DecodeAccepts | crates/podway-config/src/parser.rs:97-122 | a document is admitted if and only if it is within the byte limit and denotes a value without nulls within the other limits; the encoding test refuses nothing the reader would take |
| ProcedureDocument.DecodeFails | crates/podway-config/src/parser.rs:97-122 | a document is refused with an error if and only if it is the error of its size, of its encoding, of the reader, or of a null in the value, in this order |
| ProcedureDocument.CanonicalDecodes | crates/podway-config/src/parser.rs:97-122 | canonical text of a value without nulls is admitted as that value exactly when all three limits allow it |
| YamlVisitor.BoundedYamlVisitor.constructor | crates/podway-config/src/parser.rs:360-366 | a visit starts with no node counted |
| YamlVisitor.BoundedYamlVisitor.CountNode | crates/podway-config/src/parser.rs:376-393 | refuses by depth, then by count; the shared counter moves only on success |
| YamlVisitor.BoundedYamlVisitor.Visit | crates/podway-config/src/parser.rs:368-400 | outcome and counter are those of the specified visit |
| YamlVisitor.BoundedYamlVisitor.VisitSequence | crates/podway-config/src/parser.rs:552-559 | the same for sequences |
| YamlVisitor.BoundedYamlVisitor.VisitMapping | crates/podway-config/src/parser.rs:561-577 | the same for mappings, repeated keys refused before their value is visited |
| YamlVisitor.WalksAgree | crates/podway-config/src/parser.rs:368-400 | on a tree without nulls both walkers accept alike with the same count, or give the same error with the same reported number |
| YamlVisitor.NullsSurvive | crates/podway-config/src/parser.rs:338-357 | the finished value passes the null check exactly when the tree holds no null |
| YamlVisitor.WalkersAdmitAlike | crates/podway-config/src/parser.rs:338-400 | the JSON walk with its null check accepts exactly the trees the YAML visit counts through, nulls or not |
| YamlAdmission.SignedSpelling | crates/podway-config/src/parser.rs:792-811 | the preflight passes an integer exactly when it is a signed 64-bit one |
| YamlAdmission.PreflightIsSigned | crates/podway-config/src/parser.rs:733-799 | a well-formed tree passes the preflight exactly when every number of its value is a signed 64-bit integer |
| YamlAdmission.AdmissionAgrees | crates/podway-config/src/parser.rs:249-293 | a tree is admitted by preflight and visit if and only if the JSON walk and null check admit it and every number is a signed 64-bit integer |
| YamlAdmission.TextAdmissionAgrees | crates/podway-config/src/parser.rs:97-122 | for every JSON text within the byte limit, its tree is admitted from YAML if and only if the text is decoded and no number of the value, all within [-2^63, 2^64-1], exceeds 2^63-1 |
| YamlAdmission.UnsignedIntegerIsRefused | crates/podway-config/src/parser.rs:792-799 | 2^63 is decoded from JSON and refused from YAML as a non-canonical number |
| CanonicalLength.StringAtMostSix | crates/podway-config/src/procedure_v2_budget.rs:7-11 | a printed string takes at most six bytes a character and two quotes |
| CanonicalLength.AddFieldLength | crates/podway-protocol/build_support.rs:39-53 | setting a member lengthens canonical text by at most the member and a separator, and a new member by exactly that, wherever its key sorts |
| CanonicalLength.RemoveFieldLength | crates/podway-config/src/procedure_v2_delegation_package.rs:225-269 | removing a member never lengthens canonical text |
| CanonicalLength.ObjectLength | crates/podway-protocol/build_support.rs:39-53 | the length of an object is a sum over its members in any order |
| DelegationPackage.ValidateDelegationPackageBudget | crates/podway-config/src/procedure_v2_delegation_package.rs:29-74 | the nested loops return the first refusal in placement order, or pass |
| DelegationPackage.ChargePlacement | crates/podway-config/src/procedure_v2_delegation_package.rs:39-62 | the accumulated charge of one placement is the specified one |
| DelegationAdmission.ReferencesChargeIsExact | crates/podway-config/src/procedure_v2_delegation_package.rs:51-62 | the charge of references exists exactly when every reference counts, and is the exact sum capped once |
| DelegationAdmission.ItemValueLength | crates/podway-config/src/procedure_v2_delegation_package.rs:90-116 | every projected item fits in 285 bytes, well within the 400 reserved |
| DelegationAdmission.EvidenceLength | crates/podway-config/src/procedure_v2_delegation_package.rs:291-368 | every accepted piece of evidence fits the reserve of its reference and items |
| DelegationAdmission.PackageLength | crates/podway-config/src/procedure_v2_delegation_package.rs:251-277 | everything but the action and the evidence fits the fixed reserve |
| DelegationAdmission.AdmissionIsSound | crates/podway-config/src/procedure_v2_delegation_package.rs:19-74 | once admission has passed, every package that can be projected is no longer than its placement's charge and within the limit |
| DelegationAdmission.AdmissionAdmits | crates/podway-config/src/procedure_v2_delegation_package.rs:29-74 | a Procedure is admitted if and only if every delegated placement has its definition, all its references count, and definition, fixed reserve and exact reference reserves together are within the limit |
| AdmissionRefusal.PlacementRefused | crates/podway-config/src/procedure_v2_delegation_package.rs:39-72 | a placement is refused with an error if and only if its definition or the items of a reference cannot be found, or its definition, 53,000 bytes, 1,500 for every reference and 400 for every item are more than 950,000 |
| AdmissionRefusal.AdmissionRefused | crates/podway-config/src/procedure_v2_delegation_package.rs:29-74 | admission fails with an error if and only if it is the error of the first delegated placement that is refused |
| DelegationBinding.PackageIntegers | crates/podway-config/src/procedure_v2_delegation_package.rs:251-269 | every package can be canonicalized |
| DelegationBinding.EvidenceAccepts | crates/podway-config/src/procedure_v2_delegation_package.rs:291-368 | evidence is accepted if and only if it answers its selector: same items in the same order, at most 128, values only from a resolved source and of the declared type, attempt numbers from one |
| DelegationBinding.PackageAccepts | crates/podway-config/src/procedure_v2_delegation_package.rs:181-250 | a package can be built if and only if a goal comes with goal tracking, the placement delegates a known action, and the evidence answers the declared references one by one |
| PackageContents.EvidenceFits | crates/podway-config/src/procedure_v2_delegation_package.rs:291-368 | the same said about items: every requested one in order, or every declared one, found once in the source definition with the declared type |
| PackageContents.PackageSays | crates/podway-config/src/procedure_v2_delegation_package.rs:180-289 | what stands under every name of a package, of its action, goal, delegation and evidence, and that there is no other name, from the Procedure and the input |
| PackageContents.PackageRefused | crates/podway-config/src/procedure_v2_delegation_package.rs:182-368 | a package is refused with an error if and only if it is the first that applies: a goal without goal tracking, a placement that is no action or is missing, no delegation, a definition that is missing or no action, the number of pieces of evidence, the first piece that does not fit |
| PackageContents.PreimageSays | crates/podway-config/src/procedure_v2_delegation_package.rs:277-281 | the digest is taken over `podway.delegation-work-package/v1`, a newline and the canonical text |
| DelegationBinding.ProjectDelegationWorkPackage | crates/podway-config/src/procedure_v2_delegation_package.rs:181-289 | returns the package with its canonical text and digest preimage, or the first error; after a passed admission the length test never fails; PackageContents says what is in the package |
| DelegationBinding.EvidenceBinds | crates/podway-config/src/procedure_v2_delegation_package.rs:291-368 | equal evidence values come from equal frozen evidence, resolution kind and every item state included |
| DelegationBinding.PackageBindsInput | crates/podway-config/src/procedure_v2_delegation_package.rs:181-289 | for one Procedure, inputs with equal canonical package bytes are equal in every field |
| DelegationBinding.SmallestProcedureIsAdmitted | crates/podway-config/src/procedure_v2_delegation_package.rs:29-74 | the smallest delegated Procedure is admitted and every attempt on it gets a package, so the two theorems above speak of something |
| Saturation.AddIsExact | crates/podway-config/src/procedure_v2_budget.rs:807-809 | saturating addition of capped sums is the capped exact sum |
| Saturation.AccumulatedIsExact | crates/podway-config/src/procedure_v2_budget.rs:706-809 | however many prices are added, saturating after every addition is capping the exact sum once |
| Saturation.OrderDoesNotMatter | crates/podway-config/src/procedure_v2_budget.rs:706-809 | the same prices in any order accumulate to the same charge |
| NextBudget.OverrunIsExact | crates/podway-config/src/procedure_v2_budget.rs:257-259 | for any budget below the largest `u64`, testing the saturated total is testing the exact total |
| NextBudget.PinnedCharges | crates/podway-config/src/procedure_v2_budget.rs:706-805 | the fixed shapes cost 2,206, 1,600, 5,628, 14,538, 29,118 and 262,186 |
| EvidenceBudget.EvidenceChargesFor | crates/podway-config/src/procedure_v2_budget.rs:602-704 | the accumulated charges are the exact sums over the references, capped once, or the fail-closed maximum |
| Procedure.FoundIsFirst | crates/podway-config/src/procedure_v2_budget.rs:622-640 | a lookup by identifier gives the first match, and nothing exactly when there is none |
| EvidenceBudget.ResolveReference | crates/podway-config/src/procedure_v2_budget.rs:621-680 | success reads the first placement of the source, the first definition it uses and, item by item, the first one with each selected identifier, or all items if none is selected; failure is exactly a missing placement, definition or selected item |
| EvidenceBudget.ResolveMeans | crates/podway-config/src/procedure_v2_budget.rs:621-680 | the same of the specification the charges are summed with |
| EvidenceBudget.CollectSelected | crates/podway-config/src/procedure_v2_budget.rs:659-677 | the i-th item is the first one with the i-th identifier, and the collection fails exactly when some identifier has no item |
| EvidenceBudget.AddItemCharges | crates/podway-config/src/procedure_v2_budget.rs:682-684 | the loop adds the exact item charges, capped |
| BudgetTheorems.DecisionRecordAdmission | crates/podway-config/src/procedure_v2_budget.rs:602-704 | with at most eight references the record allocation admits a placement if and only if every reference resolves and no source assesses the goal, or the only decision source is one that does |
| BudgetTheorems.TwoPlainDecisionsFit | crates/podway-config/src/procedure_v2_budget.rs:26-30 | a placement that reads back two plain decisions costs 58,236 bytes and fits |
| BudgetTheorems.ReadbackItemBound | crates/podway-config/src/procedure_v2_budget.rs:726-744 | item metadata costs 1,425 less six for every character its type name is shorter than `check_result` |
| BudgetTheorems.RecordCeilingImpliesByteBudget | crates/podway-config/src/procedure_v2_budget.rs:602-744 | at most eight references and 128 records of any kinds fit the metadata allocation |
| BudgetTheorems.PreviewsAlwaysFit | crates/podway-config/src/procedure_v2_budget.rs:694-704 | previews and tokens fit their allocations for exactly the placements whose references resolve |
| BudgetTheorems.PreviewCharges | crates/podway-config/src/procedure_v2_budget.rs:659-704 | preview and token charges depend only on how many items are selected by name, up to 32 slots |
| BudgetTheorems.UnresolvedFailsClosed | crates/podway-config/src/procedure_v2_budget.rs:602-704 | a reference that does not resolve overruns every allocation |
| BudgetTheorems.FrameTestIsExact | crates/podway-config/src/procedure_v2_budget.rs:161-169 | the saturated total is the exact total capped, so the frame test is exact |
| BudgetTheorems.ObservationTestIsExact | crates/podway-config/src/procedure_v2_budget.rs:171-189 | the same for the observation, which carries the counters twice |
| BudgetTheorems.LocalMaximaSpanFrame | crates/podway-config/src/procedure_v2_budget.rs:1041-1059 | the five allocations and the reserve are the frame, so all maxima with any counter are refused |
| EvidenceNumbers.ChargesInNumbers | crates/podway-config/src/procedure_v2_budget.rs:602-704 | counted from what the references read: 29,118 or 262,186 a decision, 4,476 a reference, 1,353 and six a letter of its type an item, 5,628 and 1,600 for each of at most 32 items selected by name |
| BudgetNumbers.ObservableInNumbers | crates/podway-config/src/procedure_v2_budget.rs:176-189 | a placement passes the observation test if and only if its content, twice its counters, 32,768 and 8,192 for a delegation are within 786,432 |
| BudgetNumbers.FrameableInNumbers | crates/podway-config/src/procedure_v2_budget.rs:161-169 | and the frame tests if and only if static content, records, items and total are within 262,144, 270,336, 128 and 999,424 |
| BudgetNumbers.ProjectedInNumbers | crates/podway-engine/src/v2_read_service.rs:3293-3335 | a projected value is charged 20 a scalar, six a character, eight more an element or a member |
| TariffCoverage.TariffCovers | crates/podway-config/src/procedure_v2_budget.rs:7-11 | for every JSON tree whose numbers are 64-bit integers, with field names of at most 58 escaped bytes, compact text is no longer than six a character, 64 a field, 8 an element and its own two delimiters |
| TariffCoverage.LongerNamesAreNotCovered | crates/podway-config/src/procedure_v2_budget.rs:7-11 | any two fields with plain names of 59 characters outgrow their price, so 58 is exact |
| TariffCoverage.MergePrice | crates/podway-config/src/procedure_v2_budget.rs:807-833 | putting two groups of fields together costs at most both |
| TariffInstances.Suggestion | crates/podway-config/src/procedure_v2_budget.rs:575-589 | the accumulated charge is the saturated price of the printed suggestion and its place in the array, for any arguments |
| TariffInstances.SuggestionCovered | crates/podway-engine/src/v2_read_service.rs:2249-2294 | the printed suggestion and its separator never exceed the unsaturated charge |
| TariffInstances.CriterionResultCovered | crates/podway-config/src/procedure_v2_budget.rs:797-805 | every valid criterion result, `not_applicable` included, prints within the charge |
| TariffInstances.CriterionResultPrints | crates/podway-config/src/procedure_v2_budget.rs:797-805 | every result with at most four citations, valid or not, prints within the charge with its separator |
| TariffInstances.CitingInapplicableIsPricedHigher | crates/podway-core/src/goal_record_v2.rs:257-261 | a `not_applicable` result with four citations, which is refused, would be priced 18 higher than is charged |
| DecisionRecordSize.ResultsCost | crates/podway-core/src/goal_record_v2.rs:436-500 | the mode's name and the results of a homogeneous assessment together stay within the charge for `assessment` and sixteen criteria |
| DecisionRecordSize.SnapshotCosts | crates/podway-engine/src/v2_read_service.rs:3908-3946 | every reference snapshot, `unresolved` included, stays within the charge for a resolved one |
| DecisionRecordSize.DecisionRecordCovered | crates/podway-engine/src/v2_read_service.rs:3833-3906 | every decision record, with or without an assessment, prints within the charge of its kind, its field name and separator included |
| ReadbackSize.ProjectedCovers | crates/podway-engine/src/v2_read_service.rs:3286-3330 | for every value with 64-bit integers and any names, compact text is within the preview charge and two delimiters |
| ReadbackSize.ListPreviewEnd | crates/podway-engine/src/v2_read_service.rs:3224-3234 | the loop finds the longest run of whole entries that fits one preview slot |
| ReadbackSize.PreviewEndIsUnique | crates/podway-engine/src/v2_read_service.rs:3224-3234 | there is only one such run |
| ReadbackSize.PayloadFits | crates/podway-engine/src/v2_read_service.rs:3204-3284 | every preview payload, of text, list, check result or whole value, fits its slot and two delimiters |
| ReadbackSize.PrintItems | crates/podway-engine/src/v2_read_service.rs:3070-3150 | the first items in order that earn a preview get one while a slot is left, each preview takes one slot, and only items selected by name get one |
| ReadbackSize.PrintReadbacks | crates/podway-engine/src/v2_read_service.rs:3000-3023 | all readbacks of one response share 32 slots in order: a group gets previews for exactly its first items that earn one and that the groups before it left a slot for |
| EvidenceSurface.ReferenceFits | crates/podway-engine/src/v2_read_service.rs:2956-3178 | the metadata and the readback of one reference, stale or not and with or without a title, with previews, tokens and record, fit two metadata charges, the item array, the item charges, the record charge and a slot for every preview |
| EvidenceSurface.EvidenceSurfaceFits | crates/podway-config/src/procedure_v2_budget.rs:602-704 | both evidence fields of a response that shows at most 32 previews stay within the exact charges of the placement |
| EvidenceSurface.AdmittedSurfaceFits | crates/podway-config/src/procedure_v2_budget.rs:26-57 | with at most 32 previews, a placement that passes its record and metadata allocations prints no more evidence than the four allocations hold |
| EvidenceSurface.PreviewsAreShared | crates/podway-engine/src/v2_read_service.rs:3004-3023 | the readbacks of a response show as many previews as were handed out |
| EvidenceSurface.PrintEvidence | crates/podway-engine/src/v2_read_service.rs:3004-3178 | from whatever a session recorded: every item is printed, the first 32 that earn a preview with one, and both evidence fields stay within the exact charges of the placement and, if it passes its allocations, within 720 KiB |
| EvidenceContents.ReferenceSays | crates/podway-engine/src/v2_read_service.rs:2956-3002 | what stands under every name of the metadata of a reference |
| EvidenceContents.PrintedSays | crates/podway-engine/src/v2_read_service.rs:3070-3178 | what stands under every name of a printed item, and of its preview if it has one: the longest run of characters or entries that fits, or the value |
| EvidenceContents.RecordSays | crates/podway-engine/src/v2_read_service.rs:3833-3946 | what stands under every name of a decision record, its snapshots, actor and assessment included |
| EvidenceContents.ReadbackSays | crates/podway-engine/src/v2_read_service.rs:3033-3178 | what stands under every name of a readback |
| EvidenceSurface.SurfaceBytes | crates/podway-engine/src/v2_read_service.rs:2956-3178 | the evidence prints at most 3,185 bytes a reference, 529 an item, 6,139 a preview and its record charges, while its metadata is charged at least 4,476 a reference and 1,377 an item |
| GraphCounters.MaximumGraphCounterArrayBytes | crates/podway-core/src/procedure_v2/limits.rs:121-137 | the saturating loop yields the exact bound capped once |
| GraphCounters.CounterArrayFits | crates/podway-engine/src/v2_read_service.rs:2664-2677 | the printed counter array never exceeds the bound and attains it exactly when every count has twenty digits |
| StaticGuidance.AddGuards | crates/podway-config/src/procedure_v2_budget.rs:458-489 | the loop adds the exact price of every authored guard, capped |
| StaticGuidance.AddOptionStatuses | crates/podway-config/src/procedure_v2_budget.rs:491-561 | the nested loops add the exact price of one status for every option and predicate, capped |
| StaticGuidance.AddSuggestions | crates/podway-config/src/procedure_v2_budget.rs:381-452 | the exact price of a suggestion for every required item, every route and a retry, capped |
| StaticGuidance.NextStaticCharge | crates/podway-config/src/procedure_v2_budget.rs:261-379 | the accumulated static charge is the exact sum of the prices of all static members, capped once; StaticIncrements says what each member adds |
| StaticIncrements.BareAction | crates/podway-config/src/procedure_v2_budget.rs:261-379 | an action with nothing but title and intent is charged 2,966 and six a character of them |
| StaticIncrements.BareDecision | crates/podway-config/src/procedure_v2_budget.rs:261-379 | a decision without options 2,826 and six a character of title, objective and prompt |
| StaticIncrements.ItemAdds | crates/podway-config/src/procedure_v2_budget.rs:381-456 | one more item adds the listing and the suggestion of a required item, by its type, and nothing if it is not required |
| StaticIncrements.ReworkTargetAdds | crates/podway-config/src/procedure_v2_budget.rs:261-379 | one more rework target adds eight and six a character |
| StaticIncrements.DelegationAdds | crates/podway-config/src/procedure_v2_budget.rs:261-379 | delegation adds 8,192 |
| StaticIncrements.DescriptionAdds | crates/podway-config/src/procedure_v2_budget.rs:261-379 | a description adds 64 and six a character |
| StaticIncrements.InstructionAdds | crates/podway-config/src/procedure_v2_budget.rs:261-379 | one more instruction adds eight and six a character |
| StaticIncrements.TargetAdds | crates/podway-config/src/procedure_v2_budget.rs:261-379 | an outgoing target adds six a character in place of four for none |
| StaticIncrements.SkipAdds | crates/podway-config/src/procedure_v2_budget.rs:261-452 | a skip policy adds 585, suggestion included |
| StaticIncrements.ReasonPromptAdds | crates/podway-config/src/procedure_v2_budget.rs:261-379 | a reason prompt adds 64 and six a character |
| StaticIncrements.GuidanceAdds | crates/podway-config/src/procedure_v2_budget.rs:261-379 | one more guidance text adds eight and six a character, and the first one a field |
| StaticIncrements.OptionAdds | crates/podway-config/src/procedure_v2_budget.rs:261-452 | one more option without guards adds 628, eighteen a character of its identifier, six a character of its label, its criteria, and a status if another option has guards |
| StaticIncrements.GuardsAdd | crates/podway-config/src/procedure_v2_budget.rs:458-506 | an empty guard list adds 64, and the first one a status for every option |
| StaticIncrements.GuardAdds | crates/podway-config/src/procedure_v2_budget.rs:458-573 | one more guard adds what its source and operator cost as authored and as a status |
| StaticIncrements.InventoryCosts | crates/podway-config/src/procedure_v2_budget.rs:261-379 | the command inventory costs 1,638 |
| StaticPrint.KeptCosts | crates/podway-engine/src/v2_read_service.rs:2701-2723 | leaving out identifiers never costs more |
| StaticPrint.GuardCosts | crates/podway-engine/src/v2_read_service.rs:2373-2395 | an authored guard as it is printed costs at most its charge |
| StaticPrint.OptionCosts | crates/podway-engine/src/v2_read_service.rs:1209-1232 | so does an option with its criteria and guards |
| StaticPrint.StatusCosts | crates/podway-engine/src/v2_read_service.rs:2397-2469 | so does the status of a guard, whatever scalar of its kind or count it found and however it evaluated |
| StaticMembers.OptionStatusesCost | crates/podway-engine/src/v2_read_service.rs:2097-2135 | the statuses of all options cost at most their charge in every session |
| StaticMembers.MissingCost | crates/podway-engine/src/v2_read_service.rs:1630-1641 | whichever required items are missing, listing them costs at most what all required items are charged |
| StaticMembers.DispositionCosts | crates/podway-engine/src/v2_read_service.rs:2679-2699 | where an action leads and how it may be skipped costs at most its charge |
| StaticMembers.ContentCosts | crates/podway-engine/src/v2_read_service.rs:1133-1255 | in every session, all static members but the commands together cost at most what the placement is charged for them |
| StaticContents.GuardSays | crates/podway-engine/src/v2_read_service.rs:2373-2395 | what stands under every name of an authored guard |
| StaticContents.OptionSays | crates/podway-engine/src/v2_read_service.rs:1209-1232 | the same for an option |
| StaticContents.StatusSays | crates/podway-engine/src/v2_read_service.rs:2397-2469 | the same for the status of a guard, by its operator and what was found |
| StaticContents.ContentSays | crates/podway-engine/src/v2_read_service.rs:1133-1255 | the same for all static members but the commands: which items are missing, which options are open and which targets are left, each picked in order |
| Suggestions.Suggest | crates/podway-engine/src/v2_read_service.rs:2249-2330 | pushes the suggestions in the source's order, cuts them at 128, and their bytes stay within their charge and 3,512 |
| SuggestionContents.SuggestionsSay | crates/podway-engine/src/v2_read_service.rs:2249-2330 | command, arguments and item of every suggestion, in order: check results, missing items, routes, skip, retry and goal commands, each exactly when it applies |
| Suggestions.SuggestionsFit | crates/podway-config/src/procedure_v2_budget.rs:381-452 | for every placement and session, the suggestions print within their charge and what goal commands and an optional check result add |
| Suggestions.ActionsFit | crates/podway-engine/src/v2_read_service.rs:2137-2225 | any distinct allowed commands, `item.record_many` included, print within the charge of the inventory, which leaves it out |
| RuntimeMembers.MergeLength | crates/podway-engine/src/v2_read_service.rs:1115-1262 | an object with the members of two prints no longer than both |
| RuntimeMembers.DisplayedGoalLength | crates/podway-engine/src/v2_read_service.rs:2765-2858 | every goal with its statuses, mode and outcome prints in at most 36,990 bytes |
| RuntimeMembers.BlockerWindow | crates/podway-engine/src/v2_read_service.rs:1999-2021 | the loop shows the longest prefix of the blockers whose array prints in 49,152 bytes and says whether it was cut |
| RuntimeMembers.DelegationLength | crates/podway-engine/src/v2_read_service.rs:149-193 | the delegation projection in every state, with any receipt, prints within its charge |
| RuntimeMembers.SessionMembersLength | crates/podway-engine/src/v2_read_service.rs:1123-1193 | everything else a session prints takes at most 87,200 bytes |
| SessionContents.GoalMembersSay | crates/podway-engine/src/v2_read_service.rs:2765-2858 | what stands under the goal members, by the state of the goal |
| SessionContents.PlaceOf | crates/podway-engine/src/v2_read_service.rs:1554-1593 | what stands under schema, identity, node, attempt and readiness |
| SessionContents.BlockersSay | crates/podway-engine/src/v2_read_service.rs:1999-2021 | what stands under every name of a blocker |
| SessionContents.CountersSay | crates/podway-engine/src/v2_read_service.rs:2664-2677 | what stands under every name of a counter |
| SessionContents.DelegationSays | crates/podway-engine/src/v2_read_service.rs:149-193 | the words and the receipt of every delegation state |
| NextResponse.PlacementCharges | crates/podway-config/src/procedure_v2_budget.rs:208-255 | the budget of a placement is the exact static, evidence and counter charges, each capped once, or the fail-closed maximum |
| NextResponse.ResultBytes | crates/podway-engine/src/v2_read_service.rs:1115-1262 | the whole result prints within its static, counter and record charges, its references, items and previews, and 90,760 bytes |
| NextResponse.ObservedResultFits | crates/podway-config/src/procedure_v2_vet.rs:460-480 | if the placement passes the observation test, the whole result prints in at most 1,041,000 bytes in every session, 7 KiB below the frame |
| NextResponse.FramedResultFits | crates/podway-config/src/procedure_v2_vet.rs:438-458 | so does, within 1,042,000 bytes, a placement with at most eight references in a graph of at most 1,024 nodes that passes its static, record and item limits and the aggregate test |
| ResultContents.ResultSays | crates/podway-engine/src/v2_read_service.rs:1115-1262 | every member of the result says what the session holds, and there is no other member |
| NextProjection.ProjectNext | crates/podway-engine/src/v2_read_service.rs:1115-1262 | from the state of any session: what stands under every name of the result (node, attempt, readiness, goal, delegation, counters, references, readback with its 32 slots in order, the longest blocker window, suggestions, true totals and cuts), in a result that fits the frame if the placement passed the observation test |
| Calendar.EraIsFloor | crates/podway-cli/src/command.rs:1547-1548 | with the correction for negative days, truncating division rounds down |
| Calendar.YearIsFound | crates/podway-cli/src/command.rs:1549-1553 | the closed form finds the year and day of year of every day of an era |
| Calendar.DateOfEveryDay | crates/podway-cli/src/command.rs:1546-1558 | every day number, negative ones included, gives a valid date, and the protocol's inverse gives the number back |
| Calendar.DayOfEveryDate | crates/podway-protocol/src/lib.rs:314-327 | every valid date is the date of its day number |
| Calendar.SuccessorDay | crates/podway-cli/src/command.rs:1546-1558 | consecutive day numbers give consecutive Gregorian dates, in order |
| Calendar.ClosedFormIsCalendar | crates/podway-cli/src/command.rs:1546-1558 | the closed form equals stepping day by day from 1970-01-01, forwards and backwards |
| Calendar.DatesKeepOrder | crates/podway-cli/src/command.rs:1546-1558 | later day numbers give later dates |
| Calendar.OnlyTheShiftOverflows | crates/podway-cli/src/command.rs:1546-1558 | for an `i64` day number every intermediate value of the computation fits `i64` if and only if the first addition does |
| Calendar.LastDayOverflows | crates/podway-cli/src/command.rs:1546-1547 | the largest `i64` day number overflows and the smallest does not |
| Timestamps.GeneratedAtDomain | crates/podway-cli/src/command.rs:1517-1544 | the CLI accepts exactly the clock values from the epoch to the end of the year 9999 and names what else is wrong |
| Timestamps.ProtocolDateAgrees | crates/podway-protocol/src/lib.rs:292-304 | for every day from the epoch on, the date the protocol computes, without a case for negative days, is the date the CLI computes |
| Timestamps.PrintersOfInstantsAgree | crates/podway-protocol/src/lib.rs:288-311 | the constructor of the protocol accepts the same instants, by the form of its text alone, and prints the text of the CLI |
| Timestamps.FormatReads | crates/podway-protocol/src/lib.rs:1032-1072 | a printed stamp passes validation and its fields read back |
| Timestamps.FormatOfFields | crates/podway-protocol/src/lib.rs:1032-1084 | a valid timestamp is the one text of its fields |
| Timestamps.InstantRoundTrips | crates/podway-protocol/src/lib.rs:314-331 | reading a printed instant gives the instant |
| Timestamps.TextRoundTrips | crates/podway-protocol/src/lib.rs:314-331 | a valid timestamp reads as an instant exactly from 1970 on, and that instant prints the same text |
| Timestamps.TimestampsKeepOrder | crates/podway-cli/src/command.rs:1517-1558 | texts the CLI prints sort by bytes as their milliseconds do, and only equal milliseconds share a text |
| TimestampLayout.AcceptedTexts | crates/podway-protocol/src/lib.rs:1032-1084 | the protocol accepts exactly the texts with digits, dashes, `T`, colons, dot and `Z` at their places and a month, a day the month has, and a time of day in them |
| TimestampLayout.InstantPrints | crates/podway-protocol/src/lib.rs:288-311 | every instant up to the end of the year 9999 prints the date found by turning one page a day from 1970-01-01, then hour, minute, second and milliseconds, at their places |
| TimestampLayout.ClockPrints | crates/podway-cli/src/command.rs:1517-1544 | the CLI prints a clock reading as the protocol prints its whole milliseconds |
| ExactRun.ScanAppend | tools/run_e2e.py:64-76 | reading in two parts is reading at once: an unfinished line carries over and a failure is final |
| ExactRun.DrainLines | tools/run_e2e.py:65-76 | the inner loop reads every complete line as the whole-stream scan does |
| ExactRun.ReadBlocks | tools/run_e2e.py:54-76 | for any blocks the outcome is that of scanning the whole stream: same lines, same results, same failure; with blocks as requested at most 131,072 bytes are pending |
| ExactRun.LinesRebuild | tools/run_e2e.py:65-66 | cutting into lines loses nothing and leaves no newline inside a line |
| ExactRun.ScanAccepts | tools/run_e2e.py:65-76 | a stream is read to its end if and only if no line or tail is too long and at most one line is a result |
| ExactRun.FirstFailure | tools/run_e2e.py:67-76 | a failure is the first in the stream, and everything before it was printed and collected |
| ExactRun.RunExact | tools/run_e2e.py:46-94 | passes if and only if the exit code is zero and the stream holds one terminated result line, a passing one, and no line over the bound; a readable stream with another exit code ends with that code, a failed read with its failure |
| ExactRun.CutIsUnique | tools/run_e2e.py:65-66 | there is one way to cut a stream at its newline bytes, and the reader follows it |
| ExactRun.PassMeans | tools/run_e2e.py:65-94 | a pass means: no line and no rest over 65,536 bytes, exactly one terminated line that starts with `test result:`, and its stripped text a pass |
| ExactRun.PrintedMeans | tools/run_e2e.py:65-78 | a stream that is read to its end has every line printed, decoded and in order, and its rest left |
| ExactRun.RefusalMeans | tools/run_e2e.py:65-76 | a refusal means: everything before it is short and printed, and next comes a line or rest over 65,536 bytes, or the last line printed is the second result |
| ExactRun.UnterminatedResultIsNotCounted | tools/run_e2e.py:65-78 | the line `test result: ok` without its newline is a result line, stays pending, and no pass; with the newline it is one |
| PipeCapture.RequestIsPositive | tools/verify_dolgorae_connection.py:305 | every read asks for at least one byte and at most a block |
| PipeCapture.ReadKeepsInvariant | tools/verify_dolgorae_connection.py:303-316 | every read keeps prefix, limit, ceiling and end-of-stream invariants of both pipes |
| PipeCapture.ReadMakesProgress | tools/verify_dolgorae_connection.py:303-316 | every read of a registered pipe decreases a bounded measure |
| PipeCapture.BuffersArePrefixes | tools/verify_dolgorae_connection.py:291-316 | over every schedule each buffer is a prefix within its limit, and a complete stdout is the whole stream |
| PipeCapture.CeilingIsExact | tools/verify_dolgorae_connection.py:311-316 | a ceiling means exactly the limit kept and one byte more observed, on that pipe only |
| PipeCapture.CaptureVerdict | tools/verify_dolgorae_connection.py:298-316 | a run no deadline cuts short reports nothing if and only if both streams fit, and then has both whole |
| PipeCapture.CaptureInBytes | tools/verify_dolgorae_connection.py:291-316 | over every schedule: stdout kept up to 1,048,576 bytes and stderr up to 65,536, a ceiling exactly when one byte more was seen, no reason exactly when both pipes have ended |
| PipeCapture.EveryReportIsRead | tools/verify_dolgorae_connection.py:298-316 | every report of a ready pipe is read, in order, until the run ends, however reports are grouped into selections |
| PipeCapture.CeilingIsReachable | tools/verify_dolgorae_connection.py:298-316 | from any state a pipe that outgrows its ceiling is found out by some schedule |
| PipeCapture.ReasonDependsOnInterleaving | tools/verify_dolgorae_connection.py:298-316 | the reason is the same for all undisturbed runs unless both streams outgrow their ceilings, and then both reasons occur |
| PipeCapture.BothCeilingsOccur | tools/verify_dolgorae_connection.py:298-316 | with one byte too many on each pipe, either ceiling is reported by some schedule |
| PipeCapture.Capture.constructor | tools/verify_dolgorae_connection.py:291-297 | buffers empty, nothing observed, both pipes registered |
| PipeCapture.Capture.Read | tools/verify_dolgorae_connection.py:304-316 | one read changes buffers, counters, registration and reason as the state machine's step does |
| PipeCapture.Capture.ReadRound | tools/verify_dolgorae_connection.py:303-316 | one selection is read in order until a ceiling is found |
| PipeCapture.Capture.Drain | tools/verify_dolgorae_connection.py:298-316 | the loop ends in the state machine's final state for its schedule |

## Left out

- YAML text: the scanner, the preflight's refusal of aliases, anchors, tags, merge keys and number-like plain strings, and the deserializer below the visitor; the model starts at the decoded tree and asks the preflight about its numbers.
- Library internals of serde, serde_json and Python's json: their number, string and map behaviour is written out as specified, their error texts are not.
- Python texts with lone surrogates, Python's recursion limit and values that are not JSON.
- `canonicalize_json_v1` beyond its printer, and `verify_canonical_json_v1`, which rests on a second JSON reader.
- SHA-256: a digest is taken over the preimage bytes, which are modelled.
- The JSON of a node definition: a definition carries any object without floating-point numbers in its place.
- How static content is taken from a node definition: `StaticGuidance.Static` stands for it, beside the definitions of the Procedure model.
- Which items are missing, which options, targets and commands are open and how guards evaluate: they are parameters of a session's view, and the results hold for any of them.
- The envelope around a result, `session.observe`, and the other readers of a session.
- Engine, store, sessions, idempotent replay and delegation receipts.
- Deadlines, process groups, signals and cleanup: a deadline is the end of a schedule, and the runner's deadline is not modelled.
- `validate_direct_flags`, `validate_command_shape` and the other command-line checks, identifier and path checks, release and documentation scripts: they would only add easy members.
- CanonicalPrinters.AppendCanonicalJson: does not say what the buffer holds after a refusal, because the caller drops it.
- CanonicalPrinters.AppendCanonicalArray: the same.
- CanonicalPrinters.AppendCanonicalObject: the same.
- CanonicalPrinters.ExpectedCanonical: the same.
- CanonicalPrinters.ExpectedMembers: the same.
- CanonicalPrinters.SortBytewise: sorts a value instead of a vector in place; the algorithm of the standard library's sort is not modelled.
- JsonParser.JsonParser.CountNode: counts in unbounded integers; by JsonReader.CountWithinInput the count stays within the length of the input, so a machine counter does not overflow either, while the YAML side saturates and WalksAgree asks for limits below the maximum.
- JsonParser.JsonParser.Parse: the reason of an undecodable string is one constant, because its text comes from serde_json.
- ExactRun.RunExact: lossy decoding, stripping and the pattern of a passing result are parameters, so the statements hold for any of them.
- DecisionRecordSize.DecisionRecordCovered: asks only for what the bound needs of a valid assessment; outcome consistency and distinct identifiers are not needed.
- EvidenceSurface.EvidenceSurfaceFits: takes the bound on previews as given; EvidenceSurface.PrintEvidence establishes it. The text of a continuation token is any of at most 256 characters of base64url.
- EvidenceSurface.AdmittedSurfaceFits: the same.
- YamlAdmission.TextAdmissionAgrees: compares decoded trees; the rules on YAML text are not part of the model.
- ReadbackSize.PrintItems: takes the preview of each item as planned; that there is a plan exactly when the value earns one, and what it shows, is asked of its input.
- NextProjection.ProjectNext: takes the recorded values of a session as its state; the text of a continuation token and the digest of a value are any of their form.
- RuntimeMembers.BlockerWindow: starts from the blockers in order, newest first; the sort is the standard library's.
