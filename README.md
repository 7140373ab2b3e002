# Batch import of SNOMED CT concepts — a Dafny model

The authoring services import new SNOMED CT concepts from a spreadsheet (CSV)
in batches. Each row is turned into a concept and validated. Rows that fail
are recorded with a reason. The surviving concepts are arranged into a load
hierarchy, with a concept under the first parent that is also being imported.
The hierarchy is cut into batches, one authoring task per batch. Each concept
is then sent to the terminology server as a browser concept payload, and
per-row outcomes plus progress counters are kept for the user.

This project models that core in Dafny, in four parts:

- **The expression parser** (`expression.dfy`). `BatchImportExpression.parse`
  reads a human-readable post-coordinated expression such as
  `=== 64572001 |Disease| : { 363698007 |Finding site| = 39057004 }`. It
  first strips the pipe-delimited terms and spaces. It then reads the
  definition status, the `+`-separated focus concepts and the numbered
  attribute groups. The static methods that edit a `StringBuffer` in place
  are imperative methods on a `StringBuffer` class (`java_text.dfy`). Each is
  proved against a pure function that states its result.
- **The batch import service, in two versions.** The current
  `batchimport.api.service.BatchImportService` is `batch_service.dfy`. The
  older `single.api.rest … batchImport.service.BatchImportService` is
  `legacy_service.dfy`. Both sit on shared definitions: `import_common.dfy`
  (the hierarchy gate, batching, row ranges, synonyms, recording of outcomes),
  `import_run.dfy` (the run: its load hierarchy, stored as a parent-index
  arena, and its per-row outcomes) and `progress.dfy` (the status board
  behind `getBatchImportStatus`, `setTarget` and `incrementProgress`).
  Row screening, batching and loading the batches onto their tasks are
  specified by functions over the rows and batches (`PrepareAll`, `Batches`,
  `LoadedOntoTasks`). The service's loops are methods proved equal to
  them. Lemmas state what the functions promise:
  - every row ends up with an outcome;
  - rejected rows carry their reason;
  - batches keep every concept, in order, with whole subtrees;
  - every batch but the last holds at least "concepts per task" concepts;
  - loading stops at the first batch whose task cannot be created, with that
    exception, and touches no other import.
- **The SCTID check digit** (`verhoeff.dfy`). This is the published Verhoeff
  scheme that `validateSCTID` delegates to. A lemma proves that it catches
  every single-digit substitution.
- **The termserver scripting `Description`** (`description.dfy`). It is a
  class with mutable fields and setters, with Java's `String.hashCode`
  written out in 32-bit two's-complement arithmetic. Its `equals` compares
  hash codes (see Findings).

Remote collaborators are function-valued parameters (`Remote`): the
authoring-services client, the Snow Owl REST client and the row formatter
(`createConcept`). A call's outcome is whatever that parameter returns for
its arguments. `BatchImportGroup.parse`, which reads one attribute group,
is also a parameter (`GroupParser`). Its source is not part of this model.

## Model

| member | source | states |
|---|---|---|
| JavaText.ToLower | src/main/java/org/ihtsdo/snowowl/authoring/batchimport/api/service/BatchImportService.java:466-475 | ASCII lower-casing, as `toLowerCase` in a locale-neutral setting: each character through the ASCII lower-case table, so for ASCII input the length is kept |
| JavaText.ToLowerIdempotent | src/main/java/org/ihtsdo/snowowl/authoring/batchimport/api/service/BatchImportService.java:466-475 | lower-casing twice is the same as once |
| JavaText.FirstIndexOf | src/main/java/org/ihtsdo/snowowl/authoring/batchimport/api/pojo/batch/BatchImportExpression.java:161-170 | -1 exactly when no needle occurs from the start position, else the first needle position |
| JavaText.IndexOfString | src/main/java/org/ihtsdo/snowowl/authoring/batchimport/api/pojo/batch/BatchImportExpression.java:50-52 | `String.indexOf`: -1 when the text does not occur from `from`, else its first occurrence |
| JavaText.IndexOfStringAtStart | src/main/java/org/ihtsdo/snowowl/authoring/batchimport/api/pojo/batch/BatchImportExpression.java:50-55 | `indexOf(t) == 0` exactly when `t` is a prefix |
| JavaText.SplitAll | src/main/java/org/ihtsdo/snowowl/authoring/batchimport/api/pojo/batch/BatchImportExpression.java:73 | no piece holds the separator and every piece's characters come from the input |
| JavaText.DropTrailingEmpty | src/main/java/org/ihtsdo/snowowl/authoring/batchimport/api/pojo/batch/BatchImportExpression.java:73 | Java's `split` drops only trailing empty pieces |
| JavaText.Split | src/main/java/org/ihtsdo/snowowl/authoring/batchimport/api/pojo/batch/BatchImportExpression.java:73 | `String.split` pieces hold no separator and come from the input |
| JavaText.JoinSplitAll | src/main/java/org/ihtsdo/snowowl/authoring/batchimport/api/pojo/batch/BatchImportExpression.java:73 | joining the raw pieces with the separator gives the input back |
| JavaText.JoinSnoc | src/main/java/org/ihtsdo/snowowl/authoring/batchimport/api/pojo/batch/BatchImportExpression.java:73 | joining one more piece appends the separator and the piece |
| JavaText.JoinPrefixOfEmpties | src/main/java/org/ihtsdo/snowowl/authoring/batchimport/api/pojo/batch/BatchImportExpression.java:73 | dropping trailing empty pieces only loses separators at the end |
| JavaText.SplitRecovers | src/main/java/org/ihtsdo/snowowl/authoring/batchimport/api/pojo/batch/BatchImportExpression.java:73 | `split` loses nothing but trailing separators: re-joined pieces are a prefix and the rest is separators |
| JavaText.NatToString | src/main/java/org/ihtsdo/snowowl/authoring/batchimport/api/service/BatchImportService.java:339 | decimal rendering: non-empty, all digits, no leading zero |
| JavaText.NatToStringRoundTrip | src/main/java/org/ihtsdo/snowowl/authoring/batchimport/api/service/BatchImportService.java:339 | reading the rendering back gives the number |
| JavaText.LongToStringParses | src/main/java/org/ihtsdo/snowowl/authoring/batchimport/api/service/BatchImportService.java:152-157 | the decimal rendering of any long passes the `Long.parseLong` parent check |
| JavaText.StringBuffer.constructor | src/main/java/org/ihtsdo/snowowl/authoring/batchimport/api/pojo/batch/BatchImportExpression.java:39 | the buffer holds the given text |
| JavaText.StringBuffer.Delete | src/main/java/org/ihtsdo/snowowl/authoring/batchimport/api/pojo/batch/BatchImportExpression.java:78 | `delete(start, end)` removes the clamped range and keeps the rest |
| JavaText.StringBuffer.DeleteCharAt | src/main/java/org/ihtsdo/snowowl/authoring/batchimport/api/pojo/batch/BatchImportExpression.java:89 | `deleteCharAt(i)` removes exactly position i |
| BatchImportExpression.IndexOf | src/main/java/org/ihtsdo/snowowl/authoring/batchimport/api/pojo/batch/BatchImportExpression.java:161-170 | the first position from `startFrom` holding one of the needles, or -1; no needle occurs before it |
| BatchImportExpression.Without | src/main/java/org/ihtsdo/snowowl/authoring/batchimport/api/pojo/batch/BatchImportExpression.java:151-159 | the result never contains the removed character and only keeps characters of the input |
| BatchImportExpression.WithoutAppend | src/main/java/org/ihtsdo/snowowl/authoring/batchimport/api/pojo/batch/BatchImportExpression.java:151-159 | removing a character distributes over concatenation |
| BatchImportExpression.WithoutAbsent | src/main/java/org/ihtsdo/snowowl/authoring/batchimport/api/pojo/batch/BatchImportExpression.java:151-159 | removing an absent character changes nothing |
| BatchImportExpression.Remove | src/main/java/org/ihtsdo/snowowl/authoring/batchimport/api/pojo/batch/BatchImportExpression.java:151-159 | the buffer afterwards is its old text with every occurrence of the needle removed |
| BatchImportExpression.FindEndOfTerm | src/main/java/org/ihtsdo/snowowl/authoring/batchimport/api/pojo/batch/BatchImportExpression.java:131-149 | the term's end lies after the search start; the error is the out-of-range `substring` of a comma near the end |
| BatchImportExpression.FindEndOfTermSkipsOnlyCommas | src/main/java/org/ihtsdo/snowowl/authoring/batchimport/api/pojo/batch/BatchImportExpression.java:131-149 | inside a term the only terminators skipped are commas, apart from the closing pipe, and every skipped comma is followed by four characters that are not all digits or spaces |
| BatchImportExpression.FindEndOfTermStops | src/main/java/org/ihtsdo/snowowl/authoring/batchimport/api/pojo/batch/BatchImportExpression.java:131-149 | the scan stops just after a closing pipe, or at a non-pipe terminator; when that terminator is a comma, the four characters after it are all digits or spaces |
| BatchImportExpression.NumericSpaceBetweenIsSubstring | src/main/java/org/ihtsdo/snowowl/authoring/batchimport/api/pojo/batch/BatchImportExpression.java:142 | reading the four characters after a comma in place agrees with `isNumericSpace` of their substring |
| BatchImportExpression.FindEndOfTermStep | src/main/java/org/ihtsdo/snowowl/authoring/batchimport/api/pojo/batch/BatchImportExpression.java:132-148 | one step of the scan: the next terminator after the search start, and where the term ends for a pipe, another terminator, a comma before an attribute and a comma inside a term |
| BatchImportExpression.FindEndOfTermFails | src/main/java/org/ihtsdo/snowowl/authoring/batchimport/api/pojo/batch/BatchImportExpression.java:131-149 | the scan fails only when a comma is followed by fewer than four characters |
| BatchImportExpression.StripTerms | src/main/java/org/ihtsdo/snowowl/authoring/batchimport/api/pojo/batch/BatchImportExpression.java:121-129 | stripping leaves no pipe and never lengthens the text; a text without pipes is unchanged |
| BatchImportExpression.MachineReadable | src/main/java/org/ihtsdo/snowowl/authoring/batchimport/api/pojo/batch/BatchImportExpression.java:121-129 | the machine-readable form holds no pipe and no space; without pipes only spaces are removed |
| BatchImportExpression.MakeMachineReadable | src/main/java/org/ihtsdo/snowowl/authoring/batchimport/api/pojo/batch/BatchImportExpression.java:121-129 | the buffer becomes the machine-readable form of its old text, or the failure is reported |
| BatchImportExpression.DefinitionStatusOf | src/main/java/org/ihtsdo/snowowl/authoring/batchimport/api/pojo/batch/BatchImportExpression.java:48-62 | fully defined exactly when the text starts with `===`, primitive exactly when it starts with `<<<`, else the exact error message |
| BatchImportExpression.ExtractDefinitionStatus | src/main/java/org/ihtsdo/snowowl/authoring/batchimport/api/pojo/batch/BatchImportExpression.java:48-62 | returns that status and deletes the three-character prefix; on error the buffer is untouched |
| BatchImportExpression.FocusEnd | src/main/java/org/ihtsdo/snowowl/authoring/batchimport/api/pojo/batch/BatchImportExpression.java:67-71 | the focus part ends at the first `:` or `{` |
| BatchImportExpression.FocusConceptsPartition | src/main/java/org/ihtsdo/snowowl/authoring/batchimport/api/pojo/batch/BatchImportExpression.java:64-80 | the text is exactly focus part, optional colon and refinement; focus pieces hold no `+`, `:` or `{` and re-join to a prefix of the focus part |
| BatchImportExpression.FocusPartsReassemble | src/main/java/org/ihtsdo/snowowl/authoring/batchimport/api/pojo/batch/BatchImportExpression.java:64-80 | focus part, removed colon and remaining refinement rebuild the input |
| BatchImportExpression.FocusPiecesClean | src/main/java/org/ihtsdo/snowowl/authoring/batchimport/api/pojo/batch/BatchImportExpression.java:64-80 | focus concepts contain no separator, colon or brace and lose nothing but trailing `+` |
| BatchImportExpression.ExtractFocusConcepts | src/main/java/org/ihtsdo/snowowl/authoring/batchimport/api/pojo/batch/BatchImportExpression.java:64-80 | returns the focus concepts and leaves only the refinement in the buffer |
| BatchImportExpression.Numbered | src/main/java/org/ihtsdo/snowowl/authoring/batchimport/api/pojo/batch/BatchImportExpression.java:92-95 | groups are numbered consecutively from the given first number |
| BatchImportExpression.SplitGroupsNumbering | src/main/java/org/ihtsdo/snowowl/authoring/batchimport/api/pojo/batch/BatchImportExpression.java:82-119 | bracketed groups are numbered from 1, and after an ungrouped part from 0; no group text holds a brace |
| BatchImportExpression.SplitGroupsFails | src/main/java/org/ihtsdo/snowowl/authoring/batchimport/api/pojo/batch/BatchImportExpression.java:96-117 | splitting fails exactly when the refinement starts with neither `{` nor a digit, or a leading ungrouped part is not followed by braces in order |
| BatchImportExpression.BracesFoundIn | src/main/java/org/ihtsdo/snowowl/authoring/batchimport/api/pojo/batch/BatchImportExpression.java:100-103 | `indexOf` finds a brace exactly when the text has one |
| BatchImportExpression.GroupsFollowUngroupedAtFirstBraces | src/main/java/org/ihtsdo/snowowl/authoring/batchimport/api/pojo/batch/BatchImportExpression.java:106-111 | the source's brace-position test holds exactly when a `{` comes before the first `}` |
| BatchImportExpression.GroupsFollowFirstOpen | src/main/java/org/ihtsdo/snowowl/authoring/batchimport/api/pojo/batch/BatchImportExpression.java:106-111 | braces in order mean groups follow the ungrouped part |
| BatchImportExpression.FirstBracesAround | src/main/java/org/ihtsdo/snowowl/authoring/batchimport/api/pojo/batch/BatchImportExpression.java:106-111 | a first `{` before any `}` is what `indexOf` reports |
| BatchImportExpression.ParseGroups | src/main/java/org/ihtsdo/snowowl/authoring/batchimport/api/pojo/batch/BatchImportExpression.java:92-95 | parsing all groups yields one group per text |
| BatchImportExpression.ParseGroupsOutcome | src/main/java/org/ihtsdo/snowowl/authoring/batchimport/api/pojo/batch/BatchImportExpression.java:92-95 | success means every group parsed, in order; failure is the first group's failure |
| BatchImportExpression.ParseGroupsDetermined | src/main/java/org/ihtsdo/snowowl/authoring/batchimport/api/pojo/batch/BatchImportExpression.java:92-95 | any result with that success/first-failure shape is the parse result |
| BatchImportExpression.ParseGroupsCons | src/main/java/org/ihtsdo/snowowl/authoring/batchimport/api/pojo/batch/BatchImportExpression.java:92-95 | parsing a leading group then the rest composes the results |
| BatchImportExpression.ParseGroupsFailsAt | src/main/java/org/ihtsdo/snowowl/authoring/batchimport/api/pojo/batch/BatchImportExpression.java:92-95 | the first failing group's error is the overall error |
| BatchImportExpression.RemoveThenDeleteFirst | src/main/java/org/ihtsdo/snowowl/authoring/batchimport/api/pojo/batch/BatchImportExpression.java:87-90 | removing `}` and then the leading `{` equals removing `}` from the tail |
| BatchImportExpression.ParseNumberedGroups | src/main/java/org/ihtsdo/snowowl/authoring/batchimport/api/pojo/batch/BatchImportExpression.java:92-95 | the loop returns the parse of the groups numbered from 1 |
| BatchImportExpression.ExtractGroups | src/main/java/org/ihtsdo/snowowl/authoring/batchimport/api/pojo/batch/BatchImportExpression.java:82-119 | the groups of the buffer's text, by the source's three cases, or the first failure |
| BatchImportExpression.GroupsOfBracketed | src/main/java/org/ihtsdo/snowowl/authoring/batchimport/api/pojo/batch/BatchImportExpression.java:87-95 | a refinement opening with `{` is split on `{` after removing `}`, groups numbered from 1 |
| BatchImportExpression.GroupsOfUngroupedOnly | src/main/java/org/ihtsdo/snowowl/authoring/batchimport/api/pojo/batch/BatchImportExpression.java:103-105 | a digit-led refinement without braces is the single group 0 |
| BatchImportExpression.GroupsOfUngroupedFirst | src/main/java/org/ihtsdo/snowowl/authoring/batchimport/api/pojo/batch/BatchImportExpression.java:106-111 | an ungrouped part before the first `{` is group 0, followed by the bracketed groups; either failure propagates |
| BatchImportExpression.ParseExpression | src/main/java/org/ihtsdo/snowowl/authoring/batchimport/api/pojo/batch/BatchImportExpression.java:37-46 | the method returns the parse of the expression |
| BatchImportExpression.ParseResult | src/main/java/org/ihtsdo/snowowl/authoring/batchimport/api/pojo/batch/BatchImportExpression.java:37-46 | a parsed expression's status matches the machine-readable prefix; focus concepts hold no pipe, space, `+`, `:` or `{` |
| Verhoeff.DigitsFromRight | src/main/java/org/ihtsdo/snowowl/authoring/batchimport/api/service/BatchImportService.java:172-179 | the identifier's digits, rightmost first |
| Verhoeff.Check | src/main/java/org/ihtsdo/snowowl/authoring/batchimport/api/service/BatchImportService.java:172-179 | the check answers only for a non-empty all-digit id, and accepts exactly when the permuted dihedral product is 0 |
| Verhoeff.IsAPasses | src/main/java/org/ihtsdo/snowowl/authoring/batchimport/api/service/BatchImportService.java:586-599 | the "is a" identifier 116680003 passes the check |
| Verhoeff.ChangedDigitFails | src/main/java/org/ihtsdo/snowowl/authoring/batchimport/api/service/BatchImportService.java:172-179 | changing its last digit fails the check |
| Verhoeff.MulKind | src/main/java/org/ihtsdo/snowowl/authoring/batchimport/api/service/BatchImportService.java:172-179 | a product is a rotation exactly when both factors are of the same kind |
| Verhoeff.MulCancelsLeft | src/main/java/org/ihtsdo/snowowl/authoring/batchimport/api/service/BatchImportService.java:172-179 | the group operation cancels on the left |
| Verhoeff.MulCancelsRight | src/main/java/org/ihtsdo/snowowl/authoring/batchimport/api/service/BatchImportService.java:172-179 | the group operation cancels on the right |
| Verhoeff.IterateInjective | src/main/java/org/ihtsdo/snowowl/authoring/batchimport/api/service/BatchImportService.java:172-179 | every power of the position permutation is injective |
| Verhoeff.ProductDetects | src/main/java/org/ihtsdo/snowowl/authoring/batchimport/api/service/BatchImportService.java:172-179 | two digit strings differing in exactly one position have different products |
| Verhoeff.ProductAgrees | src/main/java/org/ihtsdo/snowowl/authoring/batchimport/api/service/BatchImportService.java:172-179 | the product depends only on the digits it reads |
| Verhoeff.SingleSubstitutionDetected | src/main/java/org/ihtsdo/snowowl/authoring/batchimport/api/service/BatchImportService.java:172-179 | any single-digit change to a valid identifier is rejected |
| ImportCommon.ValidateSctid | src/main/java/org/ihtsdo/snowowl/authoring/batchimport/api/service/BatchImportService.java:172-179 | valid exactly when the check digit check answers true; its exceptions count as invalid |
| ImportCommon.ValidateSctidNeverFails | org.ihtsdo.snowowl.authoring.single.api.rest/src/main/java/org/ihtsdo/snowowl/authoring/single/api/batchImport/service/BatchImportService.java:196-203 | a null, empty or non-numeric id is invalid; the "is a" id is valid |
| Snomed.Terms | src/main/java/org/ihtsdo/snowowl/authoring/batchimport/api/service/BatchImportService.java:577-584 | the terms of the descriptions, in order |
| Snomed.LateralityIgnoresCase | src/main/java/org/ihtsdo/snowowl/authoring/batchimport/api/service/BatchImportService.java:463-475 | the laterality test reads the lower-cased FSN for "left" or "right" |
| Snomed.LateralizedExample | src/main/java/org/ihtsdo/snowowl/authoring/batchimport/api/service/BatchImportService.java:463-475 | "LEFT eye" is lateralized; "Eye" is not |
| Snomed.WithoutTemporaryIds | src/main/java/org/ihtsdo/snowowl/authoring/batchimport/api/service/BatchImportService.java:452-461 | every description and relationship id is cleared and nothing else changes |
| Snomed.WithoutTemporaryIdsIdempotent | src/main/java/org/ihtsdo/snowowl/authoring/batchimport/api/service/BatchImportService.java:452-461 | clearing twice is clearing once; no temporary id is left |
| ImportRun.Field | src/main/java/org/ihtsdo/snowowl/authoring/batchimport/api/service/BatchImportService.java:503-513 | reading a row field succeeds exactly for an index inside the row |
| ImportRun.ChildrenFrom | src/main/java/org/ihtsdo/snowowl/authoring/batchimport/api/service/BatchImportService.java:121 | the children of a concept, ascending, each exactly once |
| ImportRun.Descendants | src/main/java/org/ihtsdo/snowowl/authoring/batchimport/api/service/BatchImportService.java:82 | every descendant sits after its ancestor in the arena |
| ImportRun.DescendantsOf | src/main/java/org/ihtsdo/snowowl/authoring/batchimport/api/service/BatchImportService.java:290 | the descendants of the given children lie in the arena after their parent |
| ImportRun.Blocks | src/main/java/org/ihtsdo/snowowl/authoring/batchimport/api/service/BatchImportService.java:289-290 | one block per root child: the child followed by its descendants |
| ImportRun.RootChildrenAreTopLevel | src/main/java/org/ihtsdo/snowowl/authoring/batchimport/api/service/BatchImportService.java:121 | the root's children are exactly the concepts with no imported parent |
| ImportRun.LoadParent | src/main/java/org/ihtsdo/snowowl/authoring/batchimport/api/service/BatchImportService.java:105 | a concept hangs under the first imported concept whose SCTID is its first parent, else under the root |
| ImportRun.FindSctid | src/main/java/org/ihtsdo/snowowl/authoring/batchimport/api/service/BatchImportService.java:105 | the first concept with the SCTID from a position, or the root when none has it |
| ImportRun.Aborted | src/main/java/org/ihtsdo/snowowl/authoring/batchimport/api/service/BatchImportService.java:89 | `abortLoad`: every row without an outcome is failed as aborted, in row order; rows already decided keep their outcome (proved in AbortedDecidesEveryRow) |
| ImportRun.AbortedDecidesEveryRow | src/main/java/org/ihtsdo/snowowl/authoring/batchimport/api/service/BatchImportService.java:89 | aborting gives every row an outcome, keeps earlier outcomes, and marks the rest as aborted |
| ImportRun.InsertedParents | src/main/java/org/ihtsdo/snowowl/authoring/batchimport/api/service/BatchImportService.java:104-106 | inserting keeps every existing parent link and stays well formed |
| ImportRun.InsertedParentsSnoc | src/main/java/org/ihtsdo/snowowl/authoring/batchimport/api/service/BatchImportService.java:104-106 | one more insertion appends that concept's load parent |
| ImportRun.PrepareAll | src/main/java/org/ihtsdo/snowowl/authoring/batchimport/api/service/BatchImportService.java:97-114 | `prepareConcepts` over the rows: each row is accepted, failed with its reason, or stops preparation with its exception, and no row after that is screened (proved in the PrepareAll lemmas below) |
| ImportRun.PrepareAllStep | src/main/java/org/ihtsdo/snowowl/authoring/batchimport/api/service/BatchImportService.java:97-114 | screening one more row accepts, fails or aborts exactly as that row's screening says, and nothing after an abort |
| ImportRun.PrepareAllNeverAborts | src/main/java/org/ihtsdo/snowowl/authoring/batchimport/api/service/BatchImportService.java:97-114 | no row aborting means preparation never aborts |
| ImportRun.PrepareAllFailsRejected | src/main/java/org/ihtsdo/snowowl/authoring/batchimport/api/service/BatchImportService.java:97-114 | every rejected row is failed with its own reason |
| ImportRun.PrepareAllInsertsAccepted | src/main/java/org/ihtsdo/snowowl/authoring/batchimport/api/service/BatchImportService.java:97-114 | every accepted concept is inserted and its row gets no new outcome |
| ImportRun.PrepareAllAcceptsOnlyScreened | src/main/java/org/ihtsdo/snowowl/authoring/batchimport/api/service/BatchImportService.java:97-114 | only concepts some row screened as accepted are inserted |
| ImportRun.PrepareAllKeepsOtherRecords | src/main/java/org/ihtsdo/snowowl/authoring/batchimport/api/service/BatchImportService.java:97-114 | outcomes of records not among the rows are untouched |
| ImportRun.PrepareAllScreensEveryRow | src/main/java/org/ihtsdo/snowowl/authoring/batchimport/api/service/BatchImportService.java:97-114 | all of the above at once, for the service callers |
| ImportRun.PrepareAllAborts | org.ihtsdo.snowowl.authoring.single.api.rest/src/main/java/org/ihtsdo/snowowl/authoring/single/api/batchImport/service/BatchImportService.java:151-163 | preparation aborts exactly when some row aborts, with that row's error |
| ImportRun.PrepareAllStopsAtAbort | org.ihtsdo.snowowl.authoring.single.api.rest/src/main/java/org/ihtsdo/snowowl/authoring/single/api/batchImport/service/BatchImportService.java:151-163 | after an abort the remaining rows change nothing |
| ImportRun.BatchImportRun.constructor | src/main/java/org/ihtsdo/snowowl/authoring/batchimport/api/service/BatchImportService.java:79 | a new run has no concepts, no hierarchy and no outcomes |
| ImportRun.BatchImportRun.Fail | src/main/java/org/ihtsdo/snowowl/authoring/batchimport/api/service/BatchImportService.java:108-111 | records the failure for the row and leaves the hierarchy alone |
| ImportRun.BatchImportRun.Succeed | src/main/java/org/ihtsdo/snowowl/authoring/batchimport/api/service/BatchImportService.java:432 | records the loaded outcome for the row and leaves the hierarchy alone |
| ImportRun.BatchImportRun.InsertIntoLoadHierarchy | src/main/java/org/ihtsdo/snowowl/authoring/batchimport/api/service/BatchImportService.java:104-106 | appends the concept under its load parent and keeps the run well formed |
| ImportRun.BatchImportRun.AbortLoad | src/main/java/org/ihtsdo/snowowl/authoring/batchimport/api/service/BatchImportService.java:89 | every row without an outcome is marked aborted |
| ImportRun.FlattenSnoc | src/main/java/org/ihtsdo/snowowl/authoring/batchimport/api/service/BatchImportService.java:278-293 | concatenating one more batch appends its contents |
| ImportRun.FlattenCons | src/main/java/org/ihtsdo/snowowl/authoring/batchimport/api/service/BatchImportService.java:278-293 | concatenating a leading batch prepends its contents |
| ImportRun.BlocksAreDescendants | src/main/java/org/ihtsdo/snowowl/authoring/batchimport/api/service/BatchImportService.java:278-293 | the blocks of some children list exactly their descendants |
| ImportRun.RootBlocksAreAllDescendants | src/main/java/org/ihtsdo/snowowl/authoring/batchimport/api/service/BatchImportService.java:278-293 | the root blocks hold every concept, and as many as the root's children count |
| ImportRun.BatchesSnoc | src/main/java/org/ihtsdo/snowowl/authoring/batchimport/api/service/BatchImportService.java:283-291 | one more block either opens a new batch when the last is full, or joins the last |
| ImportRun.Batches | src/main/java/org/ihtsdo/snowowl/authoring/batchimport/api/service/BatchImportService.java:278-293 | `collectIntoBatches`: each root child's block joins the last batch until that batch holds "concepts per task" concepts, then opens a new one (proved in the Batches lemmas below) |
| ImportRun.BlocksSnoc | src/main/java/org/ihtsdo/snowowl/authoring/batchimport/api/service/BatchImportService.java:283-290 | one more child adds its block |
| ImportRun.BatchesKeepOrder | src/main/java/org/ihtsdo/snowowl/authoring/batchimport/api/service/BatchImportService.java:278-293 | batching loses no concept and reorders none; there are no batches only without blocks |
| ImportRun.BatchesFlatten | src/main/java/org/ihtsdo/snowowl/authoring/batchimport/api/service/BatchImportService.java:278-293 | the batches, concatenated, are the blocks concatenated |
| ImportRun.BatchesEmptyOnlyWithoutBlocks | src/main/java/org/ihtsdo/snowowl/authoring/batchimport/api/service/BatchImportService.java:278-293 | batching yields no batch exactly when there is no block |
| ImportRun.BatchesAreFull | src/main/java/org/ihtsdo/snowowl/authoring/batchimport/api/service/BatchImportService.java:284-287 | every batch but the last holds at least "concepts per task" concepts |
| ImportRun.BatchesBounded | src/main/java/org/ihtsdo/snowowl/authoring/batchimport/api/service/BatchImportService.java:289-290 | when each block fits the limit, a batch holds at most twice the limit less one |
| ImportRun.OpenBatchKeepsPartition | src/main/java/org/ihtsdo/snowowl/authoring/batchimport/api/service/BatchImportService.java:284-287 | opening a batch keeps each batch a run of whole blocks |
| ImportRun.ExtendBatchKeepsPartition | src/main/java/org/ihtsdo/snowowl/authoring/batchimport/api/service/BatchImportService.java:289-290 | extending the last batch keeps each batch a run of whole blocks |
| ImportRun.BatchesAreWholeBlocks | src/main/java/org/ihtsdo/snowowl/authoring/batchimport/api/service/BatchImportService.java:278-293 | every batch is a consecutive run of whole blocks: a parent is never split from its descendants |
| ImportRun.BatchesAddPair | src/main/java/org/ihtsdo/snowowl/authoring/batchimport/api/service/BatchImportService.java:278-293 | after full batches, two single concepts with two per task open one new batch holding both, in order |
| ImportRun.BatchesOfSingles | src/main/java/org/ihtsdo/snowowl/authoring/batchimport/api/service/BatchImportService.java:278-293 | five single concepts with two per task form batches of 2, 2 and 1 |
| ImportRun.BatchesCanExceedLimit | src/main/java/org/ihtsdo/snowowl/authoring/batchimport/api/service/BatchImportService.java:289-290 | a batch can hold more concepts than "concepts per task": a concept joins an unfilled batch with its descendants |
| ImportProgress.Bumped | src/main/java/org/ihtsdo/snowowl/authoring/batchimport/api/service/BatchImportService.java:692-698 | one step counts one more processed row, and one more loaded row when loaded; nothing else changes |
| ImportProgress.Successes | src/main/java/org/ihtsdo/snowowl/authoring/batchimport/api/service/BatchImportService.java:692-698 | the loaded rows are at most the processed rows |
| ImportProgress.BumpedAllCounts | src/main/java/org/ihtsdo/snowowl/authoring/batchimport/api/service/BatchImportService.java:692-698 | a sequence of steps adds its length to processed and its successes to loaded |
| ImportProgress.FreshRunCounts | src/main/java/org/ihtsdo/snowowl/authoring/batchimport/api/service/BatchImportService.java:692-698 | from a fresh status the counts are exactly the rows and the successes |
| ImportProgress.WithStatus | src/main/java/org/ihtsdo/snowowl/authoring/batchimport/api/service/BatchImportService.java:700-707 | looking up a status creates a running one only when missing and changes no other import |
| ImportProgress.WithStatusIdempotent | src/main/java/org/ihtsdo/snowowl/authoring/batchimport/api/service/BatchImportService.java:700-707 | looking up twice is looking up once |
| ImportProgress.IncrementedAllBumps | src/main/java/org/ihtsdo/snowowl/authoring/batchimport/api/service/BatchImportService.java:692-698 | a batch of increments is one bulk update of that import's status |
| ImportProgress.BatchProgress | src/main/java/org/ihtsdo/snowowl/authoring/batchimport/api/service/BatchImportService.java:692-698 | a batch of increments adds its size to processed and its successes to loaded |
| ImportProgress.ProcessedGrows | src/main/java/org/ihtsdo/snowowl/authoring/batchimport/api/service/BatchImportService.java:692-698 | processed grows by exactly the number of increments |
| ImportProgress.ImportStatusBoard.constructor | src/main/java/org/ihtsdo/snowowl/authoring/batchimport/api/service/BatchImportService.java:80 | a new board tracks no import |
| ImportProgress.ImportStatusBoard.Start | src/main/java/org/ihtsdo/snowowl/authoring/batchimport/api/service/BatchImportService.java:80 | the import gets a fresh running status |
| ImportProgress.ImportStatusBoard.GetBatchImportStatus | src/main/java/org/ihtsdo/snowowl/authoring/batchimport/api/service/BatchImportService.java:700-707 | returns the import's status, creating a running one when absent |
| ImportProgress.ImportStatusBoard.SetTarget | src/main/java/org/ihtsdo/snowowl/authoring/batchimport/api/service/BatchImportService.java:687-690 | sets the target on the import's status and nothing else |
| ImportProgress.ImportStatusBoard.IncrementProgress | src/main/java/org/ihtsdo/snowowl/authoring/batchimport/api/service/BatchImportService.java:692-698 | counts one more processed row and, when loaded, one more loaded row |
| ImportProgress.ImportStatusBoard.SetState | src/main/java/org/ihtsdo/snowowl/authoring/batchimport/api/service/BatchImportService.java:91 | sets the state on the import's status and nothing else |
| ImportCommon.GateFailsEveryOffender | src/main/java/org/ihtsdo/snowowl/authoring/batchimport/api/service/BatchImportService.java:116-130 | every root child with at least "concepts per task" descendants is failed |
| ImportCommon.GateFailures | src/main/java/org/ihtsdo/snowowl/authoring/batchimport/api/service/BatchImportService.java:116-130 | the outcomes after the gate: each root child with at least "concepts per task" descendants is failed with the oversize message (proved in the Gate lemmas) |
| ImportCommon.GateKeepsOtherRecords | src/main/java/org/ihtsdo/snowowl/authoring/batchimport/api/service/BatchImportService.java:116-130 | the gate leaves the outcome of every other record as it was |
| ImportCommon.GatePassLeavesOutcomes | src/main/java/org/ihtsdo/snowowl/authoring/batchimport/api/service/BatchImportService.java:116-130 | when every root child fits, the gate changes nothing |
| ImportCommon.GateOnlyFails | src/main/java/org/ihtsdo/snowowl/authoring/batchimport/api/service/BatchImportService.java:116-130 | the gate only ever records failures |
| ImportCommon.GateSnoc | src/main/java/org/ihtsdo/snowowl/authoring/batchimport/api/service/BatchImportService.java:121-128 | one more root child adds its check to the verdict and, if oversized, its failure |
| ImportCommon.ValidateLoadHierarchy | src/main/java/org/ihtsdo/snowowl/authoring/batchimport/api/service/BatchImportService.java:116-130 | valid exactly when every root child has fewer descendants than "concepts per task"; each offender is failed with the source's message |
| ImportCommon.CollectIntoBatches | src/main/java/org/ihtsdo/snowowl/authoring/batchimport/api/service/BatchImportService.java:278-293 | the loop's batches are the batching of the root's blocks |
| ImportCommon.CollectBlocks | src/main/java/org/ihtsdo/snowowl/authoring/batchimport/api/service/BatchImportService.java:283-291 | the loop's batches are the batching of the given children's blocks |
| ImportCommon.GatedBatches | src/main/java/org/ihtsdo/snowowl/authoring/batchimport/api/service/BatchImportService.java:86-87 | after the gate passes, the batches hold every concept once, in order, all but the last full and none over twice the limit less one |
| ImportCommon.RowBoundsAreMinMax | src/main/java/org/ihtsdo/snowowl/authoring/batchimport/api/service/BatchImportService.java:325-342 | the range is (-1, -1) for an empty batch, else its smallest and largest record numbers |
| ImportCommon.RecordNumbers | src/main/java/org/ihtsdo/snowowl/authoring/batchimport/api/service/BatchImportService.java:331 | the record numbers of the batch, in order |
| ImportCommon.GetRowRange | src/main/java/org/ihtsdo/snowowl/authoring/batchimport/api/service/BatchImportService.java:325-342 | the loop returns "Rows min - max" for the batch |
| ImportCommon.QuotedIdsLength | src/main/java/org/ihtsdo/snowowl/authoring/batchimport/api/service/BatchImportService.java:239-249 | every id contributes at least its two quotes |
| ImportCommon.QuotedIdsReadBack | src/main/java/org/ihtsdo/snowowl/authoring/batchimport/api/service/BatchImportService.java:239-249 | for ids without commas, splitting the list at its commas gives back each id in its quotes, in order |
| ImportCommon.ConceptList | src/main/java/org/ihtsdo/snowowl/authoring/batchimport/api/service/BatchImportService.java:239-249 | a JSON array of the quoted ids, longer than "[]" exactly when there is an id |
| ImportCommon.ContainsDescription | src/main/java/org/ihtsdo/snowowl/authoring/batchimport/api/service/BatchImportService.java:577-584 | true exactly when some description has the term |
| ImportCommon.WithSynonymsExtends | src/main/java/org/ihtsdo/snowowl/authoring/batchimport/api/service/BatchImportService.java:561-570 | adding synonyms keeps the existing descriptions and only adds new synonym terms |
| ImportCommon.WithSynonymsAddsEvery | src/main/java/org/ihtsdo/snowowl/authoring/batchimport/api/service/BatchImportService.java:561-570 | afterwards every synonym is among the terms |
| ImportCommon.WithSynonymsKeepsTermsDistinct | src/main/java/org/ihtsdo/snowowl/authoring/batchimport/api/service/BatchImportService.java:561-570 | distinct terms stay distinct |
| ImportCommon.WithSynonymsDeduplicates | org.ihtsdo.snowowl.authoring.single.api.rest/src/main/java/org/ihtsdo/snowowl/authoring/single/api/batchImport/service/BatchImportService.java:500-509 | all of the above at once |
| ImportCommon.AddSynonyms | src/main/java/org/ihtsdo/snowowl/authoring/batchimport/api/service/BatchImportService.java:561-570 | the loop adds exactly the synonyms not already present |
| ImportCommon.RemoveTemporaryIds | src/main/java/org/ihtsdo/snowowl/authoring/batchimport/api/service/BatchImportService.java:452-461 | the loops clear every description and relationship id and nothing else |
| ImportCommon.PrepareAllOnlyFails | src/main/java/org/ihtsdo/snowowl/authoring/batchimport/api/service/BatchImportService.java:97-114 | preparation records only failures |
| ImportCommon.AbortedOnlyFails | src/main/java/org/ihtsdo/snowowl/authoring/batchimport/api/service/BatchImportService.java:89 | aborting records only failures |
| ImportCommon.GateFailureFailsEveryRow | src/main/java/org/ihtsdo/snowowl/authoring/batchimport/api/service/BatchImportService.java:86-93 | when the gate fails, every row of the file ends up failed |
| ImportCommon.OutcomeOf | src/main/java/org/ihtsdo/snowowl/authoring/batchimport/api/service/BatchImportService.java:431-439 | a load success is recorded as loaded onto the task with the created id, a failure with its message |
| ImportCommon.Recorded | src/main/java/org/ihtsdo/snowowl/authoring/batchimport/api/service/BatchImportService.java:415-443 | the outcomes after `succeed` or `fail` for each row of a batch in turn, a later row overwriting an earlier one with the same record (proved in RecordedDecidesEveryRow) |
| ImportCommon.RecordedDecidesEveryRow | src/main/java/org/ihtsdo/snowowl/authoring/batchimport/api/service/BatchImportService.java:415-443 | after a batch every row has an outcome, its own for distinct records, and other records are untouched |
| ImportCommon.LoadedFlags | src/main/java/org/ihtsdo/snowowl/authoring/batchimport/api/service/BatchImportService.java:442 | each row's progress flag is whether it loaded |
| ImportCommon.LoadedIdsKeys | src/main/java/org/ihtsdo/snowowl/authoring/batchimport/api/service/BatchImportService.java:434 | the loaded map's keys are exactly the SCTIDs of concepts that loaded |
| ImportCommon.BatchConcepts | src/main/java/org/ihtsdo/snowowl/authoring/batchimport/api/service/BatchImportService.java:185 | the batch's concepts, in order |
| ImportCommon.Rows | src/main/java/org/ihtsdo/snowowl/authoring/batchimport/api/service/BatchImportService.java:432 | the rows of the concepts, in order |
| ImportCommon.Sctids | src/main/java/org/ihtsdo/snowowl/authoring/batchimport/api/service/BatchImportService.java:434 | the SCTIDs of the concepts, in order |
| ImportCommon.FlattenHolds | src/main/java/org/ihtsdo/snowowl/authoring/batchimport/api/service/BatchImportService.java:185 | a concept of some batch is among all batches' concepts |
| ImportCommon.HierarchyBatches | src/main/java/org/ihtsdo/snowowl/authoring/batchimport/api/service/BatchImportService.java:184 | the batches hold every concept of the hierarchy, as many as the target |
| ImportCommon.BatchRecorded | src/main/java/org/ihtsdo/snowowl/authoring/batchimport/api/service/BatchImportService.java:185-187 | loading one more batch keeps every outcome and gives each of its rows one |
| ImportCommon.BatchLoaded | src/main/java/org/ihtsdo/snowowl/authoring/batchimport/api/service/BatchImportService.java:185-187 | one more batch also adds its size to processed |
| ImportCommon.LoadAll | src/main/java/org/ihtsdo/snowowl/authoring/batchimport/api/service/BatchImportService.java:415-443 | one load result per concept, in order, each that of loading the concept onto the task |
| ImportCommon.LoadedOntoTasks | src/main/java/org/ihtsdo/snowowl/authoring/batchimport/api/service/BatchImportService.java:181-208 | the loop over the batches as a fold: a task per batch, then its concepts loaded, recorded and counted, until the first task that cannot be created, whose exception ends the loading |
| ImportCommon.LoadedOntoTasksSnoc | src/main/java/org/ihtsdo/snowowl/authoring/batchimport/api/service/BatchImportService.java:184-187 | one more batch after a clean loading: its task's exception ends the loading with outcomes and board unchanged, or its concepts are loaded onto the task, recorded and counted |
| ImportCommon.LoadedOntoTasksStopsAtFailure | src/main/java/org/ihtsdo/snowowl/authoring/batchimport/api/service/BatchImportService.java:184-187 | once a task cannot be created, the later batches change nothing |
| ImportCommon.LoadedOntoTasksStatus | src/main/java/org/ihtsdo/snowowl/authoring/batchimport/api/service/BatchImportService.java:181-208 | from a clean start the loading ends with the exception of the first batch whose task cannot be created, or without one |
| ImportCommon.FirstTaskFailureIsFirst | src/main/java/org/ihtsdo/snowowl/authoring/batchimport/api/service/BatchImportService.java:184-186 | no task failure exactly when every batch gets a task; otherwise the failure is the exception of the first batch without one, every earlier batch having its task |
| ImportCommon.LoadedOntoTasksCovers | src/main/java/org/ihtsdo/snowowl/authoring/batchimport/api/service/BatchImportService.java:181-208 | outcomes already recorded keep their record; when every task was created, each concept of every batch has an outcome and processed grew by their number |
| ImportCommon.LoadedOntoTasksTouchesOnlyItsRun | src/main/java/org/ihtsdo/snowowl/authoring/batchimport/api/service/BatchImportService.java:181-208 | the status of every other import is left as it was |
| ImportCommon.Overwritten | src/main/java/org/ihtsdo/snowowl/authoring/batchimport/api/service/BatchImportService.java:434 | a later put for the same key replaces the earlier value |
| BatchImportService.ParentExpression | src/main/java/org/ihtsdo/snowowl/authoring/batchimport/api/service/BatchImportService.java:144-168 | the expression parses with a numeric first focus concept, or the null or "Invalid expression: " failure |
| BatchImportService.Validation | src/main/java/org/ihtsdo/snowowl/authoring/batchimport/api/service/BatchImportService.java:133-170 | an invalid SCTID is reported first; a parentless concept throws; the expression's first focus concept becomes the parent |
| BatchImportService.CheckConcept | src/main/java/org/ihtsdo/snowowl/authoring/batchimport/api/service/BatchImportService.java:133-170 | the method's verdict is the validation of the concept |
| BatchImportService.Validate | src/main/java/org/ihtsdo/snowowl/authoring/batchimport/api/service/BatchImportService.java:133-170 | the verdict, with a failure recorded exactly for an invalid concept |
| BatchImportService.ScreenRow | src/main/java/org/ihtsdo/snowowl/authoring/batchimport/api/service/BatchImportService.java:100-112 | a short row is a blank row; a row is accepted exactly when it reads and validates; nothing aborts |
| BatchImportService.PrepareConcepts | src/main/java/org/ihtsdo/snowowl/authoring/batchimport/api/service/BatchImportService.java:97-114 | the run's outcomes and hierarchy become the screening of all rows |
| BatchImportService.PrepareConceptsScreens | src/main/java/org/ihtsdo/snowowl/authoring/batchimport/api/service/BatchImportService.java:97-114 | blank and invalid rows are failed with their reasons; accepted concepts come from valid rows |
| BatchImportService.PreparedRun | src/main/java/org/ihtsdo/snowowl/authoring/batchimport/api/service/BatchImportService.java:79-81 | a fresh run holds the screening of the file |
| BatchImportService.StartImport | src/main/java/org/ihtsdo/snowowl/authoring/batchimport/api/service/BatchImportService.java:78-95 | the import is scheduled exactly when the gate passes; otherwise every row is aborted and the status is failed; the target is the concept count |
| BatchImportService.FocusIdsDistinct | src/main/java/org/ihtsdo/snowowl/authoring/batchimport/api/service/BatchImportService.java:548-552 | each focus concept's relationship gets its own temporary id |
| BatchImportService.GroupRelationshipsKeepsAll | src/main/java/org/ihtsdo/snowowl/authoring/batchimport/api/service/BatchImportService.java:554-556 | the groups' relationships are all kept, and nothing else |
| BatchImportService.ExpressionRelationshipsShape | src/main/java/org/ihtsdo/snowowl/authoring/batchimport/api/service/BatchImportService.java:544-559 | one "is a" per focus concept, group 0 and distinct ids, then exactly the groups' relationships |
| BatchImportService.ConvertExpressionToRelationships | src/main/java/org/ihtsdo/snowowl/authoring/batchimport/api/service/BatchImportService.java:544-559 | the method returns the expression's relationships |
| BatchImportService.ParentRelationships | src/main/java/org/ihtsdo/snowowl/authoring/batchimport/api/service/BatchImportService.java:493-497 | one "is a" to each parent, in order |
| BatchImportService.RelationshipsOf | src/main/java/org/ihtsdo/snowowl/authoring/batchimport/api/service/BatchImportService.java:486-499 | relationships from the expression with its status, or from the parents as primitive; a missing expression fails |
| BatchImportService.TranslateCaseSensitivity | src/main/java/org/ihtsdo/snowowl/authoring/batchimport/api/service/BatchImportService.java:632-639 | exactly "CS", "ci" and "cI" are accepted, each as the significance it codes |
| BatchImportService.CaseCodeRoundTrip | src/main/java/org/ihtsdo/snowowl/authoring/batchimport/api/service/BatchImportService.java:632-639 | each significance's code translates back to it |
| BatchImportService.TranslateAcceptability | src/main/java/org/ihtsdo/snowowl/authoring/batchimport/api/service/BatchImportService.java:641-648 | exactly N, P and A, in either case, are accepted, each as the acceptability it codes |
| BatchImportService.AcceptabilityCodeRoundTrip | src/main/java/org/ihtsdo/snowowl/authoring/batchimport/api/service/BatchImportService.java:641-648 | each acceptability's code, upper or lower case, translates back to it |
| BatchImportService.AcceptabilityAsMap | src/main/java/org/ihtsdo/snowowl/authoring/batchimport/api/service/BatchImportService.java:650-662 | the GB and US entries are present exactly when their code is not N and carry that code; a bad code fails, GB first |
| BatchImportService.TermCase | src/main/java/org/ihtsdo/snowowl/authoring/batchimport/api/service/BatchImportService.java:615-630 | a missing or empty case code means case insensitive, else it is translated |
| BatchImportService.TermDescription | src/main/java/org/ihtsdo/snowowl/authoring/batchimport/api/service/BatchImportService.java:615-630 | a term becomes an active synonym with that term |
| BatchImportService.TermResults | src/main/java/org/ihtsdo/snowowl/authoring/batchimport/api/service/BatchImportService.java:524-538 | one description attempt per term, indexed |
| BatchImportService.NamesOf | src/main/java/org/ihtsdo/snowowl/authoring/batchimport/api/service/BatchImportService.java:503-513 | the FSN is built from root and tag, with the root as preferred term, or read from its column |
| BatchImportService.FsnCaseOf | src/main/java/org/ihtsdo/snowowl/authoring/batchimport/api/service/BatchImportService.java:518-521 | without a case column the FSN is case insensitive |
| BatchImportService.TermDescriptionsReadEveryTerm | src/main/java/org/ihtsdo/snowowl/authoring/batchimport/api/service/BatchImportService.java:524-538 | the terms are read exactly when each term reads, in order |
| BatchImportService.TermDescriptionsFirstFailure | src/main/java/org/ihtsdo/snowowl/authoring/batchimport/api/service/BatchImportService.java:524-538 | a failure is the first failing term's |
| BatchImportService.ConceptRelationships | src/main/java/org/ihtsdo/snowowl/authoring/batchimport/api/service/BatchImportService.java:486-499 | the method returns the concept's relationships and status |
| BatchImportService.ConceptNames | src/main/java/org/ihtsdo/snowowl/authoring/batchimport/api/service/BatchImportService.java:503-513 | the method returns the concept's names |
| BatchImportService.FsnCase | src/main/java/org/ihtsdo/snowowl/authoring/batchimport/api/service/BatchImportService.java:518-521 | the method returns the FSN's case significance |
| BatchImportService.TermsAfterFsn | src/main/java/org/ihtsdo/snowowl/authoring/batchimport/api/service/BatchImportService.java:524-538 | the method returns the term descriptions |
| BatchImportService.AssembleConcept | src/main/java/org/ihtsdo/snowowl/authoring/batchimport/api/service/BatchImportService.java:477-542 | the method returns the assembled payload |
| BatchImportService.CreateBrowserConcept | src/main/java/org/ihtsdo/snowowl/authoring/batchimport/api/service/BatchImportService.java:477-542 | the method returns the concept's payload |
| BatchImportService.BrowserConceptAssembled | src/main/java/org/ihtsdo/snowowl/authoring/batchimport/api/service/BatchImportService.java:477-542 | a payload exists only when relationships, names and FSN case all read |
| BatchImportService.AssembledDescriptions | src/main/java/org/ihtsdo/snowowl/authoring/batchimport/api/service/BatchImportService.java:523-539 | the payload's descriptions are the FSN and the others, plus synonyms for single-term formats |
| BatchImportService.BrowserConceptOf | src/main/java/org/ihtsdo/snowowl/authoring/batchimport/api/service/BatchImportService.java:477-542 | `createBrowserConcept`: the payload, or the first exception among relationships, names, FSN case significance and the other descriptions (proved in BrowserConceptAssembled and BrowserConceptShape) |
| BatchImportService.AssembledFsnFirst | src/main/java/org/ihtsdo/snowowl/authoring/batchimport/api/service/BatchImportService.java:523-526 | the FSN comes first, preferred, and every other description is a synonym |
| BatchImportService.BrowserConceptShape | src/main/java/org/ihtsdo/snowowl/authoring/batchimport/api/service/BatchImportService.java:477-542 | the payload is active, keeps the SCTID unless a new one is needed, carries the relationships and status and starts with the FSN |
| BatchImportService.PayloadTerms | src/main/java/org/ihtsdo/snowowl/authoring/batchimport/api/service/BatchImportService.java:527-533 | with several terms, each term gives the description after the FSN at its own position |
| BatchImportService.PayloadSynonyms | src/main/java/org/ihtsdo/snowowl/authoring/batchimport/api/service/BatchImportService.java:534-538 | with one term the preferred term follows the FSN, every synonym is present and terms are distinct |
| BatchImportService.FsnOf | src/main/java/org/ihtsdo/snowowl/authoring/batchimport/api/service/BatchImportService.java:469 | the FSN a payload carries is the term of its first FSN description, and there is one exactly when some description is an FSN |
| BatchImportService.ConceptCheckAsWritten | src/main/java/org/ihtsdo/snowowl/authoring/batchimport/api/service/BatchImportService.java:463-475 | as written: unless lateralized content is allowed, the payload's unset FSN field is read, so only a set, non-lateralized FSN passes and an unset one fails with the null message |
| BatchImportService.AsWrittenRejectsEveryPayload | src/main/java/org/ihtsdo/snowowl/authoring/batchimport/api/service/BatchImportService.java:463-475 | as written, every payload the service builds has no FSN field and fails the check when lateralized content is disallowed |
| BatchImportService.ConceptCheck | src/main/java/org/ihtsdo/snowowl/authoring/batchimport/api/service/BatchImportService.java:463-475 | corrected: rejected exactly when lateralized content is disallowed and the payload's FSN description is missing or lateralized |
| BatchImportService.ConceptCheckOfBuiltPayload | src/main/java/org/ihtsdo/snowowl/authoring/batchimport/api/service/BatchImportService.java:463-475 | corrected, on a built payload: rejected with "Lateralized content detected" exactly when such content is disallowed and the row's FSN contains "left" or "right" in any case |
| BatchImportService.ValidateConcept | src/main/java/org/ihtsdo/snowowl/authoring/batchimport/api/service/BatchImportService.java:463-475 | the loop over the laterality words rejects exactly what the corrected check rejects |
| BatchImportService.LoadResultCases | src/main/java/org/ihtsdo/snowowl/authoring/batchimport/api/service/BatchImportService.java:409-445 | corrected (second Findings row): a concept that cannot be built fails with its exception; a dry run never calls the server and loads as the dry-run id; a lateralized FSN fails; otherwise the payload without temporary ids goes to the task's branch and the server's answer is the result |
| BatchImportService.LoadResult | src/main/java/org/ihtsdo/snowowl/authoring/batchimport/api/service/BatchImportService.java:417-441 | the try block for one concept, with the corrected laterality check: the created id, the dry-run id, or the message that fails the row (proved in LoadResultCases) |
| BatchImportService.LoadResultAsWritten | src/main/java/org/ihtsdo/snowowl/authoring/batchimport/api/service/BatchImportService.java:417-441 | the same try block with the laterality check as written (proved in LoadResultAsWrittenFailsEveryRow) |
| BatchImportService.LoadResultAsWrittenFailsEveryRow | src/main/java/org/ihtsdo/snowowl/authoring/batchimport/api/service/BatchImportService.java:409-445 | as written: with lateralized content disallowed, every concept that can be built fails with the null message and never reaches the server; otherwise a row loads as in the corrected model |
| BatchImportService.LoadConcept | src/main/java/org/ihtsdo/snowowl/authoring/batchimport/api/service/BatchImportService.java:416-441 | the method's outcome is the concept's load result |
| BatchImportService.LoadResults | src/main/java/org/ihtsdo/snowowl/authoring/batchimport/api/service/BatchImportService.java:415-443 | one load result per concept of the batch, in order |
| BatchImportService.LoadResultsAreLoadAll | src/main/java/org/ihtsdo/snowowl/authoring/batchimport/api/service/BatchImportService.java:415-443 | the batch's load results are those of the loop of loadConceptsOntoTasks for the task |
| BatchImportService.LoadConcepts | src/main/java/org/ihtsdo/snowowl/authoring/batchimport/api/service/BatchImportService.java:409-445 | every row of the batch gets its outcome, progress counts each row, and the loaded map holds the concepts that loaded |
| BatchImportService.TaskFor | src/main/java/org/ihtsdo/snowowl/authoring/batchimport/api/service/BatchImportService.java:295-323 | a dry run gets the dry-run task; otherwise both remote calls must succeed, with the TS failure message when the second fails |
| BatchImportService.CreateTask | src/main/java/org/ihtsdo/snowowl/authoring/batchimport/api/service/BatchImportService.java:295-323 | the task is created for the batch's file name and row range |
| BatchImportService.LoadConceptsOntoTasks | src/main/java/org/ihtsdo/snowowl/authoring/batchimport/api/service/BatchImportService.java:181-208 | the outcomes, the status board and the result are those of LoadedOntoTasks over the hierarchy's batches: each row's outcome and the task key it names, the processed and loaded counters, no other import touched, and on a task failure its exception with the earlier batches loaded; when every task is created, processed grows by the target and every concept of the hierarchy has an outcome |
| LegacyBatchImportService.Rejection | org.ihtsdo.snowowl.authoring.single.api.rest/src/main/java/org/ihtsdo/snowowl/authoring/single/api/batchImport/service/BatchImportService.java:182-194 | an invalid SCTID, when one is kept, is reported first, then an invalid or null parent; no rejection exactly when both pass |
| LegacyBatchImportService.Validate | org.ihtsdo.snowowl.authoring.single.api.rest/src/main/java/org/ihtsdo/snowowl/authoring/single/api/batchImport/service/BatchImportService.java:182-194 | valid exactly when there is no rejection; otherwise it is recorded |
| LegacyBatchImportService.ScreenRow | org.ihtsdo.snowowl.authoring.single.api.rest/src/main/java/org/ihtsdo/snowowl/authoring/single/api/batchImport/service/BatchImportService.java:154-161 | a row with at most the minimum columns is blank; an unreadable row aborts; a readable row is accepted exactly when it validates |
| LegacyBatchImportService.PrepareConcepts | org.ihtsdo.snowowl.authoring.single.api.rest/src/main/java/org/ihtsdo/snowowl/authoring/single/api/batchImport/service/BatchImportService.java:151-163 | the run becomes the screening of the rows, and an unreadable row stops preparation with its error |
| LegacyBatchImportService.PrepareConceptsScreens | org.ihtsdo.snowowl.authoring.single.api.rest/src/main/java/org/ihtsdo/snowowl/authoring/single/api/batchImport/service/BatchImportService.java:151-163 | when all rows read, blank and rejected rows fail with their reasons and only valid concepts are accepted |
| LegacyBatchImportService.UnreadableRowStopsPreparation | org.ihtsdo.snowowl.authoring.single.api.rest/src/main/java/org/ihtsdo/snowowl/authoring/single/api/batchImport/service/BatchImportService.java:151-163 | any unreadable row aborts preparation with an unreadable row's error |
| LegacyBatchImportService.PreparedRun | org.ihtsdo.snowowl.authoring.single.api.rest/src/main/java/org/ihtsdo/snowowl/authoring/single/api/batchImport/service/BatchImportService.java:133-135 | a fresh run holds the screening of the file |
| LegacyBatchImportService.StartImport | org.ihtsdo.snowowl.authoring.single.api.rest/src/main/java/org/ihtsdo/snowowl/authoring/single/api/batchImport/service/BatchImportService.java:132-149 | an aborted preparation propagates; otherwise scheduled exactly when the gate passes, with every row aborted when it does not |
| LegacyBatchImportService.CreateBrowserConcept | org.ihtsdo.snowowl.authoring.single.api.rest/src/main/java/org/ihtsdo/snowowl/authoring/single/api/batchImport/service/BatchImportService.java:468-498 | the method returns the concept's payload |
| LegacyBatchImportService.PayloadShape | org.ihtsdo.snowowl.authoring.single.api.rest/src/main/java/org/ihtsdo/snowowl/authoring/single/api/batchImport/service/BatchImportService.java:468-498 | a payload exists exactly when the root and tag columns exist; it is primitive, with one "is a" to the parent, the FSN then the preferred term, and each synonym once |
| LegacyBatchImportService.Payload | org.ihtsdo.snowowl.authoring.single.api.rest/src/main/java/org/ihtsdo/snowowl/authoring/single/api/batchImport/service/BatchImportService.java:468-498 | `createBrowserConcept`: the payload, or the index exception when the FSN root or semantic tag column is missing (proved in PayloadShape) |
| LegacyBatchImportService.LateralityCheck | org.ihtsdo.snowowl.authoring.single.api.rest/src/main/java/org/ihtsdo/snowowl/authoring/single/api/batchImport/service/BatchImportService.java:418-428 | accepted exactly when the FSN is present and not lateralized |
| LegacyBatchImportService.ValidateConcept | org.ihtsdo.snowowl.authoring.single.api.rest/src/main/java/org/ihtsdo/snowowl/authoring/single/api/batchImport/service/BatchImportService.java:418-428 | the loop accepts exactly what the check accepts |
| LegacyBatchImportService.PrettyPrint | org.ihtsdo.snowowl.authoring.single.api.rest/src/main/java/org/ihtsdo/snowowl/authoring/single/api/batchImport/service/BatchImportService.java:450-466 | the method returns the printed error |
| LegacyBatchImportService.EntryOffset | org.ihtsdo.snowowl.authoring.single.api.rest/src/main/java/org/ihtsdo/snowowl/authoring/single/api/batchImport/service/BatchImportService.java:456-463 | each additional-info entry occurs in the printed text |
| LegacyBatchImportService.PrintedNamesEveryEntry | org.ihtsdo.snowowl.authoring.single.api.rest/src/main/java/org/ihtsdo/snowowl/authoring/single/api/batchImport/service/BatchImportService.java:450-466 | the print starts with message and developer message and names every entry |
| LegacyBatchImportService.LoadResultCases | org.ihtsdo.snowowl.authoring.single.api.rest/src/main/java/org/ihtsdo/snowowl/authoring/single/api/batchImport/service/BatchImportService.java:372-400 | a missing column fails; a lateralized FSN fails; otherwise the created id, the printed validation error or the exception message |
| LegacyBatchImportService.LoadResult | org.ihtsdo.snowowl.authoring.single.api.rest/src/main/java/org/ihtsdo/snowowl/authoring/single/api/batchImport/service/BatchImportService.java:378-396 | the try block for one concept: the created id, the printed validation error, or the exception message (proved in LoadResultCases) |
| LegacyBatchImportService.LoadConcept | org.ihtsdo.snowowl.authoring.single.api.rest/src/main/java/org/ihtsdo/snowowl/authoring/single/api/batchImport/service/BatchImportService.java:377-396 | the method's outcome is the concept's load result |
| LegacyBatchImportService.LoadResults | org.ihtsdo.snowowl.authoring.single.api.rest/src/main/java/org/ihtsdo/snowowl/authoring/single/api/batchImport/service/BatchImportService.java:376-398 | one load result per concept of the batch, in order |
| LegacyBatchImportService.LoadResultsAreLoadAll | org.ihtsdo.snowowl.authoring.single.api.rest/src/main/java/org/ihtsdo/snowowl/authoring/single/api/batchImport/service/BatchImportService.java:376-398 | the batch's load results are those of the loop of loadConceptsOntoTasks for the task |
| LegacyBatchImportService.LoadConcepts | org.ihtsdo.snowowl.authoring.single.api.rest/src/main/java/org/ihtsdo/snowowl/authoring/single/api/batchImport/service/BatchImportService.java:372-400 | every row of the batch gets its outcome, progress counts each row, and the loaded map holds the concepts that loaded |
| LegacyBatchImportService.TaskFor | org.ihtsdo.snowowl.authoring.single.api.rest/src/main/java/org/ihtsdo/snowowl/authoring/single/api/batchImport/service/BatchImportService.java:295-308 | the task exists exactly when both remote calls succeed; otherwise the first failure |
| LegacyBatchImportService.CreateTask | org.ihtsdo.snowowl.authoring.single.api.rest/src/main/java/org/ihtsdo/snowowl/authoring/single/api/batchImport/service/BatchImportService.java:295-308 | the task is created for the batch's file name and row range |
| LegacyBatchImportService.LoadBatch | org.ihtsdo.snowowl.authoring.single.api.rest/src/main/java/org/ihtsdo/snowowl/authoring/single/api/batchImport/service/BatchImportService.java:207-214 | the outcomes become those recorded for the batch's load results on its task and the board is bumped once per concept with whether it loaded; earlier outcomes are kept, every concept of the batch has an outcome, and processed grows by the batch's size |
| LegacyBatchImportService.LoadConceptsOntoTasks | org.ihtsdo.snowowl.authoring.single.api.rest/src/main/java/org/ihtsdo/snowowl/authoring/single/api/batchImport/service/BatchImportService.java:205-216 | the outcomes, the status board and the result are those of LoadedOntoTasks over the hierarchy's batches, as in the newer service; when every task is created, processed grows by the target and every concept of the hierarchy has an outcome |
| Wrappers.Gathered | src/main/java/org/ihtsdo/snowowl/authoring/batchimport/api/service/BatchImportService.java:524-538 | gathering results yields one value per result |
| Wrappers.GatheredEveryValue | src/main/java/org/ihtsdo/snowowl/authoring/batchimport/api/service/BatchImportService.java:524-538 | gathering succeeds exactly when every result does, keeping the values in order |
| Wrappers.GatheredFirstFailure | src/main/java/org/ihtsdo/snowowl/authoring/batchimport/api/service/BatchImportService.java:524-538 | a gathered failure is the first failing result's |
| Wrappers.GatheredFailurePersists | src/main/java/org/ihtsdo/snowowl/authoring/batchimport/api/service/BatchImportService.java:524-538 | once a prefix fails, more results do not change the failure |
| Wrappers.GatheredSnoc | src/main/java/org/ihtsdo/snowowl/authoring/batchimport/api/service/BatchImportService.java:524-538 | one more result extends the values, or becomes the failure |
| TermserverDescription.ToInt32 | termserver-scripting/src/main/java/org/ihtsdo/termserver/scripting/domain/Description.java:177-179 | Java's `int` wrap-around always lands in the 32-bit range |
| TermserverDescription.Utf16Units | termserver-scripting/src/main/java/org/ihtsdo/termserver/scripting/domain/Description.java:177-179 | a character is one or two UTF-16 code units |
| TermserverDescription.Utf16 | termserver-scripting/src/main/java/org/ihtsdo/termserver/scripting/domain/Description.java:177-179 | UTF-16 is at least as long as the string |
| TermserverDescription.HashUnits | termserver-scripting/src/main/java/org/ihtsdo/termserver/scripting/domain/Description.java:177-179 | the hash is always a 32-bit value |
| TermserverDescription.ToInt32Congruent | termserver-scripting/src/main/java/org/ihtsdo/termserver/scripting/domain/Description.java:177-179 | values that differ by multiples of 2^32 wrap to the same `int` |
| TermserverDescription.ToInt32Offset | termserver-scripting/src/main/java/org/ihtsdo/termserver/scripting/domain/Description.java:177-179 | wrapping subtracts a multiple of 2^32 |
| TermserverDescription.HashIsWrappedPolynomial | termserver-scripting/src/main/java/org/ihtsdo/termserver/scripting/domain/Description.java:177-179 | the step-by-step wrapped hash equals the base-31 polynomial wrapped once |
| TermserverDescription.TwoUnitHash | termserver-scripting/src/main/java/org/ihtsdo/termserver/scripting/domain/Description.java:177-179 | a two-unit string hashes to 31 times the first plus the second |
| TermserverDescription.TermHashCollision | termserver-scripting/src/main/java/org/ihtsdo/termserver/scripting/domain/Description.java:177-179 | "Aa" and "BB" differ but hash to the same value |
| TermserverDescription.AcceptabilityMap.constructor | termserver-scripting/src/main/java/org/ihtsdo/termserver/scripting/domain/Description.java:205 | a new map is empty |
| TermserverDescription.AcceptabilityMap.PutAll | termserver-scripting/src/main/java/org/ihtsdo/termserver/scripting/domain/Description.java:206 | putAll copies every entry over |
| TermserverDescription.Description.constructor | termserver-scripting/src/main/java/org/ihtsdo/termserver/scripting/domain/Description.java:57-58 | a new description is inactive with every field unset |
| TermserverDescription.Description.Of | termserver-scripting/src/main/java/org/ihtsdo/termserver/scripting/domain/Description.java:73-84 | the full constructor sets every field it takes and no inactivation indicator |
| TermserverDescription.Description.SetEffectiveTime | termserver-scripting/src/main/java/org/ihtsdo/termserver/scripting/domain/Description.java:90-92 | changes only the effective time |
| TermserverDescription.Description.SetModuleId | termserver-scripting/src/main/java/org/ihtsdo/termserver/scripting/domain/Description.java:98-100 | changes only the module |
| TermserverDescription.Description.SetActive | termserver-scripting/src/main/java/org/ihtsdo/termserver/scripting/domain/Description.java:106-108 | changes only the active flag |
| TermserverDescription.Description.SetDescriptionId | termserver-scripting/src/main/java/org/ihtsdo/termserver/scripting/domain/Description.java:114-116 | changes only the id |
| TermserverDescription.Description.SetConceptId | termserver-scripting/src/main/java/org/ihtsdo/termserver/scripting/domain/Description.java:122-124 | changes only the concept id |
| TermserverDescription.Description.SetType | termserver-scripting/src/main/java/org/ihtsdo/termserver/scripting/domain/Description.java:130-132 | changes only the type |
| TermserverDescription.Description.SetLang | termserver-scripting/src/main/java/org/ihtsdo/termserver/scripting/domain/Description.java:138-140 | changes only the language |
| TermserverDescription.Description.SetTerm | termserver-scripting/src/main/java/org/ihtsdo/termserver/scripting/domain/Description.java:146-148 | changes only the term |
| TermserverDescription.Description.SetCaseSignificance | termserver-scripting/src/main/java/org/ihtsdo/termserver/scripting/domain/Description.java:154-156 | changes only the case significance |
| TermserverDescription.Description.SetAcceptabilityMap | termserver-scripting/src/main/java/org/ihtsdo/termserver/scripting/domain/Description.java:167-169 | changes only the acceptability map |
| TermserverDescription.Description.SetInactivationIndicator | termserver-scripting/src/main/java/org/ihtsdo/termserver/scripting/domain/Description.java:214-216 | changes only the inactivation indicator |
| TermserverDescription.Description.ToString | termserver-scripting/src/main/java/org/ihtsdo/termserver/scripting/domain/Description.java:172-174 | the id, or "NEW" for an unsaved description, then the concept id in brackets, then ": " and the term, with null shown as "null" |
| TermserverDescription.ToStringReadsBack | termserver-scripting/src/main/java/org/ihtsdo/termserver/scripting/domain/Description.java:172-174 | when ids hold no brackets, the id, the concept id and the term can be read back from the text |
| TermserverDescription.Description.HashCode | termserver-scripting/src/main/java/org/ihtsdo/termserver/scripting/domain/Description.java:177-179 | the term's Java hash; a null term has none (the source throws) |
| TermserverDescription.Description.Equals | termserver-scripting/src/main/java/org/ihtsdo/termserver/scripting/domain/Description.java:182-191 | true for itself, false for null, and otherwise true exactly when the terms' hash codes agree |
| TermserverDescription.Description.TermEquals | termserver-scripting/src/main/java/org/ihtsdo/termserver/scripting/domain/Description.java:182-191 | true exactly when the terms agree, and then the hash codes agree |
| TermserverDescription.Description.Clone | termserver-scripting/src/main/java/org/ihtsdo/termserver/scripting/domain/Description.java:194-208 | a fresh description with the same fields and a fresh copy of the acceptability map, without effective time, id or inactivation indicator |
| TermserverDescription.EqualsConflatesTerms | termserver-scripting/src/main/java/org/ihtsdo/termserver/scripting/domain/Description.java:182-191 | descriptions with terms "Aa" and "BB" are equal as written but differ by term |

## Left out

- The executor, the runner thread, logging and `synchronized` are not modelled. Each import is one sequential run.
- `outputCSV`, `getFilePath`, `getFileLocation` and `getImportResults*` are not modelled. They write the per-row outcomes out as a file, and the model keeps those outcomes as a map from record number.
- The user-interface side effects of a batch are not modelled: `primeEditPanel`, `primeSavedList`, `toSavedListJson`, `updateTaskDetails`, `updateTaskDescription` and `getAllNotes`. They only update the task and its panels after the concepts are loaded.
- The "New concept: FSN" task summary for one concept per task is not modelled, for the same reason.
- Remote calls are deterministic functions of their arguments. Network errors appear only as the failure values those functions return.
- `BatchImportRun.java` is not part of this model. The run's hierarchy, `fail`, `succeed`, `insertIntoLoadHierarchy`, `abortLoad` and `childrenCount` are inferred from the service's calls. A concept goes under the first imported concept whose SCTID is its first parent.
- `BatchImportGroup.java` is not part of this model. Group parsing is the `GroupParser` parameter.
- The new `validate` calls `BatchImportExpression.parse` with one argument, while the parser shown takes a module id too. The model uses the two-argument parser, with the module folded into the group parser.
- `VerhoeffCheck.java` is not part of this model. Its check is the published Verhoeff scheme, and its exceptions for a null, empty or non-numeric id are failures.
- The formatter (`createConcept`) and the import format are parameters. Header lists and column indices are values of `Format`.
- Java `HashSet`s of descriptions and relationships are sequences in insertion order. Duplicate removal on insert is not modelled, and set iteration order is not modelled.
- `ConceptPojo.java` is not part of this model. Its `getFsn` is taken to return what `setFsn` stored, and nothing otherwise.
- Exception messages are those of Java 8: an array index outside a CSV row names only the index, an empty `ArrayList` reports "Index: 0, Size: 0", and a `StringBuffer.substring` past the end reports "String index out of range: " and the end.
- `Validate` (new) splits the Java `validate` into the verdict (`CheckConcept`) and recording the failure on the run. A concept without parents raises an exception there; the verdict `Threw` records it as in the row loop's catch.
- `LegacyBatchImportService.Rejection`: the old concept's single parent is an `Option`, and a null parent prints as "null".
- `TermserverDescription.Description.Clone` checks for a null acceptability map before building the copy, while the Java code builds the copy first and then throws. No caller can observe the difference.
- `TermserverDescription.Description.HashCode` returns no value for a null term, where Java throws a `NullPointerException`.
- `BatchImportService.LoadResult`, `LoadResultCases`, `LoadConcept`, `LoadResults`, `LoadConcepts` and `LoadConceptsOntoTasks` run the corrected laterality check of the second Findings row. As written, every row fails with the null message when lateralized content is disallowed (`LoadResultAsWrittenFailsEveryRow`).
- `JavaText.IsDigit`, `JavaText.IsNumericSpace`, `JavaText.ToLower`, `JavaText.ParsesAsLong` (the `Long.parseLong` check) and `BatchImportExpression.NumericSpaceBetween` are ASCII-only and locale-neutral. Java's `Character.isDigit` and `Long.parseLong` also accept other Unicode digits. `toLowerCase` follows the default locale: in a Turkish locale "RIGHT" lowers to "rıght", and "İ" lowers to two characters, so the length is not always kept.
- RF2 enumerations, the `Description` getters and the `InactivationIndicator` type are reduced to the values the modelled code reads.

## Findings

| source | as written | input that shows it | evidently intended | confidence | as-written member | corrected member |
|---|---|---|---|---|---|---|
| termserver-scripting/src/main/java/org/ihtsdo/termserver/scripting/domain/Description.java:182-191 | `equals` compares the terms' `hashCode`s | two descriptions with terms "Aa" and "BB" (both hash to 2112) are equal | descriptions with different terms are different | not executed | TermserverDescription.EqualsConflatesTerms | TermserverDescription.Description.TermEquals |
| src/main/java/org/ihtsdo/snowowl/authoring/batchimport/api/service/BatchImportService.java:469 | `validateConcept` lower-cases `newConcept.getFsn()`, but `createBrowserConcept` sets the FSN only on the import concept (line 523), never on the payload | any row, with lateralized content disallowed: the null FSN throws and the row fails with a null message, whatever its FSN says | only rows whose FSN contains "left" or "right" are rejected | not executed; rests on `getFsn` returning the unset field | BatchImportService.AsWrittenRejectsEveryPayload | BatchImportService.ConceptCheckOfBuiltPayload |
