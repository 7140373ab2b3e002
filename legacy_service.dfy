/**
 * The older batch import service. It follows the same plan as the newer one
 * (screen the rows, build the load hierarchy, refuse a file whose top-level
 * concept would not fit in one task, then load batch by batch, one task per
 * batch) but reads a single parent per row, always checks laterality, has no
 * dry run, and reports a payload the terminology server refuses through the
 * server's own error description.
 *
 * The remote services (task creation, the task branch, concept creation)
 * are parameters; threads, logging, the UI panels, the task description and
 * the results file are not modelled.
 */
module LegacyBatchImportService {
  import opened Wrappers
  import opened JavaText
  import opened Snomed
  import opened ImportRun
  import opened ImportProgress
  import opened ImportCommon

  /** A row needs more fields than this to be read as a concept. */
  const MIN_VIABLE_COLUMNS: int := 9
  const BLANK_ROW: string := "Blank row detected"
  /** How Java prints a null string, and the message of an exception that carries none. */
  const NULL_TEXT: string := "null"
  const LATERALIZED: string := "Lateralized content detected"
  /** The temporary id of the one "is a" relationship. */
  const ISA_ID: string := "rel_isa"

  /**
   * The error the terminology server reports for a payload it refuses: its
   * message, its developer message, and its additional information as
   * key/value pairs in the map's iteration order.
   */
  datatype ApiError = ApiError(message: string, developerMessage: string, additionalInfo: seq<(string, string)>)

  /** What the terminology server does with a payload: creates it, refuses it, or fails with another exception's message. */
  datatype Creation = Created(conceptId: string) | Refused(error: ApiError) | Raised(message: string)

  /**
   * The remote calls a run makes: the task service creates a task (project
   * key, author, summary; the task key back), the branch service creates its
   * branch (project key, task key), and the browser service creates a concept
   * (branch path, payload, author).
   */
  datatype Remote = Remote(
    createTask: (string, string, string) -> Result<string>,
    createTaskBranch: (string, string) -> Result<()>,
    createConcept: (string, BrowserConcept, string) -> Creation)

  // ---------------------------------------------------------------------------
  // Screening a row

  /** The one parent this format reads from a row; None stands for a null parent. */
  function Parent(c: Concept): Option<string> {
    if |c.parents| > 0 then Some(c.parents[0]) else None
  }

  /** How string concatenation prints a possibly null string. */
  function Text(s: Option<string>): string {
    if s.None? then NULL_TEXT else s.value
  }

  /**
   * `validate`: why the concept fails, or None when it passes. Its own SCTID
   * is checked unless it needs a new one, then its parent; a null parent is
   * simply not valid.
   */
  function Rejection(c: Concept): (r: Option<string>)
    ensures r.None? <==> (c.requiresNewSctid || ValidateSctid(Some(c.sctid))) && ValidateSctid(Parent(c))
    ensures !c.requiresNewSctid && !ValidateSctid(Some(c.sctid)) ==> r == Some(c.sctid + " is not a valid sctid.")
    ensures (c.requiresNewSctid || ValidateSctid(Some(c.sctid))) && Parent(c).None? ==>
      r == Some(NULL_TEXT + " is not a valid parent identifier.")
  {
    ValidateSctidNeverFails(Parent(c));
    if !c.requiresNewSctid && !ValidateSctid(Some(c.sctid)) then Some(c.sctid + " is not a valid sctid.")
    else if !ValidateSctid(Parent(c)) then Some(Text(Parent(c)) + " is not a valid parent identifier.")
    else None
  }

  /** `validate`: true when the concept passes; otherwise its row is failed with the reason. */
  method Validate(run: BatchImportRun, c: Concept) returns (valid: bool)
    modifies run
    ensures valid <==> Rejection(c).None?
    ensures run.outcomes == if valid then old(run.outcomes) else old(run.outcomes)[c.row.recordNumber := RowOutcome.Failed(Rejection(c).value)]
    ensures run.concepts == old(run.concepts) && run.parentOf == old(run.parentOf)
  {
    if !c.requiresNewSctid && !ValidateSctid(Some(c.sctid)) {
      run.Fail(c.row, c.sctid + " is not a valid sctid.");
      return false;
    }
    var parent := Parent(c);
    if !ValidateSctid(parent) {
      run.Fail(c.row, Text(parent) + " is not a valid parent identifier.");
      return false;
    }
    return true;
  }

  /**
   * The fate of one row in `prepareConcepts`: a row with too few fields is
   * rejected as blank; a row the format cannot read raises an exception that
   * stops the preparation; a concept that fails validation is rejected with
   * the reason, and one that passes is accepted.
   */
  function ScreenRow(createConcept: Row -> Result<Concept>, row: Row): (r: Screening)
    ensures |row.fields| <= MIN_VIABLE_COLUMNS ==> r == Reject(BLANK_ROW)
    ensures r.Abort? <==> |row.fields| > MIN_VIABLE_COLUMNS && createConcept(row).Err?
    ensures r.Abort? ==> r.error == createConcept(row).error
    ensures r.Accept? <==> (|row.fields| > MIN_VIABLE_COLUMNS && createConcept(row).Ok? &&
      Rejection(createConcept(row).value.(row := row)).None?)
    ensures r.Accept? ==> r.concept == createConcept(row).value.(row := row)
    ensures r.Reject? && |row.fields| > MIN_VIABLE_COLUMNS ==> r.reason == Rejection(createConcept(row).value.(row := row)).value
  {
    if |row.fields| <= MIN_VIABLE_COLUMNS then Reject(BLANK_ROW)
    else match createConcept(row)
      case Err(m) => Abort(m)
      case Ok(built) =>
        var c := built.(row := row);
        match Rejection(c)
        case None => Accept(c)
        case Some(m) => Reject(m)
  }

  function Screen(createConcept: Row -> Result<Concept>): Row -> Screening {
    row => ScreenRow(createConcept, row)
  }

  /**
   * `prepareConcepts`: the rows are screened in turn, valid concepts inserted
   * into the load hierarchy and the other rows failed, until a row the format
   * cannot read ends the preparation with its exception.
   */
  method PrepareConcepts(run: BatchImportRun, rows: seq<Row>, createConcept: Row -> Result<Concept>) returns (r: Result<()>)
    modifies run
    requires run.Valid()
    ensures run.Valid()
    ensures var p := PrepareAll(old(run.outcomes), rows, Screen(createConcept));
      run.outcomes == p.outcomes &&
      run.concepts == old(run.concepts) + p.accepted &&
      run.parentOf == InsertedParents(old(run.concepts), old(run.parentOf), p.accepted) &&
      (r.Err? <==> p.aborted.Some?) && (r.Err? ==> r.error == p.aborted.value)
  {
    var screen := Screen(createConcept);
    for i := 0 to |rows|
      invariant run.Valid()
      invariant var p := PrepareAll(old(run.outcomes), rows[..i], screen);
        run.outcomes == p.outcomes && p.aborted.None? &&
        run.concepts == old(run.concepts) + p.accepted &&
        run.parentOf == InsertedParents(old(run.concepts), old(run.parentOf), p.accepted)
    {
      ghost var p := PrepareAll(old(run.outcomes), rows[..i], screen);
      PrepareAllStep(old(run.outcomes), rows, i, screen);
      var row := rows[i];
      assert screen(row) == ScreenRow(createConcept, row);
      if |row.fields| > MIN_VIABLE_COLUMNS {
        var built := createConcept(row);
        if built.Err? {
          PrepareAllStopsAtAbort(old(run.outcomes), rows, i + 1, screen);
          return Err(built.error);
        }
        var c := built.value.(row := row);
        var valid := Validate(run, c);
        if valid {
          InsertedParentsSnoc(old(run.concepts), old(run.parentOf), p.accepted, c);
          run.InsertIntoLoadHierarchy(c);
        }
      } else {
        run.Fail(row, BLANK_ROW);
      }
    }
    assert rows[..|rows|] == rows;
    r := Ok(());
  }

  /**
   * What preparation promises when record numbers are distinct and every row
   * can be read: a short row is failed as blank, a row whose concept fails
   * validation is failed with the reason, and every inserted concept passed
   * validation.
   */
  lemma PrepareConceptsScreens(rows: seq<Row>, createConcept: Row -> Result<Concept>)
    requires DistinctRecords(rows)
    requires forall k :: 0 <= k < |rows| && |rows[k].fields| > MIN_VIABLE_COLUMNS ==> createConcept(rows[k]).Ok?
    ensures var p := PrepareAll(map[], rows, Screen(createConcept));
      p.aborted.None? &&
      (forall k :: 0 <= k < |rows| && |rows[k].fields| <= MIN_VIABLE_COLUMNS ==>
        rows[k].recordNumber in p.outcomes && p.outcomes[rows[k].recordNumber] == RowOutcome.Failed(BLANK_ROW)) &&
      (forall k :: (0 <= k < |rows| && |rows[k].fields| > MIN_VIABLE_COLUMNS &&
          Rejection(createConcept(rows[k]).value.(row := rows[k])).Some?) ==>
        rows[k].recordNumber in p.outcomes &&
        p.outcomes[rows[k].recordNumber] == RowOutcome.Failed(Rejection(createConcept(rows[k]).value.(row := rows[k])).value)) &&
      (forall c :: c in p.accepted ==> Rejection(c).None?)
  {
    var screen := Screen(createConcept);
    forall k | 0 <= k < |rows|
      ensures !screen(rows[k]).Abort?
    {
      assert screen(rows[k]) == ScreenRow(createConcept, rows[k]);
    }
    PrepareAllScreensEveryRow(map[], rows, screen);
    var p := PrepareAll(map[], rows, screen);
    forall c | c in p.accepted
      ensures Rejection(c).None?
    {
      var k :| 0 <= k < |rows| && screen(rows[k]) == Accept(c);
      assert ScreenRow(createConcept, rows[k]) == Accept(c);
    }
  }

  /** A row the format cannot read stops the preparation, with that row's exception. */
  lemma UnreadableRowStopsPreparation(rows: seq<Row>, createConcept: Row -> Result<Concept>, k: nat)
    requires k < |rows| && |rows[k].fields| > MIN_VIABLE_COLUMNS && createConcept(rows[k]).Err?
    ensures PrepareAll(map[], rows, Screen(createConcept)).aborted.Some?
    ensures exists j :: (0 <= j < |rows| && |rows[j].fields| > MIN_VIABLE_COLUMNS && createConcept(rows[j]).Err? &&
      PrepareAll(map[], rows, Screen(createConcept)).aborted.value == createConcept(rows[j]).error)
  {
    var screen := Screen(createConcept);
    assert screen(rows[k]) == ScreenRow(createConcept, rows[k]);
    PrepareAllAborts(map[], rows, screen);
    var j :| 0 <= j < |rows| && screen(rows[j]) == Abort(PrepareAll(map[], rows, screen).aborted.value);
    assert ScreenRow(createConcept, rows[j]).Abort?;
  }

  // ---------------------------------------------------------------------------
  // Starting a run

  /** `createRun` followed by `prepareConcepts`: a fresh run holding the screened rows. */
  method PreparedRun(id: ImportId, request: ImportRequest, rows: seq<Row>, createConcept: Row -> Result<Concept>)
    returns (run: BatchImportRun, prepared: Result<()>)
    ensures fresh(run) && run.Valid() && run.id == id && run.request == request
    ensures var p := PrepareAll(map[], rows, Screen(createConcept));
      run.outcomes == p.outcomes && run.concepts == p.accepted && run.parentOf == InsertedParents([], [], p.accepted) &&
      (prepared.Err? <==> p.aborted.Some?) && (prepared.Err? ==> prepared.error == p.aborted.value)
  {
    run := new BatchImportRun(id, request);
    prepared := PrepareConcepts(run, rows, createConcept);
  }

  /**
   * `startImport`: a fresh run is registered as RUNNING and its rows are
   * prepared; an exception during preparation escapes, leaving the run
   * RUNNING with no target. Otherwise the target is set to the number of
   * concepts in the hierarchy and the run is scheduled only if the gate
   * passes; if not, every undecided row is aborted and the run is FAILED.
   */
  method StartImport(board: ImportStatusBoard, id: ImportId, request: ImportRequest, rows: seq<Row>,
                     createConcept: Row -> Result<Concept>)
    returns (run: BatchImportRun, scheduled: Result<bool>)
    modifies board
    requires board.Valid()
    ensures board.Valid()
    ensures fresh(run) && run.Valid() && run.id == id && run.request == request
    ensures var p := PrepareAll(map[], rows, Screen(createConcept));
      run.concepts == p.accepted && run.parentOf == InsertedParents([], [], p.accepted) &&
      (scheduled.Err? <==> p.aborted.Some?)
    ensures scheduled.Err? ==>
      scheduled.error == PrepareAll(map[], rows, Screen(createConcept)).aborted.value &&
      run.outcomes == PrepareAll(map[], rows, Screen(createConcept)).outcomes &&
      board.currentImports == old(board.currentImports)[id := NewStatus(Running)]
    ensures scheduled.Ok? ==> (scheduled.value <==> WithinTaskLimit(run.parentOf, run.RootChildren(), request.conceptsPerTask))
    ensures scheduled == Ok(true) ==> run.outcomes == PrepareAll(map[], rows, Screen(createConcept)).outcomes
    ensures scheduled == Ok(false) ==> run.outcomes == Aborted(
      GateFailures(PrepareAll(map[], rows, Screen(createConcept)).outcomes,
                   run.concepts, run.parentOf, run.RootChildren(), request.conceptsPerTask), rows)
    ensures scheduled.Ok? ==> board.currentImports == old(board.currentImports)[id :=
      BatchImportStatus(if scheduled.value then Running else BatchImportState.Failed, Some(ChildrenCount(run.parentOf, ROOT)), None, None)]
  {
    board.Start(id);
    var prepared;
    run, prepared := PreparedRun(id, request, rows, createConcept);
    if prepared.Err? {
      return run, Err(prepared.error);
    }
    ghost var outcomes := run.outcomes;
    var rowsToProcess := ChildrenCount(run.parentOf, ROOT);
    board.SetTarget(id, rowsToProcess);
    ghost var running := BatchImportStatus(Running, Some(rowsToProcess), None, None);
    Overwritten(old(board.currentImports), id, NewStatus(Running), running);
    var valid := ValidateLoadHierarchy(run);
    if valid {
      GatePassLeavesOutcomes(outcomes, run.concepts, run.parentOf, run.RootChildren(), request.conceptsPerTask);
    } else {
      run.AbortLoad(rows);
      board.SetState(id, BatchImportState.Failed);
      Overwritten(old(board.currentImports), id, running, running.(state := BatchImportState.Failed));
    }
    scheduled := Ok(valid);
  }

  // ---------------------------------------------------------------------------
  // The concept payload

  /** `createRelationship`: the one active, stated "is a" relationship to the row's parent, with no group or modifier. */
  function IsARelationship(c: Concept): BrowserRelationship {
    BrowserRelationship(Some(ISA_ID), c.sctid, SCTID_ISA, Parent(c), None, STATED_RELATIONSHIP, None, true)
  }

  /** `createDescription`: an active, case-insensitive English description carrying a temporary id. */
  function CreateDescription(term: string, descriptionType: DescriptionType, acceptability: map<string, Acceptability>): BrowserDescription {
    BrowserDescription(Some("desc_" + DescriptionTypeName(descriptionType)), term, true, descriptionType, EN_LANGUAGE_CODE,
      acceptability, CaseInsensitive)
  }

  /** The fully specified name: the term followed by the semantic tag in parentheses. */
  function FsnTerm(prefTerm: string, tag: string): string {
    prefTerm + " (" + tag + ")"
  }

  /**
   * `createBrowserConcept`: an active primitive concept with one "is a"
   * relationship to the row's parent, the FSN built from the FSN root and the
   * semantic tag, the root as preferred term, then the row's other synonyms.
   * Reading a column the row does not have raises the index exception.
   */
  function Payload(format: Format, c: Concept): Result<BrowserConcept> {
    var prefTerm :- Field(c, format.fsnRootIndex);
    var tag :- Field(c, format.semanticTagIndex);
    var fsnTerm := FsnTerm(prefTerm, tag);
    var named := [CreateDescription(fsnTerm, Fsn, PREFERRED_ACCEPTABILITY), CreateDescription(prefTerm, Synonym, PREFERRED_ACCEPTABILITY)];
    Ok(BrowserConcept(if c.requiresNewSctid then None else Some(c.sctid), true, Primitive, Some(fsnTerm),
      WithSynonyms(named, c.synonyms), [IsARelationship(c)]))
  }

  method CreateBrowserConcept(c: Concept, format: Format) returns (r: Result<BrowserConcept>)
    ensures r == Payload(format, c)
  {
    var conceptId := if c.requiresNewSctid then None else Some(c.sctid);
    var relationships := [IsARelationship(c)];
    var root := Field(c, format.fsnRootIndex);
    if root.Err? {
      return Err(root.error);
    }
    var tag := Field(c, format.semanticTagIndex);
    if tag.Err? {
      return Err(tag.error);
    }
    var prefTerm := root.value;
    var fsnTerm := FsnTerm(prefTerm, tag.value);
    var descriptions := [CreateDescription(fsnTerm, Fsn, PREFERRED_ACCEPTABILITY)];
    descriptions := descriptions + [CreateDescription(prefTerm, Synonym, PREFERRED_ACCEPTABILITY)];
    assert descriptions == [CreateDescription(fsnTerm, Fsn, PREFERRED_ACCEPTABILITY), CreateDescription(prefTerm, Synonym, PREFERRED_ACCEPTABILITY)];
    descriptions := AddSynonyms(descriptions, c.synonyms);
    r := Ok(BrowserConcept(conceptId, true, Primitive, Some(fsnTerm), descriptions, relationships));
  }

  /**
   * What the payload promises: it can be built exactly when the row has the
   * FSN root and semantic tag columns; it is then an active primitive concept
   * keeping its SCTID unless a new one is needed, with one stated "is a"
   * relationship to the row's parent, the FSN first and the root second (both
   * preferred in both dialects), every listed synonym present as an
   * acceptable synonym, and no term twice.
   */
  lemma PayloadShape(format: Format, c: Concept)
    ensures Payload(format, c).Ok? <==>
      0 <= format.fsnRootIndex < |c.row.fields| && 0 <= format.semanticTagIndex < |c.row.fields|
    ensures Payload(format, c).Ok? ==>
      var b := Payload(format, c).value;
      var root := c.row.fields[format.fsnRootIndex];
      var fsnTerm := FsnTerm(root, c.row.fields[format.semanticTagIndex]);
      b.active && b.definitionStatus == Primitive &&
      b.conceptId == (if c.requiresNewSctid then None else Some(c.sctid)) &&
      b.fsn == Some(fsnTerm) &&
      |b.relationships| == 1 && b.relationships[0].typeId == SCTID_ISA && b.relationships[0].sourceId == c.sctid &&
      b.relationships[0].targetId == Parent(c) && b.relationships[0].characteristicType == STATED_RELATIONSHIP &&
      |b.descriptions| >= 2 &&
      b.descriptions[0].descriptionType == Fsn && b.descriptions[0].term == fsnTerm &&
      b.descriptions[0].acceptabilityMap == PREFERRED_ACCEPTABILITY &&
      b.descriptions[1].descriptionType == Synonym && b.descriptions[1].term == root &&
      b.descriptions[1].acceptabilityMap == PREFERRED_ACCEPTABILITY &&
      (forall k :: 2 <= k < |b.descriptions| ==>
        b.descriptions[k] == SynonymDescription(b.descriptions[k].term) && b.descriptions[k].term in c.synonyms) &&
      (forall k :: 0 <= k < |c.synonyms| ==> c.synonyms[k] in Terms(b.descriptions)) &&
      DistinctTerms(b.descriptions)
  {
    if Payload(format, c).Ok? {
      var root := c.row.fields[format.fsnRootIndex];
      var fsnTerm := FsnTerm(root, c.row.fields[format.semanticTagIndex]);
      var named := [CreateDescription(fsnTerm, Fsn, PREFERRED_ACCEPTABILITY), CreateDescription(root, Synonym, PREFERRED_ACCEPTABILITY)];
      assert |fsnTerm| > |root|;
      assert DistinctTerms(named);
      WithSynonymsDeduplicates(named, c.synonyms);
      assert WithSynonyms(named, c.synonyms)[..2] == named;
    }
  }

  // ---------------------------------------------------------------------------
  // Checking a concept and reporting the server's errors

  /**
   * `validateConcept`: the payload fails when its lower-cased FSN contains
   * "left" or "right", whatever the request says; a payload without an FSN
   * fails with the null pointer's empty message.
   */
  function LateralityCheck(payload: BrowserConcept): (r: Result<()>)
    ensures r.Ok? <==> payload.fsn.Some? && !IsLateralized(payload.fsn.value)
    ensures payload.fsn.Some? && IsLateralized(payload.fsn.value) ==> r == Err(LATERALIZED)
  {
    match payload.fsn
    case None => Err(NULL_TEXT)
    case Some(fsn) => if IsLateralized(fsn) then Err(LATERALIZED) else Ok(())
  }

  method ValidateConcept(payload: BrowserConcept) returns (r: Result<()>)
    ensures r == LateralityCheck(payload)
  {
    if payload.fsn.None? {
      return Err(NULL_TEXT);
    }
    var lower := ToLower(payload.fsn.value);
    for k := 0 to |LATERALITY|
      invariant forall j :: 0 <= j < k ==> !Contains(lower, LATERALITY[j])
    {
      if Contains(lower, LATERALITY[k]) {
        return Err(LATERALIZED);
      }
    }
    return Ok(());
  }

  /** One additional-information entry as `prettyPrint` writes it. */
  function InfoEntry(entry: (string, string)): string {
    entry.0 + ":" + entry.1
  }

  /** The additional-information entries, separated by ", ". */
  function InfoText(info: seq<(string, string)>): string
    decreases |info|
  {
    if info == [] then ""
    else if |info| == 1 then InfoEntry(info[0])
    else InfoText(info[..|info| - 1]) + ", " + InfoEntry(info[|info| - 1])
  }

  /** The head of a printed error: the message, the developer message, and the opening bracket. */
  function PrintedHead(e: ApiError): string {
    e.message + " - " + e.developerMessage + ": [ "
  }

  /** The text `prettyPrint` makes of a server error. */
  function Printed(e: ApiError): string {
    PrintedHead(e) + InfoText(e.additionalInfo) + " ]"
  }

  method PrettyPrint(e: ApiError) returns (s: string)
    ensures s == Printed(e)
  {
    s := e.message + " - " + e.developerMessage + ": [ ";
    var isFirst := true;
    for i := 0 to |e.additionalInfo|
      invariant isFirst <==> i == 0
      invariant s == PrintedHead(e) + InfoText(e.additionalInfo[..i])
    {
      PrefixStep(e.additionalInfo, i);
      if !isFirst {
        s := s + ", ";
      } else {
        isFirst := false;
      }
      s := s + InfoEntry(e.additionalInfo[i]);
    }
    assert e.additionalInfo[..|e.additionalInfo|] == e.additionalInfo;
    s := s + " ]";
  }

  /** Where the k-th entry sits in the joined text. */
  lemma {:induction false} EntryOffset(info: seq<(string, string)>, k: nat) returns (i: nat)
    requires k < |info|
    ensures OccursAt(InfoText(info), InfoEntry(info[k]), i)
    decreases |info|
  {
    var n := |info| - 1;
    if n == 0 {
      i := 0;
    } else if k == n {
      i := |InfoText(info[..n]) + ", "|;
    } else {
      assert info[..n][k] == info[k];
      i := EntryOffset(info[..n], k);
      var t := InfoEntry(info[k]);
      assert InfoText(info)[i..i + |t|] == InfoText(info[..n])[i..i + |t|];
    }
  }

  /**
   * A printed error starts with the server's message and developer message,
   * and names every additional-information entry as key:value.
   */
  lemma PrintedNamesEveryEntry(e: ApiError)
    ensures e.message + " - " + e.developerMessage <= Printed(e)
    ensures forall k :: 0 <= k < |e.additionalInfo| ==> Contains(Printed(e), InfoEntry(e.additionalInfo[k]))
  {
    var head := PrintedHead(e);
    assert Printed(e) == (e.message + " - " + e.developerMessage) + (": [ " + InfoText(e.additionalInfo) + " ]");
    forall k | 0 <= k < |e.additionalInfo|
      ensures Contains(Printed(e), InfoEntry(e.additionalInfo[k]))
    {
      var i := EntryOffset(e.additionalInfo, k);
      var t := InfoEntry(e.additionalInfo[k]);
      assert Printed(e)[|head| + i..|head| + i + |t|] == InfoText(e.additionalInfo)[i..i + |t|];
      assert OccursAt(Printed(e), t, |head| + i);
    }
  }

  // ---------------------------------------------------------------------------
  // Loading a concept

  /**
   * The try block of `loadConcepts` for one concept: the created id, or the
   * message that fails the row. A refused payload is reported through the
   * server's printed error.
   */
  function LoadResult(request: ImportRequest, taskKey: string, c: Concept, remote: Remote): Result<string> {
    var payload :- Payload(request.format, c);
    var checked :- LateralityCheck(payload);
    match remote.createConcept(BranchPath(request.projectKey, taskKey), WithoutTemporaryIds(payload), request.createForAuthor)
    case Created(id) => Ok(id)
    case Refused(e) => Err(Printed(e))
    case Raised(m) => Err(m)
  }

  /**
   * A concept with a lateralized FSN always fails, before the server is
   * asked; otherwise a buildable concept gets what the server answers for
   * its payload without temporary ids.
   */
  lemma LoadResultCases(request: ImportRequest, taskKey: string, c: Concept, remote: Remote)
    ensures Payload(request.format, c).Err? ==> LoadResult(request, taskKey, c, remote) == Err(Payload(request.format, c).error)
    ensures Payload(request.format, c).Ok? ==>
      var fsnTerm := FsnTerm(c.row.fields[request.format.fsnRootIndex], c.row.fields[request.format.semanticTagIndex]);
      var answer := remote.createConcept(BranchPath(request.projectKey, taskKey), WithoutTemporaryIds(Payload(request.format, c).value), request.createForAuthor);
      (IsLateralized(fsnTerm) ==> LoadResult(request, taskKey, c, remote) == Err(LATERALIZED)) &&
      (!IsLateralized(fsnTerm) && answer.Created? ==> LoadResult(request, taskKey, c, remote) == Ok(answer.conceptId)) &&
      (!IsLateralized(fsnTerm) && answer.Refused? ==> LoadResult(request, taskKey, c, remote) == Err(Printed(answer.error))) &&
      (!IsLateralized(fsnTerm) && answer.Raised? ==> LoadResult(request, taskKey, c, remote) == Err(answer.message))
  {
    PayloadShape(request.format, c);
  }

  method LoadConcept(request: ImportRequest, taskKey: string, c: Concept, remote: Remote) returns (result: Result<string>)
    ensures result == LoadResult(request, taskKey, c, remote)
  {
    var payload := CreateBrowserConcept(c, request.format);
    if payload.Err? {
      return Err(payload.error);
    }
    var checked := ValidateConcept(payload.value);
    if checked.Err? {
      return Err(checked.error);
    }
    var cleaned := RemoveTemporaryIds(payload.value);
    var answer := remote.createConcept(BranchPath(request.projectKey, taskKey), cleaned, request.createForAuthor);
    match answer
    case Created(id) =>
      result := Ok(id);
    case Refused(e) =>
      var message := PrettyPrint(e);
      result := Err(message);
    case Raised(m) =>
      result := Err(m);
  }

  function LoadResults(request: ImportRequest, taskKey: string, cs: seq<Concept>, remote: Remote): (r: seq<Result<string>>)
    ensures |r| == |cs| && forall k :: 0 <= k < |cs| ==> r[k] == LoadResult(request, taskKey, cs[k], remote)
  {
    seq(|cs|, k requires 0 <= k < |cs| => LoadResult(request, taskKey, cs[k], remote))
  }

  /** The try block of `loadConcepts`, as a function of the task key and the concept. */
  function LoadOf(request: ImportRequest, remote: Remote): (string, Concept) -> Result<string> {
    (key, c) => LoadResult(request, key, c, remote)
  }

  /** Loading a batch concept by concept is the shared loading with this service's try block. */
  lemma LoadResultsAreLoadAll(request: ImportRequest, taskKey: string, cs: seq<Concept>, remote: Remote)
    ensures LoadResults(request, taskKey, cs, remote) == LoadAll(LoadOf(request, remote), taskKey, cs)
  {
  }

  /**
   * `loadConcepts`: each concept of the batch in turn is loaded or failed,
   * the run's progress is bumped once per concept, and the ids of the loaded
   * ones are returned keyed by their original SCTID.
   */
  method LoadConcepts(board: ImportStatusBoard, run: BatchImportRun, taskKey: string, batch: seq<nat>, remote: Remote)
    returns (loaded: map<string, string>)
    modifies board, run
    requires board.Valid() && run.Valid()
    requires forall k :: 0 <= k < |batch| ==> batch[k] < |run.concepts|
    ensures board.Valid() && run.Valid()
    ensures run.concepts == old(run.concepts) && run.parentOf == old(run.parentOf)
    ensures var cs := BatchConcepts(run.concepts, batch);
      var results := LoadResults(run.request, taskKey, cs, remote);
      run.outcomes == Recorded(old(run.outcomes), Rows(cs), results, taskKey) &&
      board.currentImports == IncrementedAll(old(board.currentImports), run.id, LoadedFlags(results)) &&
      loaded == LoadedIds(Sctids(cs), results)
  {
    ghost var cs := BatchConcepts(run.concepts, batch);
    ghost var results := LoadResults(run.request, taskKey, cs, remote);
    ghost var rows := Rows(cs);
    ghost var flags := LoadedFlags(results);
    ghost var sctids := Sctids(cs);
    loaded := map[];
    for i := 0 to |batch|
      invariant board.Valid() && run.Valid()
      invariant run.concepts == old(run.concepts) && run.parentOf == old(run.parentOf)
      invariant run.outcomes == Recorded(old(run.outcomes), rows[..i], results[..i], taskKey)
      invariant board.currentImports == IncrementedAll(old(board.currentImports), run.id, flags[..i])
      invariant loaded == LoadedIds(sctids[..i], results[..i])
    {
      PrefixStep(rows, i);
      PrefixStep(results, i);
      PrefixStep(flags, i);
      PrefixStep(sctids, i);
      var c := run.concepts[batch[i]];
      var result := LoadConcept(run.request, taskKey, c, remote);
      if result.Ok? {
        run.Succeed(c.row, LoadedMessage(taskKey), result.value);
        loaded := loaded[c.sctid := result.value];
      } else {
        run.Fail(c.row, result.error);
      }
      board.IncrementProgress(run.id, result.Ok?);
    }
    assert rows[..|batch|] == rows && results[..|batch|] == results;
    assert flags[..|batch|] == flags && sctids[..|batch|] == sctids;
  }

  // ---------------------------------------------------------------------------
  // Tasks

  /**
   * `createTask`: the task service creates the task for the author, then the
   * branch service its branch; an exception from either escapes.
   */
  function TaskFor(request: ImportRequest, summary: string, remote: Remote): (r: Result<string>)
    ensures r.Ok? <==> (remote.createTask(request.projectKey, request.createForAuthor, summary).Ok? &&
      remote.createTaskBranch(request.projectKey, remote.createTask(request.projectKey, request.createForAuthor, summary).value).Ok?)
    ensures r.Ok? || remote.createTask(request.projectKey, request.createForAuthor, summary).Err? ==>
      r == remote.createTask(request.projectKey, request.createForAuthor, summary)
    ensures r.Err? && remote.createTask(request.projectKey, request.createForAuthor, summary).Ok? ==>
      r.error == remote.createTaskBranch(request.projectKey, remote.createTask(request.projectKey, request.createForAuthor, summary).value).error
  {
    var key :- remote.createTask(request.projectKey, request.createForAuthor, summary);
    var branch :- remote.createTaskBranch(request.projectKey, key);
    Ok(key)
  }

  method CreateTask(request: ImportRequest, batch: seq<Concept>, remote: Remote) returns (r: Result<string>)
    ensures r == TaskFor(request, TaskSummary(request, batch), remote)
  {
    var rowRange := GetRowRange(batch);
    var summary := request.originalFilename + ": " + rowRange;
    r := remote.createTask(request.projectKey, request.createForAuthor, summary);
    if r.Err? {
      return;
    }
    var branch := remote.createTaskBranch(request.projectKey, r.value);
    if branch.Err? {
      return Err(branch.error);
    }
  }

  /** `createTask`, as a function of the batch's concepts. */
  function TaskOf(request: ImportRequest, remote: Remote): seq<Concept> -> Result<string> {
    batch => TaskFor(request, TaskSummary(request, batch), remote)
  }

  /**
   * The second half of one pass of `loadConceptsOntoTasks`: the concepts of
   * batch b, loaded onto its task, each row recorded with its concept's
   * result and the progress bumped once per concept.
   */
  method LoadBatch(board: ImportStatusBoard, run: BatchImportRun, remote: Remote, batches: seq<seq<nat>>, b: nat, taskKey: string)
    modifies board, run
    requires board.Valid() && run.Valid()
    requires b < |batches| && forall k :: 0 <= k < |batches[b]| ==> batches[b][k] < |run.concepts|
    ensures board.Valid() && run.Valid()
    ensures run.concepts == old(run.concepts) && run.parentOf == old(run.parentOf)
    ensures var cs := BatchConcepts(run.concepts, batches[b]);
      var results := LoadResults(run.request, taskKey, cs, remote);
      run.outcomes == Recorded(old(run.outcomes), Rows(cs), results, taskKey) &&
      board.currentImports == IncrementedAll(old(board.currentImports), run.id, LoadedFlags(results))
    ensures old(run.outcomes).Keys <= run.outcomes.Keys
    ensures Processed(board.currentImports, run.id) == Processed(old(board.currentImports), run.id) + |batches[b]|
    ensures OutcomesCover(run.concepts, batches[b], run.outcomes)
  {
    ghost var before := run.outcomes;
    ghost var imports := board.currentImports;
    var conceptsLoaded := LoadConcepts(board, run, taskKey, batches[b], remote);
    ghost var results := LoadResults(run.request, taskKey, BatchConcepts(run.concepts, batches[b]), remote);
    ghost var single: seq<seq<nat>> := [batches[b]];
    assert Flatten(single) == batches[b] by {
      assert single[..0] == [];
    }
    BatchLoaded(imports, run.id, before, run.concepts, single, 0, results, taskKey);
  }

  /**
   * `loadConceptsOntoTasks`: one task per batch, then the batch's concepts.
   * The outcomes, the status board and the result are those of loading the
   * batches of the hierarchy in turn, each onto the task created for it, up
   * to the first task that cannot be created. When every task could be
   * created, every concept of the hierarchy has an outcome and the run's
   * `processed` counter has grown by exactly the target set when the run
   * started. Outcomes already recorded keep their record.
   */
  method LoadConceptsOntoTasks(board: ImportStatusBoard, run: BatchImportRun, remote: Remote) returns (r: Result<()>)
    modifies board, run
    requires board.Valid() && run.Valid()
    ensures board.Valid() && run.Valid()
    ensures run.concepts == old(run.concepts) && run.parentOf == old(run.parentOf)
    ensures var batches := Batches(Blocks(run.parentOf, run.RootChildren()), run.request.conceptsPerTask);
      IndicesWithin(batches, |run.concepts|) &&
      var loading := LoadedOntoTasks(Loading(old(run.outcomes), old(board.currentImports), Ok(())), run.id, run.concepts,
                                     batches, TaskOf(run.request, remote), LoadOf(run.request, remote));
      run.outcomes == loading.outcomes && board.currentImports == loading.imports && r == loading.status
    ensures old(run.outcomes).Keys <= run.outcomes.Keys
    ensures r.Ok? ==> Processed(board.currentImports, run.id) == Processed(old(board.currentImports), run.id) + ChildrenCount(run.parentOf, ROOT)
    ensures r.Ok? ==> forall j :: j in Descendants(run.parentOf, ROOT) ==> run.concepts[j].row.recordNumber in run.outcomes
  {
    var batches := CollectIntoBatches(run);
    HierarchyBatches(run.parentOf, run.request.conceptsPerTask, batches);
    ghost var start := Loading(run.outcomes, board.currentImports, Ok(()));
    ghost var taskOf, load := TaskOf(run.request, remote), LoadOf(run.request, remote);
    IndicesWithinPrefix(batches, |run.concepts|, 0);
    for b := 0 to |batches|
      invariant board.Valid() && run.Valid()
      invariant run.concepts == old(run.concepts) && run.parentOf == old(run.parentOf)
      invariant IndicesWithin(batches[..b], |run.concepts|)
      invariant LoadedOntoTasks(start, run.id, run.concepts, batches[..b], taskOf, load) == Loading(run.outcomes, board.currentImports, Ok(()))
    {
      LoadedOntoTasksSnoc(start, run.id, run.concepts, batches, taskOf, load, b);
      var task := CreateTask(run.request, BatchConcepts(run.concepts, batches[b]), remote);
      if task.Err? {
        LoadedOntoTasksStopsAtFailure(start, run.id, run.concepts, batches, taskOf, load, b + 1);
        LoadedOntoTasksCovers(start, run.id, run.concepts, batches, taskOf, load);
        return Err(task.error);
      }
      LoadBatch(board, run, remote, batches, b, task.value);
      LoadResultsAreLoadAll(run.request, task.value, BatchConcepts(run.concepts, batches[b]), remote);
    }
    assert batches[..|batches|] == batches;
    LoadedOntoTasksCovers(start, run.id, run.concepts, batches, taskOf, load);
    r := Ok(());
  }
}
