/**
 * The newer batch import service. A run reads the uploaded rows, screens each
 * into a concept or a failure, inserts the valid concepts into the load
 * hierarchy, refuses the whole file when a top-level concept would not fit in
 * one task, and otherwise loads the concepts batch by batch, one task per
 * batch, recording an outcome per row and progress counters per run.
 *
 * The three remote services (the authoring services' task creation, and the
 * terminology server's task branch and concept creation) are parameters;
 * threads, logging, the UI panels, the task notes and the results file are
 * not modelled.
 */
module BatchImportService {
  import opened Wrappers
  import opened JavaText
  import opened Snomed
  import opened BatchImportExpression
  import opened ImportRun
  import opened ImportProgress
  import opened ImportCommon

  /** The task key and concept id used instead of remote ones in a dry run. */
  const DRY_RUN: string := "DRY_RUN"
  const DEFAULT_GROUP: int := 0
  const BLANK_ROW: string := "Blank row detected"
  /** How the message of an exception that carries none reaches the results. */
  const NO_MESSAGE: string := "null"
  const NULL_POINTER: string := "API coding exception: NullPointerException.  See logs for details"
  /** The message of asking an empty parent list (a Java 8 `ArrayList`) for its first parent. */
  const NO_FIRST_PARENT: string := "Index: 0, Size: 0"
  const LATERALIZED: string := "Lateralized content detected"
  const TS_TASK_FAILED: string := "Failed to create task in TS"

  /**
   * The remote calls a run makes, each with its result or the message of the
   * exception it raises: the authoring services create a task (project key,
   * summary; the task key back), the terminology server creates the task's
   * branch (project key, task key) and creates a concept (branch path,
   * payload; the new concept id back).
   */
  datatype Remote = Remote(
    createTask: (string, string) -> Result<string>,
    createProjectTask: (string, string) -> Result<()>,
    createConcept: (string, BrowserConcept) -> Result<string>)

  // ---------------------------------------------------------------------------
  // Screening a row

  /** What `validate` decides: the (possibly completed) concept, a failure reason, or an exception it lets escape. */
  datatype Verdict = Valid(concept: Concept) | Invalid(reason: string) | Threw(message: string)

  /** The SCTID screen: a concept that keeps its own id must carry a valid check digit. */
  predicate SctidAcceptable(c: Concept) {
    c.requiresNewSctid || ImportCommon.ValidateSctid(Some(c.sctid))
  }

  /**
   * The expression column's contribution: the parsed expression when its first
   * focus concept reads as a long, or the reason the row fails.
   */
  function ParentExpression(expressionStr: Option<string>, parser: GroupParser): (r: Result<Expression>)
    ensures r.Ok? <==> (expressionStr.Some? && Parse(expressionStr.value, parser).Ok? &&
      |Parse(expressionStr.value, parser).value.focusConcepts| > 0 &&
      ParsesAsLong(Parse(expressionStr.value, parser).value.focusConcepts[0]))
    ensures r.Ok? ==> r.value == Parse(expressionStr.value, parser).value
    ensures expressionStr.None? ==> r == Err(NULL_POINTER)
    ensures expressionStr.Some? && Parse(expressionStr.value, parser).Err? ==>
      r == Err("Invalid expression: " + Parse(expressionStr.value, parser).error)
  {
    match expressionStr
    case None => Err(NULL_POINTER)
    case Some(str) =>
      match Parse(str, parser)
      case Err(m) => Err("Invalid expression: " + m)
      case Ok(e) =>
        if |e.focusConcepts| < 1 then Err("Invalid expression: Unable to determine a parent for concept from expression")
        else if !ParsesAsLong(e.focusConcepts[0]) then Err("Invalid expression: Failed to correctly determine parent in expression: " + str)
        else Ok(e)
  }

  /**
   * `validate`: a concept passes when its SCTID is acceptable and either its
   * first parent carries a valid check digit or, in the expression format,
   * its expression yields a parent, which is then appended to its parents
   * together with the expression. An empty parent list raises an exception.
   */
  function Validation(format: Format, c: Concept, parser: GroupParser): (r: Verdict)
    ensures !SctidAcceptable(c) ==> r == Invalid(c.sctid + " is not a valid sctid.")
    ensures r.Valid? <==> (SctidAcceptable(c) &&
      if format.definesByExpression then ParentExpression(c.expressionStr, parser).Ok?
      else |c.parents| > 0 && ImportCommon.ValidateSctid(Some(c.parents[0])))
    ensures r.Threw? <==> SctidAcceptable(c) && !format.definesByExpression && |c.parents| == 0
    ensures r.Valid? && !format.definesByExpression ==> r.concept == c
    ensures r.Valid? && format.definesByExpression ==>
      var e := ParentExpression(c.expressionStr, parser).value;
      r.concept == c.(parents := c.parents + [e.focusConcepts[0]], expression := Some(e))
  {
    if !SctidAcceptable(c) then Invalid(c.sctid + " is not a valid sctid.")
    else if !format.definesByExpression then
      if |c.parents| == 0 then Threw(NO_FIRST_PARENT)
      else if !ImportCommon.ValidateSctid(Some(c.parents[0])) then Invalid(c.parents[0] + " is not a valid parent identifier.")
      else Valid(c)
    else
      match ParentExpression(c.expressionStr, parser)
      case Err(m) => Invalid(m)
      case Ok(e) => Valid(c.(parents := c.parents + [e.focusConcepts[0]], expression := Some(e)))
  }

  /** The checks of `validate`, in its order, before anything is recorded. */
  method CheckConcept(format: Format, c: Concept, parser: GroupParser) returns (v: Verdict)
    ensures v == Validation(format, c, parser)
  {
    if !c.requiresNewSctid && !ImportCommon.ValidateSctid(Some(c.sctid)) {
      return Invalid(c.sctid + " is not a valid sctid.");
    }
    if !format.definesByExpression {
      if |c.parents| == 0 {
        return Threw(NO_FIRST_PARENT);
      }
      if !ImportCommon.ValidateSctid(Some(c.parents[0])) {
        return Invalid(c.parents[0] + " is not a valid parent identifier.");
      }
      return Valid(c);
    }
    if c.expressionStr.None? {
      return Invalid(NULL_POINTER);
    }
    var str := c.expressionStr.value;
    var parsed := ParseExpression(str, parser);
    if parsed.Err? {
      return Invalid("Invalid expression: " + parsed.error);
    } else if |parsed.value.focusConcepts| < 1 {
      return Invalid("Invalid expression: Unable to determine a parent for concept from expression");
    } else if !ParsesAsLong(parsed.value.focusConcepts[0]) {
      return Invalid("Invalid expression: Failed to correctly determine parent in expression: " + str);
    }
    var exp := parsed.value;
    return Valid(c.(parents := c.parents + [exp.focusConcepts[0]], expression := Some(exp)));
  }

  /** `validate`: records the failure itself, except for the exception it lets escape. */
  method Validate(run: BatchImportRun, c: Concept, parser: GroupParser) returns (v: Verdict)
    modifies run
    ensures v == Validation(run.request.format, c, parser)
    ensures run.outcomes == if v.Invalid? then old(run.outcomes)[c.row.recordNumber := RowOutcome.Failed(v.reason)] else old(run.outcomes)
    ensures run.concepts == old(run.concepts) && run.parentOf == old(run.parentOf)
  {
    v := CheckConcept(run.request.format, c, parser);
    if v.Invalid? {
      run.Fail(c.row, v.reason);
    }
  }

  /**
   * The fate of one row in `prepareConcepts`: too few fields, a concept the
   * format cannot build, or one that fails validation is rejected with the
   * reason; a valid concept is accepted. Nothing aborts the preparation.
   * The concept built from a row carries that row.
   */
  function ScreenRow(format: Format, createConcept: Row -> Result<Concept>, parser: GroupParser, row: Row): (r: Screening)
    ensures !r.Abort?
    ensures |row.fields| < |format.headers| ==> r == Reject(BLANK_ROW)
    ensures r.Accept? <==> (|row.fields| >= |format.headers| && createConcept(row).Ok? &&
      Validation(format, createConcept(row).value.(row := row), parser).Valid?)
    ensures r.Accept? ==> r.concept == Validation(format, createConcept(row).value.(row := row), parser).concept && r.concept.row == row
  {
    if |row.fields| < |format.headers| then Reject(BLANK_ROW)
    else match createConcept(row)
      case Err(m) => Reject(m)
      case Ok(built) =>
        match Validation(format, built.(row := row), parser)
        case Valid(c) => Accept(c)
        case Invalid(m) => Reject(m)
        case Threw(m) => Reject(m)
  }

  function Screen(format: Format, createConcept: Row -> Result<Concept>, parser: GroupParser): Row -> Screening {
    row => ScreenRow(format, createConcept, parser, row)
  }

  /**
   * `prepareConcepts`: every row is screened in turn; valid concepts are
   * inserted into the load hierarchy, the other rows are failed.
   */
  method PrepareConcepts(run: BatchImportRun, rows: seq<Row>, createConcept: Row -> Result<Concept>, parser: GroupParser)
    modifies run
    requires run.Valid()
    ensures run.Valid()
    ensures var p := PrepareAll(old(run.outcomes), rows, Screen(run.request.format, createConcept, parser));
      run.outcomes == p.outcomes && p.aborted.None? &&
      run.concepts == old(run.concepts) + p.accepted &&
      run.parentOf == InsertedParents(old(run.concepts), old(run.parentOf), p.accepted)
  {
    var format := run.request.format;
    var screen := Screen(format, createConcept, parser);
    for i := 0 to |rows|
      invariant run.Valid()
      invariant var p := PrepareAll(old(run.outcomes), rows[..i], screen);
        run.outcomes == p.outcomes && p.aborted.None? &&
        run.concepts == old(run.concepts) + p.accepted &&
        run.parentOf == InsertedParents(old(run.concepts), old(run.parentOf), p.accepted)
    {
      ghost var p := PrepareAll(old(run.outcomes), rows[..i], screen);
      PrepareAllStep(old(run.outcomes), rows, i, screen);
      var row := rows[i];
      assert screen(row) == ScreenRow(format, createConcept, parser, row);
      if |row.fields| >= |format.headers| {
        var built := createConcept(row);
        if built.Err? {
          run.Fail(row, built.error);
        } else {
          var c := built.value.(row := row);
          var v := Validate(run, c, parser);
          if v.Valid? {
            InsertedParentsSnoc(old(run.concepts), old(run.parentOf), p.accepted, v.concept);
            run.InsertIntoLoadHierarchy(v.concept);
          } else if v.Threw? {
            run.Fail(row, v.message);
          }
        }
      } else {
        run.Fail(row, BLANK_ROW);
      }
    }
    assert rows[..|rows|] == rows;
  }

  /**
   * What preparation promises when record numbers are distinct: a row with too
   * few fields is failed as blank, a row whose concept fails validation is
   * failed with the validation's reason, and every inserted concept is a valid
   * concept built from a row with enough fields.
   */
  lemma PrepareConceptsScreens(rows: seq<Row>, format: Format, createConcept: Row -> Result<Concept>, parser: GroupParser)
    requires DistinctRecords(rows)
    ensures var p := PrepareAll(map[], rows, Screen(format, createConcept, parser));
      (forall k :: 0 <= k < |rows| && |rows[k].fields| < |format.headers| ==>
        rows[k].recordNumber in p.outcomes && p.outcomes[rows[k].recordNumber] == RowOutcome.Failed(BLANK_ROW)) &&
      (forall k :: (0 <= k < |rows| && |rows[k].fields| >= |format.headers| && createConcept(rows[k]).Ok? &&
          Validation(format, createConcept(rows[k]).value.(row := rows[k]), parser).Invalid?) ==>
        rows[k].recordNumber in p.outcomes &&
        p.outcomes[rows[k].recordNumber] == RowOutcome.Failed(Validation(format, createConcept(rows[k]).value.(row := rows[k]), parser).reason)) &&
      (forall c :: c in p.accepted ==> exists k :: (0 <= k < |rows| && |rows[k].fields| >= |format.headers| && c.row == rows[k] && createConcept(rows[k]).Ok? &&
        Validation(format, createConcept(rows[k]).value.(row := rows[k]), parser) == Valid(c)))
  {
    var screen := Screen(format, createConcept, parser);
    PrepareAllScreensEveryRow(map[], rows, screen);
    var p := PrepareAll(map[], rows, screen);
    forall c | c in p.accepted
      ensures exists k :: (0 <= k < |rows| && |rows[k].fields| >= |format.headers| && c.row == rows[k] && createConcept(rows[k]).Ok? &&
        Validation(format, createConcept(rows[k]).value.(row := rows[k]), parser) == Valid(c))
    {
      var k :| 0 <= k < |rows| && screen(rows[k]) == Accept(c);
      assert ScreenRow(format, createConcept, parser, rows[k]) == Accept(c);
    }
  }

  // ---------------------------------------------------------------------------
  // Starting a run

  /** `createRun` followed by `prepareConcepts`: a fresh run holding the screened rows. */
  method PreparedRun(id: ImportId, request: ImportRequest, rows: seq<Row>, createConcept: Row -> Result<Concept>, parser: GroupParser)
    returns (run: BatchImportRun)
    ensures fresh(run) && run.Valid() && run.id == id && run.request == request
    ensures var p := PrepareAll(map[], rows, Screen(request.format, createConcept, parser));
      run.outcomes == p.outcomes && run.concepts == p.accepted && run.parentOf == InsertedParents([], [], p.accepted)
  {
    run := new BatchImportRun(id, request);
    PrepareConcepts(run, rows, createConcept, parser);
  }

  /**
   * `startImport`: a fresh run is registered as RUNNING, the rows are prepared,
   * the target is set to the number of concepts in the hierarchy, and the run
   * is scheduled only if the gate passes; otherwise every undecided row is
   * aborted and the run is marked FAILED.
   */
  method StartImport(board: ImportStatusBoard, id: ImportId, request: ImportRequest, rows: seq<Row>,
                     createConcept: Row -> Result<Concept>, parser: GroupParser)
    returns (run: BatchImportRun, scheduled: bool)
    modifies board
    requires board.Valid()
    ensures board.Valid()
    ensures fresh(run) && run.Valid() && run.id == id && run.request == request
    ensures var p := PrepareAll(map[], rows, Screen(request.format, createConcept, parser));
      run.concepts == p.accepted && run.parentOf == InsertedParents([], [], p.accepted)
    ensures scheduled <==> WithinTaskLimit(run.parentOf, run.RootChildren(), request.conceptsPerTask)
    ensures scheduled ==> run.outcomes == PrepareAll(map[], rows, Screen(request.format, createConcept, parser)).outcomes
    ensures !scheduled ==> run.outcomes == Aborted(
      GateFailures(PrepareAll(map[], rows, Screen(request.format, createConcept, parser)).outcomes,
                   run.concepts, run.parentOf, run.RootChildren(), request.conceptsPerTask), rows)
    ensures board.currentImports == old(board.currentImports)[id :=
      BatchImportStatus(if scheduled then Running else BatchImportState.Failed, Some(ChildrenCount(run.parentOf, ROOT)), None, None)]
  {
    board.Start(id);
    ghost var started := board.currentImports;
    run := PreparedRun(id, request, rows, createConcept, parser);
    ghost var prepared := run.outcomes;
    var rowsToProcess := ChildrenCount(run.parentOf, ROOT);
    board.SetTarget(id, rowsToProcess);
    ghost var running := BatchImportStatus(Running, Some(rowsToProcess), None, None);
    Overwritten(old(board.currentImports), id, NewStatus(Running), running);
    scheduled := ValidateLoadHierarchy(run);
    if scheduled {
      GatePassLeavesOutcomes(prepared, run.concepts, run.parentOf, run.RootChildren(), request.conceptsPerTask);
    } else {
      run.AbortLoad(rows);
      board.SetState(id, BatchImportState.Failed);
      Overwritten(old(board.currentImports), id, running, running.(state := BatchImportState.Failed));
    }
  }

  // ---------------------------------------------------------------------------
  // The concept payload

  /** `createRelationship`: an active, stated, existential relationship carrying a temporary id. */
  function CreateRelationship(groupNum: int, tmpId: string, source: string, typeId: string, destination: string): BrowserRelationship {
    BrowserRelationship(Some(tmpId), source, typeId, Some(destination), Some(groupNum), STATED, Some(EXISTENTIAL), true)
  }

  /** The temporary id of the k-th focus concept's "is a" relationship. */
  function FocusId(k: nat): string {
    "rel_" + IntToString(k)
  }

  /** The temporary ids of different focus concepts differ, so a failure names one relationship. */
  lemma FocusIdsDistinct(k: nat, l: nat)
    requires k != l
    ensures FocusId(k) != FocusId(l)
  {
    if FocusId(k) == FocusId(l) {
      assert FocusId(k)[4..] == NatToString(k);
      assert FocusId(l)[4..] == NatToString(l);
      NatToStringRoundTrip(k);
      NatToStringRoundTrip(l);
    }
  }

  /** The "is a" relationship to the k-th focus concept of an expression. */
  function FocusRelationship(source: string, focus: seq<string>, k: nat): BrowserRelationship
    requires k < |focus|
  {
    CreateRelationship(DEFAULT_GROUP, FocusId(k), source, SCTID_ISA, focus[k])
  }

  /** The relationships of the attribute groups, group after group. */
  function GroupRelationships(groups: seq<BatchImportGroup>): seq<BrowserRelationship>
    decreases |groups|
  {
    if groups == [] then []
    else GroupRelationships(groups[..|groups| - 1]) + groups[|groups| - 1].relationships
  }

  /** Every relationship of every attribute group is among the group relationships, and nothing else is. */
  lemma {:induction false} GroupRelationshipsKeepsAll(groups: seq<BatchImportGroup>)
    ensures forall g, rel :: g in groups && rel in g.relationships ==> rel in GroupRelationships(groups)
    ensures forall rel :: rel in GroupRelationships(groups) ==> exists g :: g in groups && rel in g.relationships
    decreases |groups|
  {
    if groups != [] {
      var init := groups[..|groups| - 1];
      GroupRelationshipsKeepsAll(init);
      assert groups == init + [groups[|groups| - 1]];
    }
  }

  /** What `convertExpressionToRelationships` builds: an "is a" per focus concept, then the groups' relationships. */
  function ExpressionRelationships(source: string, e: Expression): seq<BrowserRelationship> {
    seq(|e.focusConcepts|, k requires 0 <= k < |e.focusConcepts| => FocusRelationship(source, e.focusConcepts, k))
      + GroupRelationships(e.attributeGroups)
  }

  /**
   * The converted relationships: one "is a" in group 0 from the concept to each
   * focus concept, in order and with distinct temporary ids, followed by every
   * attribute of every group and nothing else.
   */
  lemma ExpressionRelationshipsShape(source: string, e: Expression)
    ensures var r := ExpressionRelationships(source, e);
      |r| == |e.focusConcepts| + |GroupRelationships(e.attributeGroups)| &&
      (forall k :: 0 <= k < |e.focusConcepts| ==>
        r[k].sourceId == source && r[k].typeId == SCTID_ISA && r[k].targetId == Some(e.focusConcepts[k]) &&
        r[k].groupId == Some(DEFAULT_GROUP) && r[k].active) &&
      (forall k, l :: 0 <= k < l < |e.focusConcepts| ==> r[k].relationshipId != r[l].relationshipId) &&
      (forall g, rel :: g in e.attributeGroups && rel in g.relationships ==> rel in r) &&
      (forall k :: |e.focusConcepts| <= k < |r| ==> exists g :: g in e.attributeGroups && r[k] in g.relationships)
  {
    var r := ExpressionRelationships(source, e);
    var focus := |e.focusConcepts|;
    GroupRelationshipsKeepsAll(e.attributeGroups);
    forall k, l | 0 <= k < l < focus
      ensures r[k].relationshipId != r[l].relationshipId
    {
      FocusIdsDistinct(k, l);
    }
    forall k | focus <= k < |r|
      ensures exists g :: g in e.attributeGroups && r[k] in g.relationships
    {
      assert r[k] == GroupRelationships(e.attributeGroups)[k - focus];
      assert r[k] in GroupRelationships(e.attributeGroups);
    }
  }

  /** `convertExpressionToRelationships`. */
  method ConvertExpressionToRelationships(source: string, e: Expression) returns (r: seq<BrowserRelationship>)
    ensures r == ExpressionRelationships(source, e)
  {
    r := [];
    var parentNum := 0;
    for i := 0 to |e.focusConcepts|
      invariant parentNum == i && |r| == i
      invariant forall k :: 0 <= k < i ==> r[k] == FocusRelationship(source, e.focusConcepts, k)
    {
      r := r + [CreateRelationship(DEFAULT_GROUP, "rel_" + IntToString(parentNum), source, SCTID_ISA, e.focusConcepts[i])];
      parentNum := parentNum + 1;
    }
    ghost var isA := r;
    var groups := e.attributeGroups;
    for i := 0 to |groups|
      invariant r == isA + GroupRelationships(groups[..i])
    {
      assert groups[..i + 1][..i] == groups[..i];
      r := r + groups[i].relationships;
    }
    assert groups[..|groups|] == groups;
  }

  /** A concept defined by its parent column: a primitive concept with one "is a" per parent. */
  function ParentRelationships(source: string, parents: seq<string>): (r: seq<BrowserRelationship>)
    ensures |r| == |parents|
    ensures forall k :: 0 <= k < |r| ==> r[k] == CreateRelationship(DEFAULT_GROUP, "rel_isa", source, SCTID_ISA, parents[k])
  {
    seq(|parents|, k requires 0 <= k < |parents| => CreateRelationship(DEFAULT_GROUP, "rel_isa", source, SCTID_ISA, parents[k]))
  }

  /** The relationships and definition status of the payload; a missing expression raises an exception without a message. */
  function RelationshipsOf(format: Format, c: Concept): (r: Result<(seq<BrowserRelationship>, DefinitionStatus)>)
    ensures r.Err? <==> format.definesByExpression && c.expression.None?
    ensures r.Ok? && format.definesByExpression ==>
      r.value == (ExpressionRelationships(c.sctid, c.expression.value), c.expression.value.definitionStatus)
    ensures r.Ok? && !format.definesByExpression ==> r.value == (ParentRelationships(c.sctid, c.parents), Primitive)
  {
    if format.definesByExpression then
      match c.expression
      case None => Err(NO_MESSAGE)
      case Some(e) => Ok((ExpressionRelationships(c.sctid, e), e.definitionStatus))
    else Ok((ParentRelationships(c.sctid, c.parents), Primitive))
  }

  /** `createDescription`: an active description whose temporary id names its type. */
  function CreateDescription(term: string, descriptionType: DescriptionType, acceptability: map<string, Acceptability>,
                             lang: string, caseSig: CaseSignificance): BrowserDescription {
    BrowserDescription(Some("desc_" + DescriptionTypeName(descriptionType)), term, true, descriptionType, lang, acceptability, caseSig)
  }

  /** The code of each case significance in the file. */
  function CaseCode(cs: CaseSignificance): string {
    match cs
    case EntireTermCaseSensitive => "CS"
    case CaseInsensitive => "ci"
    case InitialCharacterCaseInsensitive => "cI"
  }

  /** `translateCaseSensitivity`: exactly the three codes are understood, case included. */
  function TranslateCaseSensitivity(s: string): (r: Result<CaseSignificance>)
    ensures r.Ok? <==> s == "CS" || s == "ci" || s == "cI"
    ensures r.Ok? ==> s == CaseCode(r.value)
    ensures r.Err? ==> r.error == "Could not determine case significance from " + s
  {
    if s == "CS" then Ok(EntireTermCaseSensitive)
    else if s == "ci" then Ok(CaseInsensitive)
    else if s == "cI" then Ok(InitialCharacterCaseInsensitive)
    else Err("Could not determine case significance from " + s)
  }

  /** Every case significance survives being written as its code and read back. */
  lemma CaseCodeRoundTrip(cs: CaseSignificance)
    ensures TranslateCaseSensitivity(CaseCode(cs)) == Ok(cs)
  {
  }

  /** The upper-case acceptability code: N for none, P for preferred, A for acceptable. */
  function AcceptabilityCode(a: Option<Acceptability>): char {
    match a
    case None => 'N'
    case Some(Preferred) => 'P'
    case Some(Acceptable) => 'A'
  }

  /** `translateAcceptability`: N, P or A in either case; N means the dialect is left out. */
  function TranslateAcceptability(code: char): (r: Result<Option<Acceptability>>)
    ensures r.Ok? <==> UpperChar(code) in "NPA"
    ensures r.Ok? ==> UpperChar(code) == AcceptabilityCode(r.value)
    ensures r.Err? ==> r.error == "Could not determine acceptability from '" + [code] + "'"
  {
    match UpperChar(code)
    case 'N' => Ok(None)
    case 'P' => Ok(Some(Preferred))
    case 'A' => Ok(Some(Acceptable))
    case _ => Err("Could not determine acceptability from '" + [code] + "'")
  }

  /** Every acceptability survives being written as its code, in either case, and read back. */
  lemma AcceptabilityCodeRoundTrip(a: Option<Acceptability>)
    ensures TranslateAcceptability(AcceptabilityCode(a)) == Ok(a)
    ensures TranslateAcceptability(LowerChar(AcceptabilityCode(a))) == Ok(a)
  {
  }

  /**
   * `getAcceptablityAsMap`: the GB and US acceptability of a term, each dialect
   * present exactly when its code is not N; the GB code is read first.
   */
  function AcceptabilityAsMap(t: ImportTerm): (r: Result<map<string, Acceptability>>)
    ensures TranslateAcceptability(t.acceptabilityGb).Err? ==> r == Err(TranslateAcceptability(t.acceptabilityGb).error)
    ensures r.Ok? <==> TranslateAcceptability(t.acceptabilityGb).Ok? && TranslateAcceptability(t.acceptabilityUs).Ok?
    ensures r.Ok? ==> (r.value.Keys <= {SCTID_EN_GB, SCTID_EN_US} &&
      (SCTID_EN_GB in r.value <==> UpperChar(t.acceptabilityGb) != 'N') &&
      (SCTID_EN_US in r.value <==> UpperChar(t.acceptabilityUs) != 'N') &&
      (SCTID_EN_GB in r.value ==> AcceptabilityCode(Some(r.value[SCTID_EN_GB])) == UpperChar(t.acceptabilityGb)) &&
      (SCTID_EN_US in r.value ==> AcceptabilityCode(Some(r.value[SCTID_EN_US])) == UpperChar(t.acceptabilityUs)))
  {
    var gb :- TranslateAcceptability(t.acceptabilityGb);
    var withGb := if gb.Some? then map[SCTID_EN_GB := gb.value] else map[];
    var us :- TranslateAcceptability(t.acceptabilityUs);
    Ok(if us.Some? then withGb[SCTID_EN_US := us.value] else withGb)
  }

  /** The case significance of a term: case insensitive when no code is given. */
  function TermCase(t: ImportTerm): (r: Result<CaseSignificance>)
    ensures t.caseSensitivity.None? || t.caseSensitivity.value == "" ==> r == Ok(CaseInsensitive)
    ensures t.caseSensitivity.Some? && t.caseSensitivity.value != "" ==> r == TranslateCaseSensitivity(t.caseSensitivity.value)
  {
    if t.caseSensitivity.None? || t.caseSensitivity.value == "" then Ok(CaseInsensitive)
    else TranslateCaseSensitivity(t.caseSensitivity.value)
  }

  /** `createDescription(biTerm, idx)`: the idx-th term of a row as a synonym; the acceptability is read before the case. */
  function TermDescription(t: ImportTerm, idx: nat): (r: Result<BrowserDescription>)
    ensures r.Ok? ==> r.value.term == t.term && r.value.active && r.value.descriptionType == Synonym
  {
    var acceptability :- AcceptabilityAsMap(t);
    var caseSig :- TermCase(t);
    Ok(BrowserDescription(Some("desc_SYN_" + IntToString(idx)), t.term, true, Synonym, EN_LANGUAGE_CODE, acceptability, caseSig))
  }

  /** What `createDescription` makes of each term of a row, in order. */
  function TermResults(terms: seq<ImportTerm>): (r: seq<Result<BrowserDescription>>)
    ensures |r| == |terms| && forall k :: 0 <= k < |terms| ==> r[k] == TermDescription(terms[k], k)
  {
    seq(|terms|, k requires 0 <= k < |terms| => TermDescription(terms[k], k))
  }

  /** The descriptions of a row's terms, or the exception of the first term that cannot be read. */
  function TermDescriptions(terms: seq<ImportTerm>): Result<seq<BrowserDescription>> {
    Gathered(TermResults(terms))
  }

  /** The FSN and the preferred term; the latter is absent only in the multi-term format without a constructed FSN. */
  datatype Names = Names(fsn: string, pref: Option<string>)

  function NamesOf(format: Format, c: Concept): (r: Result<Names>)
    ensures r.Ok? && !format.hasMultipleTerms ==> r.value.pref.Some?
    ensures r.Ok? && format.constructsFsn ==>
      Field(c, format.fsnRootIndex).Ok? && Field(c, format.semanticTagIndex).Ok? &&
      r.value.pref == Some(Field(c, format.fsnRootIndex).value) &&
      r.value.fsn == Field(c, format.fsnRootIndex).value + " (" + Field(c, format.semanticTagIndex).value + ")"
    ensures r.Ok? && !format.constructsFsn ==> Field(c, format.fsnIndex) == Ok(r.value.fsn)
  {
    if format.constructsFsn then
      var root :- Field(c, format.fsnRootIndex);
      var tag :- Field(c, format.semanticTagIndex);
      Ok(Names(root + " (" + tag + ")", Some(root)))
    else
      var fsn :- Field(c, format.fsnIndex);
      if format.hasMultipleTerms then Ok(Names(fsn, None))
      else
        var pref :- Field(c, format.prefTermIndex);
        Ok(Names(fsn, Some(pref)))
  }

  /** The FSN's case significance: case insensitive unless the format has a column for it. */
  function FsnCaseOf(format: Format, c: Concept): (r: Result<CaseSignificance>)
    ensures format.capsFsnIndex == FIELD_NOT_FOUND ==> r == Ok(CaseInsensitive)
  {
    if format.capsFsnIndex == FIELD_NOT_FOUND then Ok(CaseInsensitive)
    else
      var code :- Field(c, format.capsFsnIndex);
      TranslateCaseSensitivity(code)
  }

  /** The descriptions after the FSN: the row's terms, or the preferred term followed by the new synonyms. */
  function OtherDescriptions(format: Format, c: Concept, names: Names): Result<seq<BrowserDescription>>
    requires !format.hasMultipleTerms ==> names.pref.Some?
  {
    if format.hasMultipleTerms then TermDescriptions(c.terms)
    else
      var pref := CreateDescription(names.pref.value, Synonym, PREFERRED_ACCEPTABILITY, EN_LANGUAGE_CODE, CaseInsensitive);
      Ok([pref])
  }

  /**
   * `createBrowserConcept`: the payload for a concept, or the exception met on
   * the way. Steps, in the order the exceptions can arise: relationships,
   * names, the FSN's case significance, the other descriptions.
   */
  function BrowserConceptOf(format: Format, c: Concept): Result<BrowserConcept> {
    var rs :- RelationshipsOf(format, c);
    var names :- NamesOf(format, c);
    var fsnCase :- FsnCaseOf(format, c);
    Assembled(format, c, rs, names, fsnCase)
  }

  /** The payload from its parts: the FSN first, then the other descriptions. */
  function Assembled(format: Format, c: Concept, rs: (seq<BrowserRelationship>, DefinitionStatus), names: Names,
                     fsnCase: CaseSignificance): Result<BrowserConcept>
    requires !format.hasMultipleTerms ==> names.pref.Some?
  {
    var fsn := CreateDescription(names.fsn, Fsn, PREFERRED_ACCEPTABILITY, EN_LANGUAGE_CODE, fsnCase);
    var others :- OtherDescriptions(format, c, names);
    var descriptions := if format.hasMultipleTerms then [fsn] + others else WithSynonyms([fsn] + others, c.synonyms);
    Ok(BrowserConcept(if c.requiresNewSctid then None else Some(c.sctid), true, rs.1, None, descriptions, rs.0))
  }

  /** The terms are read in full exactly when every term is readable, and the k-th description is then the k-th term's. */
  lemma TermDescriptionsReadEveryTerm(terms: seq<ImportTerm>)
    ensures TermDescriptions(terms).Ok? <==> forall k :: 0 <= k < |terms| ==> TermDescription(terms[k], k).Ok?
    ensures TermDescriptions(terms).Ok? ==> (|TermDescriptions(terms).value| == |terms| &&
      forall k :: 0 <= k < |terms| ==> TermDescriptions(terms).value[k] == TermDescription(terms[k], k).value)
  {
    GatheredEveryValue(TermResults(terms));
  }

  /** A failure is the exception of the first term that cannot be read; the terms before it were all readable. */
  lemma TermDescriptionsFirstFailure(terms: seq<ImportTerm>) returns (k: nat)
    requires TermDescriptions(terms).Err?
    ensures k < |terms| && TermDescription(terms[k], k) == Err(TermDescriptions(terms).error)
    ensures forall j :: 0 <= j < k ==> TermDescription(terms[j], j).Ok?
  {
    k := GatheredFirstFailure(TermResults(terms));
  }

  /** The relationships step of `createBrowserConcept`. */
  method ConceptRelationships(c: Concept, format: Format) returns (r: Result<(seq<BrowserRelationship>, DefinitionStatus)>)
    ensures r == RelationshipsOf(format, c)
  {
    if format.definesByExpression {
      if c.expression.None? {
        return Err(NO_MESSAGE);
      }
      var relationships := ConvertExpressionToRelationships(c.sctid, c.expression.value);
      return Ok((relationships, c.expression.value.definitionStatus));
    }
    var relationships := [];
    for i := 0 to |c.parents|
      invariant |relationships| == i
      invariant forall k :: 0 <= k < i ==> relationships[k] == CreateRelationship(DEFAULT_GROUP, "rel_isa", c.sctid, SCTID_ISA, c.parents[k])
    {
      relationships := relationships + [CreateRelationship(DEFAULT_GROUP, "rel_isa", c.sctid, SCTID_ISA, c.parents[i])];
    }
    assert relationships == ParentRelationships(c.sctid, c.parents);
    return Ok((relationships, Primitive));
  }

  /** The naming step of `createBrowserConcept`. */
  method ConceptNames(c: Concept, format: Format) returns (r: Result<Names>)
    ensures r == NamesOf(format, c)
  {
    if format.constructsFsn {
      var root := Field(c, format.fsnRootIndex);
      if root.Err? {
        return Err(root.error);
      }
      var tag := Field(c, format.semanticTagIndex);
      if tag.Err? {
        return Err(tag.error);
      }
      return Ok(Names(root.value + " (" + tag.value + ")", Some(root.value)));
    }
    var fsnField := Field(c, format.fsnIndex);
    if fsnField.Err? {
      return Err(fsnField.error);
    }
    if format.hasMultipleTerms {
      return Ok(Names(fsnField.value, None));
    }
    var prefField := Field(c, format.prefTermIndex);
    if prefField.Err? {
      return Err(prefField.error);
    }
    return Ok(Names(fsnField.value, Some(prefField.value)));
  }

  /** The FSN's case significance step of `createBrowserConcept`. */
  method FsnCase(c: Concept, format: Format) returns (r: Result<CaseSignificance>)
    ensures r == FsnCaseOf(format, c)
  {
    if format.capsFsnIndex == FIELD_NOT_FOUND {
      return Ok(CaseInsensitive);
    }
    var code := Field(c, format.capsFsnIndex);
    if code.Err? {
      return Err(code.error);
    }
    r := TranslateCaseSensitivity(code.value);
  }

  /** The loop over the row's terms in the multi-term format. */
  method TermsAfterFsn(c: Concept) returns (r: Result<seq<BrowserDescription>>)
    ensures r == TermDescriptions(c.terms)
  {
    ghost var results := TermResults(c.terms);
    var descriptions := [];
    for termIdx := 0 to |c.terms|
      invariant Gathered(results[..termIdx]) == Ok(descriptions)
    {
      var term := TermDescription(c.terms[termIdx], termIdx);
      GatheredSnoc(results, termIdx, descriptions);
      if term.Err? {
        GatheredFailurePersists(results, termIdx + 1);
        return Err(term.error);
      }
      descriptions := descriptions + [term.value];
    }
    assert results[..|c.terms|] == results;
    r := Ok(descriptions);
  }

  /** The descriptions step of `createBrowserConcept`, and the payload it completes. */
  method AssembleConcept(format: Format, c: Concept, rs: (seq<BrowserRelationship>, DefinitionStatus), names: Names,
                         fsnCase: CaseSignificance) returns (r: Result<BrowserConcept>)
    requires !format.hasMultipleTerms ==> names.pref.Some?
    ensures r == Assembled(format, c, rs, names, fsnCase)
  {
    var fsn := CreateDescription(names.fsn, Fsn, PREFERRED_ACCEPTABILITY, EN_LANGUAGE_CODE, fsnCase);
    var descriptions;
    if format.hasMultipleTerms {
      var terms := TermsAfterFsn(c);
      if terms.Err? {
        return Err(terms.error);
      }
      descriptions := [fsn] + terms.value;
    } else {
      var pref := CreateDescription(names.pref.value, Synonym, PREFERRED_ACCEPTABILITY, EN_LANGUAGE_CODE, CaseInsensitive);
      descriptions := AddSynonyms([fsn] + [pref], c.synonyms);
    }
    r := Ok(BrowserConcept(if c.requiresNewSctid then None else Some(c.sctid), true, rs.1, None, descriptions, rs.0));
  }

  /** `createBrowserConcept`: relationships, names, the FSN's case, then the descriptions. */
  method CreateBrowserConcept(c: Concept, format: Format) returns (r: Result<BrowserConcept>)
    ensures r == BrowserConceptOf(format, c)
  {
    var rs := ConceptRelationships(c, format);
    if rs.Err? {
      return Err(rs.error);
    }
    var names := ConceptNames(c, format);
    if names.Err? {
      return Err(names.error);
    }
    var fsnCase := FsnCase(c, format);
    if fsnCase.Err? {
      return Err(fsnCase.error);
    }
    r := AssembleConcept(format, c, rs.value, names.value, fsnCase.value);
  }

  /** A payload that could be made is the assembly of the parts that could be read. */
  lemma BrowserConceptAssembled(format: Format, c: Concept)
    requires BrowserConceptOf(format, c).Ok?
    ensures RelationshipsOf(format, c).Ok? && NamesOf(format, c).Ok? && FsnCaseOf(format, c).Ok?
    ensures BrowserConceptOf(format, c) ==
      Assembled(format, c, RelationshipsOf(format, c).value, NamesOf(format, c).value, FsnCaseOf(format, c).value)
  {
  }

  /** The assembled payload's descriptions: the FSN, then the other descriptions (followed, in the single-term formats, by the new synonyms). */
  lemma AssembledDescriptions(format: Format, c: Concept, rs: (seq<BrowserRelationship>, DefinitionStatus), names: Names,
                              fsnCase: CaseSignificance)
    requires !format.hasMultipleTerms ==> names.pref.Some?
    requires Assembled(format, c, rs, names, fsnCase).Ok?
    ensures OtherDescriptions(format, c, names).Ok?
    ensures var start := [CreateDescription(names.fsn, Fsn, PREFERRED_ACCEPTABILITY, EN_LANGUAGE_CODE, fsnCase)] +
        OtherDescriptions(format, c, names).value;
      var b := Assembled(format, c, rs, names, fsnCase).value;
      b.descriptions == (if format.hasMultipleTerms then start else WithSynonyms(start, c.synonyms)) &&
      b.active && b.conceptId == (if c.requiresNewSctid then None else Some(c.sctid)) &&
      b.relationships == rs.0 && b.definitionStatus == rs.1
  {
  }

  /** The assembled descriptions: one FSN, first and preferred in both dialects, and synonyms after it. */
  lemma AssembledFsnFirst(format: Format, c: Concept, rs: (seq<BrowserRelationship>, DefinitionStatus), names: Names,
                          fsnCase: CaseSignificance)
    requires !format.hasMultipleTerms ==> names.pref.Some?
    requires Assembled(format, c, rs, names, fsnCase).Ok?
    ensures var b := Assembled(format, c, rs, names, fsnCase).value;
      |b.descriptions| >= 1 && b.descriptions[0].descriptionType == Fsn &&
      b.descriptions[0].term == names.fsn && b.descriptions[0].acceptabilityMap == PREFERRED_ACCEPTABILITY &&
      (forall k :: 1 <= k < |b.descriptions| ==> b.descriptions[k].descriptionType == Synonym) &&
      FsnOf(b.descriptions) == Some(names.fsn)
  {
    AssembledDescriptions(format, c, rs, names, fsnCase);
    var b := Assembled(format, c, rs, names, fsnCase).value;
    var others := OtherDescriptions(format, c, names).value;
    var start := [CreateDescription(names.fsn, Fsn, PREFERRED_ACCEPTABILITY, EN_LANGUAGE_CODE, fsnCase)] + others;
    if format.hasMultipleTerms {
      TermDescriptionsReadEveryTerm(c.terms);
      assert forall k :: 0 <= k < |others| ==> TermDescription(c.terms[k], k) == Ok(others[k]);
      assert b.descriptions == start;
    } else {
      SynonymsAfterStart(start, c.synonyms);
      assert b.descriptions[..2] == start;
    }
    assert b.descriptions[0] == start[0];
  }

  /** Synonyms added after an FSN and a preferred synonym leave the FSN the only one, first. */
  lemma SynonymsAfterStart(start: seq<BrowserDescription>, synonyms: seq<string>)
    requires |start| == 2 && start[0].descriptionType == Fsn && start[1].descriptionType == Synonym
    ensures var ds := WithSynonyms(start, synonyms);
      |ds| >= 2 && ds[..2] == start &&
      forall k :: 1 <= k < |ds| ==> ds[k].descriptionType == Synonym
  {
    var ds := WithSynonyms(start, synonyms);
    WithSynonymsDeduplicates(start, synonyms);
    assert ds[..2] == start;
    forall k | 2 <= k < |ds|
      ensures ds[k].descriptionType == Synonym
    {
      assert ds[k] == SynonymDescription(ds[k].term);
    }
  }

  /**
   * What the payload promises: an active concept that keeps its SCTID unless
   * a new one is needed, with exactly one FSN, first and preferred in both
   * dialects.
   */
  lemma BrowserConceptShape(format: Format, c: Concept)
    requires BrowserConceptOf(format, c).Ok?
    ensures RelationshipsOf(format, c).Ok? && NamesOf(format, c).Ok?
    ensures var b := BrowserConceptOf(format, c).value;
      b.active && b.conceptId == (if c.requiresNewSctid then None else Some(c.sctid)) &&
      b.relationships == RelationshipsOf(format, c).value.0 && b.definitionStatus == RelationshipsOf(format, c).value.1 &&
      b.fsn.None?
    ensures var b := BrowserConceptOf(format, c).value;
      |b.descriptions| >= 1 && b.descriptions[0].descriptionType == Fsn &&
      b.descriptions[0].term == NamesOf(format, c).value.fsn &&
      b.descriptions[0].acceptabilityMap == PREFERRED_ACCEPTABILITY &&
      (forall k :: 1 <= k < |b.descriptions| ==> b.descriptions[k].descriptionType == Synonym) &&
      FsnOf(b.descriptions) == Some(NamesOf(format, c).value.fsn)
  {
    BrowserConceptAssembled(format, c);
    var rs, names, fsnCase := RelationshipsOf(format, c).value, NamesOf(format, c).value, FsnCaseOf(format, c).value;
    AssembledDescriptions(format, c, rs, names, fsnCase);
    AssembledFsnFirst(format, c, rs, names, fsnCase);
  }

  /** In the multi-term format, one synonym per term of the row follows the FSN, in order. */
  lemma PayloadTerms(format: Format, c: Concept)
    requires format.hasMultipleTerms && BrowserConceptOf(format, c).Ok?
    ensures var b := BrowserConceptOf(format, c).value;
      |b.descriptions| == |c.terms| + 1 &&
      forall k :: 0 <= k < |c.terms| ==>
        (b.descriptions[k + 1].term == c.terms[k].term && TermDescription(c.terms[k], k) == Ok(b.descriptions[k + 1]))
  {
    BrowserConceptAssembled(format, c);
    var rs, names, fsnCase := RelationshipsOf(format, c).value, NamesOf(format, c).value, FsnCaseOf(format, c).value;
    AssembledDescriptions(format, c, rs, names, fsnCase);
    TermDescriptionsReadEveryTerm(c.terms);
    var others := OtherDescriptions(format, c, names).value;
    assert others == TermDescriptions(c.terms).value;
    var first := CreateDescription(names.fsn, Fsn, PREFERRED_ACCEPTABILITY, EN_LANGUAGE_CODE, fsnCase);
    var b := BrowserConceptOf(format, c).value;
    assert b.descriptions == [first] + others;
    forall k | 0 <= k < |c.terms|
      ensures b.descriptions[k + 1].term == c.terms[k].term && TermDescription(c.terms[k], k) == Ok(b.descriptions[k + 1])
    {
      assert b.descriptions[k + 1] == others[k];
      assert TermDescription(c.terms[k], k) == Ok(others[k]);
    }
  }

  /**
   * In the other formats the preferred term, preferred in both dialects,
   * follows the FSN, then every listed synonym is present, and no term is
   * duplicated when the FSN and the preferred term differ.
   */
  lemma PayloadSynonyms(format: Format, c: Concept)
    requires !format.hasMultipleTerms && BrowserConceptOf(format, c).Ok?
    ensures NamesOf(format, c).Ok? && NamesOf(format, c).value.pref.Some?
    ensures var b := BrowserConceptOf(format, c).value;
      var names := NamesOf(format, c).value;
      |b.descriptions| >= 2 &&
      b.descriptions[1].term == names.pref.value && b.descriptions[1].acceptabilityMap == PREFERRED_ACCEPTABILITY &&
      (forall k :: 0 <= k < |c.synonyms| ==> c.synonyms[k] in Terms(b.descriptions)) &&
      (names.fsn != names.pref.value ==> DistinctTerms(b.descriptions))
  {
    BrowserConceptAssembled(format, c);
    var rs, names, fsnCase := RelationshipsOf(format, c).value, NamesOf(format, c).value, FsnCaseOf(format, c).value;
    AssembledDescriptions(format, c, rs, names, fsnCase);
    var b := BrowserConceptOf(format, c).value;
    var start := [CreateDescription(names.fsn, Fsn, PREFERRED_ACCEPTABILITY, EN_LANGUAGE_CODE, fsnCase)]
      + OtherDescriptions(format, c, names).value;
    WithSynonymsDeduplicates(start, c.synonyms);
    assert b.descriptions[..2] == start;
  }

  // ---------------------------------------------------------------------------
  // Checking and loading a concept

  /**
   * The FSN a payload carries as data: the term of its first FSN description.
   * The corrected laterality check reads this instead of the payload's `fsn`
   * field, which this service never sets.
   */
  function FsnOf(descriptions: seq<BrowserDescription>): (r: Option<string>)
    ensures r.Some? <==> exists k :: 0 <= k < |descriptions| && descriptions[k].descriptionType == Fsn
    ensures descriptions != [] && descriptions[0].descriptionType == Fsn ==> r == Some(descriptions[0].term)
    decreases |descriptions|
  {
    if descriptions == [] then None
    else if descriptions[0].descriptionType == Fsn then Some(descriptions[0].term)
    else
      var rest := FsnOf(descriptions[1..]);
      assert forall k :: 1 <= k < |descriptions| ==> descriptions[1..][k - 1] == descriptions[k];
      rest
  }

  /**
   * `validateConcept` as written: unless lateralized content is allowed, the
   * payload's `fsn` field is lower-cased and searched for left or right. The
   * service builds its payloads without that field (the FSN is set on the
   * import concept instead), so the read raises a null pointer exception,
   * whose message is null.
   */
  function ConceptCheckAsWritten(lateralizedAllowed: bool, payload: BrowserConcept): (r: Result<()>)
    ensures r.Ok? <==> lateralizedAllowed || (payload.fsn.Some? && !IsLateralized(payload.fsn.value))
    ensures r.Err? ==> r.error == (if payload.fsn.None? then NO_MESSAGE else LATERALIZED)
  {
    if lateralizedAllowed then Ok(())
    else
      match payload.fsn
      case None => Err(NO_MESSAGE)
      case Some(fsn) => if IsLateralized(fsn) then Err(LATERALIZED) else Ok(())
  }

  /**
   * The finding: as written, with lateralized content disallowed, every
   * payload the service can build fails the check with the null message,
   * whatever its FSN says; with it allowed, every payload passes.
   */
  lemma AsWrittenRejectsEveryPayload(format: Format, c: Concept)
    requires BrowserConceptOf(format, c).Ok?
    ensures BrowserConceptOf(format, c).value.fsn.None?
    ensures ConceptCheckAsWritten(false, BrowserConceptOf(format, c).value) == Err(NO_MESSAGE)
    ensures ConceptCheckAsWritten(true, BrowserConceptOf(format, c).value) == Ok(())
  {
    BrowserConceptShape(format, c);
  }

  /**
   * `validateConcept` corrected to read the FSN the payload carries: unless
   * lateralized content is allowed, a payload whose FSN mentions left or
   * right in any case is refused; one without an FSN description raises as
   * the original does.
   */
  function ConceptCheck(lateralizedAllowed: bool, payload: BrowserConcept): (r: Result<()>)
    ensures r.Err? <==> (!lateralizedAllowed &&
      (FsnOf(payload.descriptions).None? || IsLateralized(FsnOf(payload.descriptions).value)))
    ensures r.Err? && FsnOf(payload.descriptions).Some? ==> r.error == LATERALIZED
  {
    if lateralizedAllowed then Ok(())
    else
      match FsnOf(payload.descriptions)
      case None => Err(NO_MESSAGE)
      case Some(fsn) => if IsLateralized(fsn) then Err(LATERALIZED) else Ok(())
  }

  /**
   * The corrected check on a payload the service built: it is refused
   * exactly when lateralized content is disallowed and the row's FSN is
   * lateralized.
   */
  lemma ConceptCheckOfBuiltPayload(format: Format, c: Concept, lateralizedAllowed: bool)
    requires BrowserConceptOf(format, c).Ok?
    ensures NamesOf(format, c).Ok?
    ensures ConceptCheck(lateralizedAllowed, BrowserConceptOf(format, c).value) ==
      if !lateralizedAllowed && IsLateralized(NamesOf(format, c).value.fsn) then Err(LATERALIZED) else Ok(())
  {
    BrowserConceptShape(format, c);
  }

  /** `validateConcept`, corrected: the loop over the laterality words. */
  method ValidateConcept(lateralizedAllowed: bool, payload: BrowserConcept) returns (r: Result<()>)
    ensures r == ConceptCheck(lateralizedAllowed, payload)
  {
    if !lateralizedAllowed {
      var fsn := FsnOf(payload.descriptions);
      if fsn.None? {
        return Err(NO_MESSAGE);
      }
      var lower := ToLower(fsn.value);
      for k := 0 to |LATERALITY|
        invariant forall j :: 0 <= j < k ==> !Contains(lower, LATERALITY[j])
      {
        if Contains(lower, LATERALITY[k]) {
          return Err(LATERALIZED);
        }
      }
    }
    return Ok(());
  }

  /**
   * The try block of `loadConcepts` for one concept: the id the concept was
   * created with, or the message of the exception that failed it. The payload
   * is built, checked for laterality and cleared of temporary ids; a dry run
   * never calls the server.
   */
  function LoadResult(request: ImportRequest, taskKey: string, c: Concept, remote: Remote): Result<string> {
    var payload :- BrowserConceptOf(request.format, c);
    var checked :- ConceptCheck(request.lateralizedContentAllowed, payload);
    if request.dryRun then Ok(DRY_RUN)
    else remote.createConcept(BranchPath(request.projectKey, taskKey), WithoutTemporaryIds(payload))
  }

  /**
   * A concept that cannot be built fails with the exception met; a dry run
   * gives the same result whatever the server would do, and loads every
   * concept that can be built and passes the laterality check; a lateralized
   * FSN fails its row unless such content is allowed; any other concept is
   * sent to the task's branch without its temporary ids, and the server's
   * answer is the row's result.
   */
  lemma LoadResultCases(request: ImportRequest, taskKey: string, c: Concept, remote: Remote, other: Remote)
    ensures BrowserConceptOf(request.format, c).Err? ==>
      LoadResult(request, taskKey, c, remote) == Err(BrowserConceptOf(request.format, c).error)
    ensures request.dryRun ==> LoadResult(request, taskKey, c, other) == LoadResult(request, taskKey, c, remote)
    ensures (BrowserConceptOf(request.format, c).Ok? && !request.dryRun &&
      (request.lateralizedContentAllowed || !IsLateralized(NamesOf(request.format, c).value.fsn))) ==>
      LoadResult(request, taskKey, c, remote) ==
        remote.createConcept(BranchPath(request.projectKey, taskKey), WithoutTemporaryIds(BrowserConceptOf(request.format, c).value))
    ensures (BrowserConceptOf(request.format, c).Ok? && !request.lateralizedContentAllowed &&
      IsLateralized(NamesOf(request.format, c).value.fsn)) ==> LoadResult(request, taskKey, c, remote) == Err(LATERALIZED)
    ensures (BrowserConceptOf(request.format, c).Ok? && request.dryRun &&
      (request.lateralizedContentAllowed || !IsLateralized(NamesOf(request.format, c).value.fsn))) ==>
      LoadResult(request, taskKey, c, remote) == Ok(DRY_RUN)
  {
    if BrowserConceptOf(request.format, c).Ok? {
      BrowserConceptShape(request.format, c);
    }
  }

  /** The try block of `loadConcepts` for one concept, with `validateConcept` as written. */
  function LoadResultAsWritten(request: ImportRequest, taskKey: string, c: Concept, remote: Remote): Result<string> {
    var payload :- BrowserConceptOf(request.format, c);
    var checked :- ConceptCheckAsWritten(request.lateralizedContentAllowed, payload);
    if request.dryRun then Ok(DRY_RUN)
    else remote.createConcept(BranchPath(request.projectKey, taskKey), WithoutTemporaryIds(payload))
  }

  /**
   * The finding, at the level of one row: as written, with lateralized
   * content disallowed, every concept that can be built fails with the null
   * message and never reaches the server; with it allowed, the row loads as
   * the corrected model does.
   */
  lemma LoadResultAsWrittenFailsEveryRow(request: ImportRequest, taskKey: string, c: Concept, remote: Remote)
    ensures BrowserConceptOf(request.format, c).Ok? && !request.lateralizedContentAllowed ==>
      LoadResultAsWritten(request, taskKey, c, remote) == Err(NO_MESSAGE)
    ensures request.lateralizedContentAllowed ==>
      LoadResultAsWritten(request, taskKey, c, remote) == LoadResult(request, taskKey, c, remote)
    ensures BrowserConceptOf(request.format, c).Err? ==>
      LoadResultAsWritten(request, taskKey, c, remote) == LoadResult(request, taskKey, c, remote)
  {
    if BrowserConceptOf(request.format, c).Ok? {
      AsWrittenRejectsEveryPayload(request.format, c);
    }
  }

  /** The try block of `loadConcepts` for one concept. */
  method LoadConcept(request: ImportRequest, taskKey: string, c: Concept, remote: Remote) returns (result: Result<string>)
    ensures result == LoadResult(request, taskKey, c, remote)
  {
    var payload := CreateBrowserConcept(c, request.format);
    if payload.Err? {
      return Err(payload.error);
    }
    var checked := ValidateConcept(request.lateralizedContentAllowed, payload.value);
    if checked.Err? {
      return Err(checked.error);
    }
    var cleaned := RemoveTemporaryIds(payload.value);
    if !request.dryRun {
      result := remote.createConcept(BranchPath(request.projectKey, taskKey), cleaned);
    } else {
      result := Ok(DRY_RUN);
    }
  }

  // ---------------------------------------------------------------------------
  // Loading a batch onto its task

  function LoadResults(request: ImportRequest, taskKey: string, cs: seq<Concept>, remote: Remote): (r: seq<Result<string>>)
    ensures |r| == |cs| && forall k :: 0 <= k < |cs| ==> r[k] == LoadResult(request, taskKey, cs[k], remote)
  {
    seq(|cs|, k requires 0 <= k < |cs| => LoadResult(request, taskKey, cs[k], remote))
  }

  /** The try block of `loadConcepts`, as a function of the task key and the concept. */
  function LoadOf(request: ImportRequest, remote: Remote): (string, Concept) -> Result<string> {
    (key, c) => LoadResult(request, key, c, remote)
  }

  /** Loading a batch concept by concept is the shared loading with this service's try block. */
  lemma LoadResultsAreLoadAll(request: ImportRequest, taskKey: string, cs: seq<Concept>, remote: Remote)
    ensures LoadResults(request, taskKey, cs, remote) == LoadAll(LoadOf(request, remote), taskKey, cs)
  {
  }

  /**
   * `loadConcepts`: each concept of the batch in turn is loaded or failed,
   * the run's progress is bumped once per concept, and the ids of the loaded
   * ones are returned keyed by their original SCTID.
   */
  method LoadConcepts(board: ImportStatusBoard, run: BatchImportRun, taskKey: string, batch: seq<nat>, remote: Remote)
    returns (loaded: map<string, string>)
    modifies board, run
    requires board.Valid() && run.Valid()
    requires forall k :: 0 <= k < |batch| ==> batch[k] < |run.concepts|
    ensures board.Valid() && run.Valid()
    ensures run.concepts == old(run.concepts) && run.parentOf == old(run.parentOf)
    ensures var cs := BatchConcepts(run.concepts, batch);
      var results := LoadResults(run.request, taskKey, cs, remote);
      run.outcomes == Recorded(old(run.outcomes), Rows(cs), results, taskKey) &&
      board.currentImports == IncrementedAll(old(board.currentImports), run.id, LoadedFlags(results)) &&
      loaded == LoadedIds(Sctids(cs), results)
  {
    ghost var cs := BatchConcepts(run.concepts, batch);
    ghost var results := LoadResults(run.request, taskKey, cs, remote);
    ghost var rows := Rows(cs);
    ghost var flags := LoadedFlags(results);
    ghost var sctids := Sctids(cs);
    loaded := map[];
    for i := 0 to |batch|
      invariant board.Valid() && run.Valid()
      invariant run.concepts == old(run.concepts) && run.parentOf == old(run.parentOf)
      invariant run.outcomes == Recorded(old(run.outcomes), rows[..i], results[..i], taskKey)
      invariant board.currentImports == IncrementedAll(old(board.currentImports), run.id, flags[..i])
      invariant loaded == LoadedIds(sctids[..i], results[..i])
    {
      PrefixStep(rows, i);
      PrefixStep(results, i);
      PrefixStep(flags, i);
      PrefixStep(sctids, i);
      var c := run.concepts[batch[i]];
      var result := LoadConcept(run.request, taskKey, c, remote);
      if result.Ok? {
        run.Succeed(c.row, LoadedMessage(taskKey), result.value);
        loaded := loaded[c.sctid := result.value];
      } else {
        run.Fail(c.row, result.error);
      }
      board.IncrementProgress(run.id, result.Ok?);
    }
    assert rows[..|batch|] == rows && results[..|batch|] == results;
    assert flags[..|batch|] == flags && sctids[..|batch|] == sctids;
  }

  // ---------------------------------------------------------------------------
  // Tasks

  /**
   * `createTask`: the new task's key, or the exception met. A dry run creates
   * no task and uses DRY_RUN as the key; otherwise the authoring services
   * create the task and the terminology server its branch, a failure of the
   * latter being reported as such.
   */
  function TaskFor(request: ImportRequest, summary: string, remote: Remote): (r: Result<string>)
    ensures request.dryRun ==> r == Ok(DRY_RUN)
    ensures !request.dryRun ==> (r.Ok? <==> (remote.createTask(request.projectKey, summary).Ok? &&
      remote.createProjectTask(request.projectKey, remote.createTask(request.projectKey, summary).value).Ok?))
    ensures !request.dryRun && r.Ok? ==> r == remote.createTask(request.projectKey, summary)
    ensures !request.dryRun && remote.createTask(request.projectKey, summary).Err? ==> r == remote.createTask(request.projectKey, summary)
    ensures !request.dryRun && remote.createTask(request.projectKey, summary).Ok? && r.Err? ==> r.error == TS_TASK_FAILED
  {
    if request.dryRun then Ok(DRY_RUN)
    else
      var key :- remote.createTask(request.projectKey, summary);
      if remote.createProjectTask(request.projectKey, key).Err? then Err(TS_TASK_FAILED) else Ok(key)
  }

  method CreateTask(request: ImportRequest, batch: seq<Concept>, remote: Remote) returns (r: Result<string>)
    ensures r == TaskFor(request, TaskSummary(request, batch), remote)
  {
    var rowRange := GetRowRange(batch);
    var summary := request.originalFilename + ": " + rowRange;
    if !request.dryRun {
      r := remote.createTask(request.projectKey, summary);
      if r.Err? {
        return;
      }
      var branch := remote.createProjectTask(request.projectKey, r.value);
      if branch.Err? {
        return Err(TS_TASK_FAILED);
      }
    } else {
      r := Ok(DRY_RUN);
    }
  }

  /** `createTask`, as a function of the batch's concepts. */
  function TaskOf(request: ImportRequest, remote: Remote): seq<Concept> -> Result<string> {
    batch => TaskFor(request, TaskSummary(request, batch), remote)
  }

  /**
   * `loadConceptsOntoTasks`: one task per batch, then the batch's concepts.
   * The outcomes, the status board and the result are those of loading the
   * batches of the hierarchy in turn, each onto the task created for it, up
   * to the first task that cannot be created. When every task could be
   * created, every concept of the hierarchy has an outcome and the run's
   * `processed` counter has grown by exactly the target set when the run
   * started. Outcomes already recorded keep their record.
   */
  method LoadConceptsOntoTasks(board: ImportStatusBoard, run: BatchImportRun, remote: Remote) returns (r: Result<()>)
    modifies board, run
    requires board.Valid() && run.Valid()
    ensures board.Valid() && run.Valid()
    ensures run.concepts == old(run.concepts) && run.parentOf == old(run.parentOf)
    ensures var batches := Batches(Blocks(run.parentOf, run.RootChildren()), run.request.conceptsPerTask);
      IndicesWithin(batches, |run.concepts|) &&
      var loading := LoadedOntoTasks(Loading(old(run.outcomes), old(board.currentImports), Ok(())), run.id, run.concepts,
                                     batches, TaskOf(run.request, remote), LoadOf(run.request, remote));
      run.outcomes == loading.outcomes && board.currentImports == loading.imports && r == loading.status
    ensures old(run.outcomes).Keys <= run.outcomes.Keys
    ensures r.Ok? ==> Processed(board.currentImports, run.id) == Processed(old(board.currentImports), run.id) + ChildrenCount(run.parentOf, ROOT)
    ensures r.Ok? ==> forall j :: j in Descendants(run.parentOf, ROOT) ==> run.concepts[j].row.recordNumber in run.outcomes
  {
    var batches := CollectIntoBatches(run);
    HierarchyBatches(run.parentOf, run.request.conceptsPerTask, batches);
    ghost var start := Loading(run.outcomes, board.currentImports, Ok(()));
    ghost var taskOf, load := TaskOf(run.request, remote), LoadOf(run.request, remote);
    IndicesWithinPrefix(batches, |run.concepts|, 0);
    for b := 0 to |batches|
      invariant board.Valid() && run.Valid()
      invariant run.concepts == old(run.concepts) && run.parentOf == old(run.parentOf)
      invariant IndicesWithin(batches[..b], |run.concepts|)
      invariant LoadedOntoTasks(start, run.id, run.concepts, batches[..b], taskOf, load) == Loading(run.outcomes, board.currentImports, Ok(()))
    {
      LoadedOntoTasksSnoc(start, run.id, run.concepts, batches, taskOf, load, b);
      var thisBatch := batches[b];
      var task := CreateTask(run.request, BatchConcepts(run.concepts, thisBatch), remote);
      if task.Err? {
        LoadedOntoTasksStopsAtFailure(start, run.id, run.concepts, batches, taskOf, load, b + 1);
        LoadedOntoTasksCovers(start, run.id, run.concepts, batches, taskOf, load);
        return Err(task.error);
      }
      var conceptsLoaded := LoadConcepts(board, run, task.value, thisBatch, remote);
      LoadResultsAreLoadAll(run.request, task.value, BatchConcepts(run.concepts, thisBatch), remote);
    }
    assert batches[..|batches|] == batches;
    LoadedOntoTasksCovers(start, run.id, run.concepts, batches, taskOf, load);
    r := Ok(());
  }
}
