/**
 * One batch import run: the rows read from the uploaded file, the concepts
 * built from them, the load hierarchy the valid concepts are inserted into,
 * and the outcome recorded for each row. Also the partition of the root's
 * children into task-sized batches that both versions of the service use.
 */
module ImportRun {
  import opened Wrappers
  import opened JavaText
  import opened Snomed
  import opened BatchImportExpression

  /** A run is identified by a UUID; the model numbers runs instead. */
  type ImportId = nat

  /** A record of the uploaded CSV file: its record number and its fields. */
  datatype Row = Row(recordNumber: int, fields: seq<string>)

  /**
   * One term of a row in the multi-term format: its text, its case
   * significance code (which may be null) and its GB and US acceptability codes.
   */
  datatype ImportTerm = ImportTerm(
    term: string,
    caseSensitivity: Option<string>,
    acceptabilityGb: char,
    acceptabilityUs: char)

  /**
   * A concept read from a row by the run's format. `parents` grows when
   * validation adds the parent found in an expression, `expression` is set by
   * that validation, and `synonyms` is what the format lists as the row's
   * synonyms.
   */
  datatype Concept = Concept(
    row: Row,
    sctid: string,
    requiresNewSctid: bool,
    parents: seq<string>,
    expressionStr: Option<string>,
    expression: Option<Expression>,
    terms: seq<ImportTerm>,
    synonyms: seq<string>)

  /** The index a format reports for a column it does not have. */
  const FIELD_NOT_FOUND: int := -1

  /**
   * The layout of the uploaded file: its header row, which of the three ways
   * of stating a concept it uses, and the column index of each field.
   */
  datatype Format = Format(
    headers: seq<string>,
    definesByExpression: bool,
    constructsFsn: bool,
    hasMultipleTerms: bool,
    fsnRootIndex: int,
    semanticTagIndex: int,
    fsnIndex: int,
    prefTermIndex: int,
    capsFsnIndex: int)

  /**
   * `thisConcept.get(index)`: the row's field, or the exception an index
   * outside the row raises (Java 8 names only the index in that message).
   */
  function Field(c: Concept, index: int): (r: Result<string>)
    ensures r.Ok? <==> 0 <= index < |c.row.fields|
    ensures r.Ok? ==> r.value == c.row.fields[index]
  {
    if 0 <= index < |c.row.fields| then Ok(c.row.fields[index])
    else Err(IntToString(index))
  }

  /** What the user asked for when uploading the file. */
  datatype ImportRequest = ImportRequest(
    projectKey: string,
    originalFilename: string,
    createForAuthor: string,
    conceptsPerTask: int,
    dryRun: bool,
    lateralizedContentAllowed: bool,
    format: Format)

  /** The outcome recorded against a row: a failure reason, or where it loaded and the id it got. */
  datatype RowOutcome = Failed(reason: string) | Loaded(message: string, sctidCreated: string)

  /** The synthetic root of the load hierarchy, as a parent index. */
  const ROOT: int := -1

  /** The reason given to every row still without an outcome when a run is aborted. */
  const LOAD_ABORTED: string := "Load aborted"

  // ---------------------------------------------------------------------------
  // The load hierarchy. Concepts are kept in insertion order; `parentOf[j]` is
  // the index of concept j's parent, always inserted before it, or ROOT.

  predicate WellFormed(parentOf: seq<int>) {
    forall j :: 0 <= j < |parentOf| ==> ROOT <= parentOf[j] < j
  }

  /** The children of `p` among the concepts from index `from` on, in insertion order. */
  function ChildrenFrom(parentOf: seq<int>, p: int, from: nat): (r: seq<nat>)
    requires from <= |parentOf|
    decreases |parentOf| - from
    ensures forall k :: 0 <= k < |r| ==> from <= r[k] < |parentOf| && parentOf[r[k]] == p
    ensures forall k, l :: 0 <= k < l < |r| ==> r[k] < r[l]
    ensures forall j :: from <= j < |parentOf| && parentOf[j] == p ==> j in r
  {
    if from == |parentOf| then []
    else if parentOf[from] == p then [from] + ChildrenFrom(parentOf, p, from + 1)
    else ChildrenFrom(parentOf, p, from + 1)
  }

  /** `getChildren()`: the concepts whose parent is `p`, in insertion order. */
  function Children(parentOf: seq<int>, p: int): seq<nat> {
    ChildrenFrom(parentOf, p, 0)
  }

  /**
   * `addDescendants`: every descendant of `p` in depth-first pre-order, each
   * child followed at once by its own descendants.
   */
  function Descendants(parentOf: seq<int>, p: int): (r: seq<nat>)
    requires WellFormed(parentOf) && ROOT <= p < |parentOf|
    decreases |parentOf| - p, 1
    ensures forall k :: 0 <= k < |r| ==> p < r[k] < |parentOf|
  {
    DescendantsOf(parentOf, p, Children(parentOf, p))
  }

  /** The pre-order listing of the children `cs` of `p` and their descendants. */
  function DescendantsOf(parentOf: seq<int>, p: int, cs: seq<nat>): (r: seq<nat>)
    requires WellFormed(parentOf) && ROOT <= p
    requires forall k :: 0 <= k < |cs| ==> p < cs[k] < |parentOf|
    decreases |parentOf| - p, 0, |cs|
    ensures forall k :: 0 <= k < |r| ==> p < r[k] < |parentOf|
  {
    if cs == [] then []
    else [cs[0]] + Descendants(parentOf, cs[0]) + DescendantsOf(parentOf, p, cs[1..])
  }

  /** `childrenCount()`: the number of descendants, the concept itself not included. */
  function ChildrenCount(parentOf: seq<int>, p: int): nat
    requires WellFormed(parentOf) && ROOT <= p < |parentOf|
  {
    |Descendants(parentOf, p)|
  }

  /** A concept followed by all its descendants: what one root child brings into a batch. */
  function Block(parentOf: seq<int>, j: nat): seq<nat>
    requires WellFormed(parentOf) && j < |parentOf|
  {
    [j] + Descendants(parentOf, j)
  }

  /** The blocks of the concepts `cs`, in order. */
  function Blocks(parentOf: seq<int>, cs: seq<nat>): (r: seq<seq<nat>>)
    requires WellFormed(parentOf)
    requires forall k :: 0 <= k < |cs| ==> cs[k] < |parentOf|
    ensures |r| == |cs|
    ensures forall k :: 0 <= k < |r| ==> r[k] == Block(parentOf, cs[k])
  {
    seq(|cs|, k requires 0 <= k < |cs| => Block(parentOf, cs[k]))
  }

  /** The children of the root, which is the parent of every concept inserted without a known parent. */
  lemma RootChildrenAreTopLevel(parentOf: seq<int>)
    requires WellFormed(parentOf)
    ensures forall k :: 0 <= k < |Children(parentOf, ROOT)| ==> parentOf[Children(parentOf, ROOT)[k]] == ROOT
    ensures forall j :: 0 <= j < |parentOf| && parentOf[j] == ROOT ==> j in Children(parentOf, ROOT)
  {
  }

  /** Where a concept goes: under the first inserted concept whose id is its first parent, else under the root. */
  function LoadParent(concepts: seq<Concept>, c: Concept): (r: int)
    ensures ROOT <= r < |concepts|
    ensures r != ROOT ==> |c.parents| > 0 && concepts[r].sctid == c.parents[0]
    ensures r != ROOT ==> forall k :: 0 <= k < r ==> concepts[k].sctid != c.parents[0]
    ensures r == ROOT ==> |c.parents| == 0 || forall k :: 0 <= k < |concepts| ==> concepts[k].sctid != c.parents[0]
  {
    if |c.parents| == 0 then ROOT else FindSctid(concepts, c.parents[0], 0)
  }

  function FindSctid(concepts: seq<Concept>, sctid: string, from: nat): (r: int)
    requires from <= |concepts|
    decreases |concepts| - from
    ensures r == ROOT || from <= r < |concepts|
    ensures r != ROOT ==> concepts[r].sctid == sctid && forall k :: from <= k < r ==> concepts[k].sctid != sctid
    ensures r == ROOT ==> forall k :: from <= k < |concepts| ==> concepts[k].sctid != sctid
  {
    if from == |concepts| then ROOT
    else if concepts[from].sctid == sctid then from
    else FindSctid(concepts, sctid, from + 1)
  }

  /** The outcomes after an abort: every row not yet decided is failed, the rest are left as they were. */
  function Aborted(outcomes: map<int, RowOutcome>, rows: seq<Row>): map<int, RowOutcome>
    decreases |rows|
  {
    if rows == [] then outcomes
    else
      var before := Aborted(outcomes, rows[..|rows| - 1]);
      var last := rows[|rows| - 1].recordNumber;
      if last in before then before else before[last := Failed(LOAD_ABORTED)]
  }

  /** After an abort every row has an outcome, and an outcome recorded before is kept. */
  lemma {:induction false} AbortedDecidesEveryRow(outcomes: map<int, RowOutcome>, rows: seq<Row>)
    ensures forall k :: 0 <= k < |rows| ==> rows[k].recordNumber in Aborted(outcomes, rows)
    ensures forall n :: n in outcomes ==> n in Aborted(outcomes, rows) && Aborted(outcomes, rows)[n] == outcomes[n]
    ensures forall n :: n in Aborted(outcomes, rows) && n !in outcomes ==> Aborted(outcomes, rows)[n] == Failed(LOAD_ABORTED)
    decreases |rows|
  {
    if rows != [] {
      AbortedDecidesEveryRow(outcomes, rows[..|rows| - 1]);
      forall k | 0 <= k < |rows| - 1
        ensures rows[k].recordNumber in Aborted(outcomes, rows[..|rows| - 1])
      {
        assert rows[k] == rows[..|rows| - 1][k];
      }
    }
  }

  /** The parent indices after inserting `added`, one by one, into the hierarchy (`concepts`, `parentOf`). */
  function InsertedParents(concepts: seq<Concept>, parentOf: seq<int>, added: seq<Concept>): (r: seq<int>)
    requires |parentOf| == |concepts| && WellFormed(parentOf)
    ensures |r| == |concepts| + |added| && WellFormed(r)
    ensures r[..|parentOf|] == parentOf
    decreases |added|
  {
    if added == [] then parentOf
    else
      var init := added[..|added| - 1];
      InsertedParents(concepts, parentOf, init) + [LoadParent(concepts + init, added[|added| - 1])]
  }

  /** Inserting one more concept appends its load parent, found among the concepts before it. */
  lemma InsertedParentsSnoc(concepts: seq<Concept>, parentOf: seq<int>, added: seq<Concept>, c: Concept)
    requires |parentOf| == |concepts| && WellFormed(parentOf)
    ensures InsertedParents(concepts, parentOf, added + [c]) ==
      InsertedParents(concepts, parentOf, added) + [LoadParent(concepts + added, c)]
  {
    assert (added + [c])[..|added|] == added;
  }

  /** No two rows share a record number. */
  predicate DistinctRecords(rows: seq<Row>) {
    forall k, l :: 0 <= k < l < |rows| ==> rows[k].recordNumber != rows[l].recordNumber
  }

  /**
   * What screening one row decides: insert the concept, fail the row with a
   * reason, or stop the whole preparation with an exception.
   */
  datatype Screening = Accept(concept: Concept) | Reject(reason: string) | Abort(error: string)

  /** The outcomes, the accepted concepts in order, and the exception that stopped preparation, if any. */
  datatype Prepared = Prepared(outcomes: map<int, RowOutcome>, accepted: seq<Concept>, aborted: Option<string>)

  /** `prepareConcepts` as a fold over the rows: nothing is screened after an exception. */
  function PrepareAll(outcomes: map<int, RowOutcome>, rows: seq<Row>, screen: Row -> Screening): Prepared
    decreases |rows|
  {
    if rows == [] then Prepared(outcomes, [], None)
    else
      var p := PrepareAll(outcomes, rows[..|rows| - 1], screen);
      var row := rows[|rows| - 1];
      if p.aborted.Some? then p
      else match screen(row)
        case Accept(c) => p.(accepted := p.accepted + [c])
        case Reject(m) => p.(outcomes := p.outcomes[row.recordNumber := Failed(m)])
        case Abort(e) => p.(aborted := Some(e))
  }

  /** One more row: screened unless an earlier row aborted, its screening applied to what came before. */
  lemma PrepareAllStep(outcomes: map<int, RowOutcome>, rows: seq<Row>, i: nat, screen: Row -> Screening)
    requires i < |rows|
    ensures var p := PrepareAll(outcomes, rows[..i], screen);
      PrepareAll(outcomes, rows[..i + 1], screen) ==
        if p.aborted.Some? then p
        else match screen(rows[i])
          case Accept(c) => p.(accepted := p.accepted + [c])
          case Reject(m) => p.(outcomes := p.outcomes[rows[i].recordNumber := Failed(m)])
          case Abort(e) => p.(aborted := Some(e))
  {
    assert rows[..i + 1][..i] == rows[..i];
  }

  /** Preparation without an exception runs to the end. */
  lemma {:induction false} PrepareAllNeverAborts(outcomes: map<int, RowOutcome>, rows: seq<Row>, screen: Row -> Screening)
    requires forall k :: 0 <= k < |rows| ==> !screen(rows[k]).Abort?
    ensures PrepareAll(outcomes, rows, screen).aborted == None
    decreases |rows|
  {
    if rows != [] {
      var init := rows[..|rows| - 1];
      assert forall k :: 0 <= k < |init| ==> init[k] == rows[k];
      PrepareAllNeverAborts(outcomes, init, screen);
    }
  }

  /** A rejected row is failed with its reason. */
  lemma {:induction false} PrepareAllFailsRejected(outcomes: map<int, RowOutcome>, rows: seq<Row>, screen: Row -> Screening)
    requires forall k :: 0 <= k < |rows| ==> !screen(rows[k]).Abort?
    requires DistinctRecords(rows)
    ensures forall k :: 0 <= k < |rows| && screen(rows[k]).Reject? ==>
      rows[k].recordNumber in PrepareAll(outcomes, rows, screen).outcomes &&
      PrepareAll(outcomes, rows, screen).outcomes[rows[k].recordNumber] == Failed(screen(rows[k]).reason)
    decreases |rows|
  {
    if rows != [] {
      var n := |rows| - 1;
      var init := rows[..n];
      assert forall k :: 0 <= k < n ==> init[k] == rows[k];
      PrepareAllNeverAborts(outcomes, init, screen);
      PrepareAllFailsRejected(outcomes, init, screen);
      assert forall k :: 0 <= k < n ==> init[k].recordNumber != rows[n].recordNumber;
    }
  }

  /** An accepted row is inserted and gets no outcome of its own. */
  lemma {:induction false} PrepareAllInsertsAccepted(outcomes: map<int, RowOutcome>, rows: seq<Row>, screen: Row -> Screening)
    requires forall k :: 0 <= k < |rows| ==> !screen(rows[k]).Abort?
    requires DistinctRecords(rows)
    ensures forall k :: 0 <= k < |rows| && screen(rows[k]).Accept? ==>
      screen(rows[k]).concept in PrepareAll(outcomes, rows, screen).accepted &&
      (rows[k].recordNumber in PrepareAll(outcomes, rows, screen).outcomes <==> rows[k].recordNumber in outcomes)
    decreases |rows|
  {
    if rows != [] {
      var n := |rows| - 1;
      var init := rows[..n];
      assert forall k :: 0 <= k < n ==> init[k] == rows[k];
      PrepareAllNeverAborts(outcomes, init, screen);
      PrepareAllInsertsAccepted(outcomes, init, screen);
      var p := PrepareAll(outcomes, init, screen);
      var r := PrepareAll(outcomes, rows, screen);
      forall k | 0 <= k < n && screen(rows[k]).Accept?
        ensures screen(rows[k]).concept in r.accepted
        ensures rows[k].recordNumber in r.outcomes <==> rows[k].recordNumber in outcomes
      {
        assert rows[k].recordNumber != rows[n].recordNumber;
        assert screen(init[k]).concept in p.accepted;
      }
      PrepareAllKeepsOtherRecords(outcomes, init, screen);
      assert forall k :: 0 <= k < n ==> init[k].recordNumber != rows[n].recordNumber;
    }
  }

  /** Only concepts some row was accepted with are inserted. */
  lemma {:induction false} PrepareAllAcceptsOnlyScreened(outcomes: map<int, RowOutcome>, rows: seq<Row>, screen: Row -> Screening)
    requires forall k :: 0 <= k < |rows| ==> !screen(rows[k]).Abort?
    ensures forall c :: c in PrepareAll(outcomes, rows, screen).accepted ==>
      exists k :: 0 <= k < |rows| && screen(rows[k]) == Accept(c)
    decreases |rows|
  {
    if rows != [] {
      var n := |rows| - 1;
      var init := rows[..n];
      assert forall k :: 0 <= k < n ==> init[k] == rows[k];
      PrepareAllNeverAborts(outcomes, init, screen);
      PrepareAllAcceptsOnlyScreened(outcomes, init, screen);
      var p := PrepareAll(outcomes, init, screen);
      forall c | c in PrepareAll(outcomes, rows, screen).accepted
        ensures exists k :: 0 <= k < |rows| && screen(rows[k]) == Accept(c)
      {
        if c in p.accepted {
          var k :| 0 <= k < n && screen(init[k]) == Accept(c);
          assert screen(rows[k]) == Accept(c);
        } else {
          assert screen(rows[n]) == Accept(c);
        }
      }
    }
  }

  /** Outcomes of record numbers no row carries are kept. */
  lemma {:induction false} PrepareAllKeepsOtherRecords(outcomes: map<int, RowOutcome>, rows: seq<Row>, screen: Row -> Screening)
    requires forall k :: 0 <= k < |rows| ==> !screen(rows[k]).Abort?
    ensures forall n :: (forall k :: 0 <= k < |rows| ==> rows[k].recordNumber != n) ==>
      (n in PrepareAll(outcomes, rows, screen).outcomes <==> n in outcomes) &&
      (n in outcomes ==> PrepareAll(outcomes, rows, screen).outcomes[n] == outcomes[n])
    decreases |rows|
  {
    if rows != [] {
      var n := |rows| - 1;
      var init := rows[..n];
      assert forall k :: 0 <= k < n ==> init[k] == rows[k];
      PrepareAllNeverAborts(outcomes, init, screen);
      PrepareAllKeepsOtherRecords(outcomes, init, screen);
    }
  }

  /**
   * When no row raises an exception: a rejected row is failed with its reason,
   * an accepted row gets no outcome and is inserted, only accepted concepts are
   * inserted, and outcomes of other record numbers are kept.
   */
  lemma PrepareAllScreensEveryRow(outcomes: map<int, RowOutcome>, rows: seq<Row>, screen: Row -> Screening)
    requires forall k :: 0 <= k < |rows| ==> !screen(rows[k]).Abort?
    requires DistinctRecords(rows)
    ensures PrepareAll(outcomes, rows, screen).aborted == None
    ensures forall k :: 0 <= k < |rows| && screen(rows[k]).Reject? ==>
      rows[k].recordNumber in PrepareAll(outcomes, rows, screen).outcomes &&
      PrepareAll(outcomes, rows, screen).outcomes[rows[k].recordNumber] == Failed(screen(rows[k]).reason)
    ensures forall k :: 0 <= k < |rows| && screen(rows[k]).Accept? ==>
      screen(rows[k]).concept in PrepareAll(outcomes, rows, screen).accepted &&
      (rows[k].recordNumber in PrepareAll(outcomes, rows, screen).outcomes <==> rows[k].recordNumber in outcomes)
    ensures forall c :: c in PrepareAll(outcomes, rows, screen).accepted ==>
      exists k :: 0 <= k < |rows| && screen(rows[k]) == Accept(c)
    ensures forall n :: (forall k :: 0 <= k < |rows| ==> rows[k].recordNumber != n) ==>
      (n in PrepareAll(outcomes, rows, screen).outcomes <==> n in outcomes) &&
      (n in outcomes ==> PrepareAll(outcomes, rows, screen).outcomes[n] == outcomes[n])
  {
    PrepareAllNeverAborts(outcomes, rows, screen);
    PrepareAllFailsRejected(outcomes, rows, screen);
    PrepareAllInsertsAccepted(outcomes, rows, screen);
    PrepareAllAcceptsOnlyScreened(outcomes, rows, screen);
    PrepareAllKeepsOtherRecords(outcomes, rows, screen);
  }

  /** Preparation stops exactly at an exception some row raised. */
  lemma {:induction false} PrepareAllAborts(outcomes: map<int, RowOutcome>, rows: seq<Row>, screen: Row -> Screening)
    ensures PrepareAll(outcomes, rows, screen).aborted.Some? <==> exists k :: 0 <= k < |rows| && screen(rows[k]).Abort?
    ensures PrepareAll(outcomes, rows, screen).aborted.Some? ==>
      exists k :: 0 <= k < |rows| && screen(rows[k]) == Abort(PrepareAll(outcomes, rows, screen).aborted.value)
    decreases |rows|
  {
    if rows != [] {
      var n := |rows| - 1;
      var init := rows[..n];
      PrepareAllAborts(outcomes, init, screen);
      assert forall k :: 0 <= k < n ==> init[k] == rows[k];
    }
  }

  /** Once a row has raised an exception, the rows after it change nothing. */
  lemma {:induction false} PrepareAllStopsAtAbort(outcomes: map<int, RowOutcome>, rows: seq<Row>, i: nat, screen: Row -> Screening)
    requires i <= |rows|
    requires PrepareAll(outcomes, rows[..i], screen).aborted.Some?
    ensures PrepareAll(outcomes, rows, screen) == PrepareAll(outcomes, rows[..i], screen)
    decreases |rows|
  {
    if i < |rows| {
      var init := rows[..|rows| - 1];
      assert init[..i] == rows[..i];
      PrepareAllStopsAtAbort(outcomes, init, i, screen);
    } else {
      assert rows[..i] == rows;
    }
  }

  class BatchImportRun {
    const id: ImportId
    const request: ImportRequest
    /** The concepts inserted into the load hierarchy, in insertion order. */
    var concepts: seq<Concept>
    /** The parent index of each inserted concept. */
    var parentOf: seq<int>
    /** The outcome recorded for each row, keyed by record number. */
    var outcomes: map<int, RowOutcome>

    predicate Valid()
      reads this
    {
      |parentOf| == |concepts| && WellFormed(parentOf)
    }

    /** `createRun`: an empty hierarchy and no outcome yet. */
    constructor (id: ImportId, request: ImportRequest)
      ensures this.id == id && this.request == request
      ensures concepts == [] && parentOf == [] && outcomes == map[]
      ensures Valid()
    {
      this.id := id;
      this.request := request;
      concepts := [];
      parentOf := [];
      outcomes := map[];
    }

    /** The root's children, in insertion order. */
    function RootChildren(): seq<nat>
      reads this
    {
      Children(parentOf, ROOT)
    }

    /** `fail`: records a failure for the row, replacing any earlier outcome. */
    method Fail(row: Row, reason: string)
      modifies this
      ensures outcomes == old(outcomes)[row.recordNumber := Failed(reason)]
      ensures concepts == old(concepts) && parentOf == old(parentOf)
    {
      outcomes := outcomes[row.recordNumber := Failed(reason)];
    }

    /** `succeed`: records that the row loaded, with the message and the created id. */
    method Succeed(row: Row, message: string, sctidCreated: string)
      modifies this
      ensures outcomes == old(outcomes)[row.recordNumber := Loaded(message, sctidCreated)]
      ensures concepts == old(concepts) && parentOf == old(parentOf)
    {
      outcomes := outcomes[row.recordNumber := Loaded(message, sctidCreated)];
    }

    /** `insertIntoLoadHierarchy`: appends the concept under its parent if already inserted, else under the root. */
    method InsertIntoLoadHierarchy(c: Concept)
      modifies this
      requires Valid()
      ensures Valid()
      ensures concepts == old(concepts) + [c]
      ensures parentOf == old(parentOf) + [LoadParent(old(concepts), c)]
      ensures outcomes == old(outcomes)
    {
      parentOf := parentOf + [LoadParent(concepts, c)];
      concepts := concepts + [c];
    }

    /** `abortLoad`: fails every row that has no outcome yet. */
    method AbortLoad(rows: seq<Row>)
      modifies this
      ensures outcomes == Aborted(old(outcomes), rows)
      ensures concepts == old(concepts) && parentOf == old(parentOf)
    {
      var i := 0;
      while i < |rows|
        invariant 0 <= i <= |rows|
        invariant outcomes == Aborted(old(outcomes), rows[..i])
        invariant concepts == old(concepts) && parentOf == old(parentOf)
      {
        assert rows[..i + 1][..i] == rows[..i];
        if rows[i].recordNumber !in outcomes {
          outcomes := outcomes[rows[i].recordNumber := Failed(LOAD_ABORTED)];
        }
        i := i + 1;
      }
      assert rows[..|rows|] == rows;
    }
  }

  // ---------------------------------------------------------------------------
  // Batching: the root's children are taken in order, each with its
  // descendants; a new batch is opened only when there is none yet or the
  // current one already holds at least `limit` concepts.

  function Flatten<T>(xss: seq<seq<T>>): seq<T>
    decreases |xss|
  {
    if xss == [] then [] else Flatten(xss[..|xss| - 1]) + xss[|xss| - 1]
  }

  lemma FlattenSnoc<T>(xss: seq<seq<T>>, x: seq<T>)
    ensures Flatten(xss + [x]) == Flatten(xss) + x
  {
    assert (xss + [x])[..|xss|] == xss;
  }

  lemma {:induction false} FlattenCons<T>(x: seq<T>, xss: seq<seq<T>>)
    ensures Flatten([x] + xss) == x + Flatten(xss)
    decreases |xss|
  {
    if xss == [] {
      assert [x][..0] == [];
    } else {
      var n := |xss| - 1;
      assert ([x] + xss)[..n + 1] == [x] + xss[..n];
      FlattenCons(x, xss[..n]);
    }
  }

  /**
   * Read in order, the blocks of a concept's children are its descendants in
   * pre-order; for the root's children, every concept `childrenCount` counts.
   */
  lemma {:induction false} BlocksAreDescendants(parentOf: seq<int>, p: int, cs: seq<nat>)
    requires WellFormed(parentOf) && ROOT <= p
    requires forall k :: 0 <= k < |cs| ==> p < cs[k] < |parentOf|
    ensures Flatten(Blocks(parentOf, cs)) == DescendantsOf(parentOf, p, cs)
    decreases |cs|
  {
    if cs != [] {
      BlocksAreDescendants(parentOf, p, cs[1..]);
      assert Blocks(parentOf, cs) == [Block(parentOf, cs[0])] + Blocks(parentOf, cs[1..]);
      FlattenCons(Block(parentOf, cs[0]), Blocks(parentOf, cs[1..]));
    }
  }

  /** The root's children's blocks, read in order, are the root's descendants. */
  lemma RootBlocksAreAllDescendants(parentOf: seq<int>)
    requires WellFormed(parentOf)
    ensures forall k :: 0 <= k < |Children(parentOf, ROOT)| ==> Children(parentOf, ROOT)[k] < |parentOf|
    ensures Flatten(Blocks(parentOf, Children(parentOf, ROOT))) == Descendants(parentOf, ROOT)
    ensures |Flatten(Blocks(parentOf, Children(parentOf, ROOT)))| == ChildrenCount(parentOf, ROOT)
  {
    BlocksAreDescendants(parentOf, ROOT, Children(parentOf, ROOT));
  }

  function Batches<T>(blocks: seq<seq<T>>, limit: int): seq<seq<T>>
    decreases |blocks|
  {
    if blocks == [] then []
    else
      var prev := Batches(blocks[..|blocks| - 1], limit);
      var b := blocks[|blocks| - 1];
      if prev == [] || |prev[|prev| - 1]| >= limit then prev + [b]
      else prev[..|prev| - 1] + [prev[|prev| - 1] + b]
  }

  /** Appending one block either opens a new batch or extends the last one. */
  lemma BatchesSnoc<T>(blocks: seq<seq<T>>, b: seq<T>, limit: int)
    ensures var prev := Batches(blocks, limit);
      Batches(blocks + [b], limit) ==
        if prev == [] || |prev[|prev| - 1]| >= limit then prev + [b]
        else prev[..|prev| - 1] + [prev[|prev| - 1] + b]
  {
    assert (blocks + [b])[..|blocks|] == blocks;
  }

  /** The blocks of one more child are the blocks before it and its own. */
  lemma BlocksSnoc(parentOf: seq<int>, cs: seq<nat>, i: nat)
    requires WellFormed(parentOf)
    requires i < |cs|
    requires forall k :: 0 <= k < |cs| ==> cs[k] < |parentOf|
    ensures Blocks(parentOf, cs[..i + 1]) == Blocks(parentOf, cs[..i]) + [Block(parentOf, cs[i])]
  {
  }

  /** The indices of the blocks that open a new batch. */
  function Openers<T>(blocks: seq<seq<T>>, limit: int): seq<nat>
    decreases |blocks|
  {
    if blocks == [] then []
    else
      var prev := Batches(blocks[..|blocks| - 1], limit);
      if prev == [] || |prev[|prev| - 1]| >= limit then Openers(blocks[..|blocks| - 1], limit) + [|blocks| - 1]
      else Openers(blocks[..|blocks| - 1], limit)
  }

  /** Batching neither loses, duplicates nor reorders a concept: read in order, the batches are the blocks. */
  lemma BatchesKeepOrder<T>(blocks: seq<seq<T>>, limit: int)
    ensures Flatten(Batches(blocks, limit)) == Flatten(blocks)
    ensures |Batches(blocks, limit)| == 0 <==> |blocks| == 0
  {
    BatchesFlatten(blocks, limit);
    BatchesEmptyOnlyWithoutBlocks(blocks, limit);
  }

  lemma {:induction false} BatchesFlatten<T>(blocks: seq<seq<T>>, limit: int)
    ensures Flatten(Batches(blocks, limit)) == Flatten(blocks)
    decreases |blocks|
  {
    if blocks != [] {
      var init := blocks[..|blocks| - 1];
      var b := blocks[|blocks| - 1];
      var prev := Batches(init, limit);
      BatchesFlatten(init, limit);
      assert blocks == init + [b];
      FlattenSnoc(init, b);
      if prev == [] || |prev[|prev| - 1]| >= limit {
        FlattenSnoc(prev, b);
      } else {
        var front := prev[..|prev| - 1];
        var last := prev[|prev| - 1];
        assert prev == front + [last];
        FlattenSnoc(front, last);
        FlattenSnoc(front, last + b);
      }
    }
  }

  /** There is a batch as soon as there is a block. */
  lemma BatchesEmptyOnlyWithoutBlocks<T>(blocks: seq<seq<T>>, limit: int)
    ensures |Batches(blocks, limit)| == 0 <==> |blocks| == 0
  {
    if blocks != [] {
      var prev := Batches(blocks[..|blocks| - 1], limit);
      if prev == [] || |prev[|prev| - 1]| >= limit {
        assert |Batches(blocks, limit)| == |prev| + 1;
      } else {
        assert |Batches(blocks, limit)| == |prev|;
      }
    }
  }

  /** Every batch but the last holds at least `limit` concepts. */
  lemma {:induction false} BatchesAreFull<T>(blocks: seq<seq<T>>, limit: int)
    ensures forall i :: 0 <= i < |Batches(blocks, limit)| - 1 ==> |Batches(blocks, limit)[i]| >= limit
    decreases |blocks|
  {
    if blocks != [] {
      BatchesAreFull(blocks[..|blocks| - 1], limit);
    }
  }

  /**
   * The bound the loop actually keeps: when every block is non-empty and
   * holds at most `limit` concepts, no batch holds more than 2 * limit - 1.
   */
  lemma {:induction false} BatchesBounded<T>(blocks: seq<seq<T>>, limit: int)
    requires forall k :: 0 <= k < |blocks| ==> 1 <= |blocks[k]| <= limit
    ensures forall i :: 0 <= i < |Batches(blocks, limit)| ==> |Batches(blocks, limit)[i]| <= 2 * limit - 1
    decreases |blocks|
  {
    if blocks != [] {
      var init := blocks[..|blocks| - 1];
      assert forall k :: 0 <= k < |init| ==> init[k] == blocks[k];
      BatchesBounded(init, limit);
    }
  }

  /** Where batch `i` ends in the list of blocks: where the next one opens, or at the end. */
  function BatchEnd(openers: seq<nat>, i: nat, n: nat): nat {
    if i + 1 < |openers| then openers[i + 1] else n
  }

  /**
   * `batches` cut `blocks` into runs of whole blocks: batch `i` is exactly the
   * blocks from its opener up to the next batch's opener, and the first batch
   * opens at the first block.
   */
  ghost predicate Partitioned<T>(blocks: seq<seq<T>>, batches: seq<seq<T>>, openers: seq<nat>) {
    |openers| == |batches| &&
    (|blocks| == 0 <==> |openers| == 0) &&
    (|openers| > 0 ==> openers[0] == 0) &&
    (forall i :: 0 <= i < |openers| ==> openers[i] < |blocks|) &&
    (forall i, j :: 0 <= i < j < |openers| ==> openers[i] < openers[j]) &&
    forall i {:trigger batches[i]} :: 0 <= i < |batches| ==> batches[i] == Flatten(blocks[openers[i]..BatchEnd(openers, i, |blocks|)])
  }

  lemma OpenBatchKeepsPartition<T>(init: seq<seq<T>>, b: seq<T>, prev: seq<seq<T>>, po: seq<nat>)
    requires Partitioned(init, prev, po)
    ensures Partitioned(init + [b], prev + [b], po + [|init|])
  {
    var blocks := init + [b];
    var r := prev + [b];
    var o := po + [|init|];
    assert forall i :: 0 <= i < |po| ==> o[i] == po[i] && po[i] < |init|;
    assert forall i, j :: 0 <= i < j < |o| ==> o[i] < o[j];
    forall i | 0 <= i < |r|
      ensures r[i] == Flatten(blocks[o[i]..BatchEnd(o, i, |blocks|)])
    {
      if i < |prev| {
        var end := BatchEnd(po, i, |init|);
        assert BatchEnd(o, i, |blocks|) == end;
        assert po[i] <= end <= |init|;
        assert blocks[o[i]..BatchEnd(o, i, |blocks|)] == init[po[i]..end];
        assert r[i] == prev[i];
      } else {
        assert blocks[o[i]..BatchEnd(o, i, |blocks|)] == [] + [b];
        FlattenSnoc([], b);
      }
    }
  }

  lemma ExtendBatchKeepsPartition<T>(init: seq<seq<T>>, b: seq<T>, prev: seq<seq<T>>, po: seq<nat>)
    requires Partitioned(init, prev, po) && prev != []
    ensures Partitioned(init + [b], prev[..|prev| - 1] + [prev[|prev| - 1] + b], po)
  {
    var blocks := init + [b];
    var m := |prev|;
    var r := prev[..m - 1] + [prev[m - 1] + b];
    forall i | 0 <= i < |r|
      ensures r[i] == Flatten(blocks[po[i]..BatchEnd(po, i, |blocks|)])
    {
      if i < m - 1 {
        assert blocks[po[i]..BatchEnd(po, i, |blocks|)] == init[po[i]..BatchEnd(po, i, |init|)];
      } else {
        assert blocks[po[i]..BatchEnd(po, i, |blocks|)] == init[po[i]..|init|] + [b];
        FlattenSnoc(init[po[i]..|init|], b);
      }
    }
  }

  /** A block is never split: the batches are runs of whole blocks, cut where `Openers` says. */
  lemma {:induction false} BatchesAreWholeBlocks<T>(blocks: seq<seq<T>>, limit: int)
    ensures Partitioned(blocks, Batches(blocks, limit), Openers(blocks, limit))
    decreases |blocks|
  {
    if blocks != [] {
      var n := |blocks| - 1;
      var init := blocks[..n];
      var b := blocks[n];
      var prev := Batches(init, limit);
      var po := Openers(init, limit);
      BatchesAreWholeBlocks(init, limit);
      assert blocks == init + [b];
      if prev == [] || |prev[|prev| - 1]| >= limit {
        OpenBatchKeepsPartition(init, b, prev, po);
      } else {
        ExtendBatchKeepsPartition(init, b, prev, po);
      }
    }
  }

  /** After full batches, two single concepts with room for two per task open one new batch together. */
  lemma BatchesAddPair<T>(blocks: seq<seq<T>>, x: T, y: T)
    requires var prev := Batches(blocks, 2); prev == [] || |prev[|prev| - 1]| >= 2
    ensures Batches(blocks + [[x], [y]], 2) == Batches(blocks, 2) + [[x, y]]
  {
    var prev := Batches(blocks, 2);
    BatchesSnoc(blocks, [x], 2);
    BatchesSnoc(blocks + [[x]], [y], 2);
    assert (prev + [[x]])[..|prev|] == prev && [x] + [y] == [x, y];
    assert blocks + [[x]] + [[y]] == blocks + [[x], [y]];
  }

  /** Five single concepts with room for two per task give batches of two, two and one, in order. */
  lemma BatchesOfSingles<T>(c0: T, c1: T, c2: T, c3: T, c4: T)
    ensures Batches([[c0], [c1], [c2], [c3], [c4]], 2) == [[c0, c1], [c2, c3], [c4]]
  {
    var none: seq<seq<T>> := [];
    var b2 := none + [[c0], [c1]];
    var b4 := b2 + [[c2], [c3]];
    BatchesAddPair(none, c0, c1);
    assert Batches(b2, 2) == [[c0, c1]];
    BatchesAddPair(b2, c2, c3);
    assert Batches(b4, 2) == [[c0, c1], [c2, c3]];
    BatchesSnoc(b4, [c4], 2);
    assert b4 + [[c4]] == [[c0], [c1], [c2], [c3], [c4]];
  }

  /**
   * A batch can hold more than `limit` concepts even though every block fits
   * within `limit`: a single concept followed by a concept with one child.
   */
  lemma BatchesCanExceedLimit()
    ensures Batches([[0], [1, 2]], 2) == [[0, 1, 2]]
  {
    var b1: seq<seq<int>> := [[0]];
    var b2: seq<seq<int>> := [[0], [1, 2]];
    assert b1[..0] == [] && b2[..1] == b1;
    assert [0] + [1, 2] == [0, 1, 2];
    assert Batches(b1, 2) == [[0]];
  }
}
