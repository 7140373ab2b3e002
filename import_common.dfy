/**
 * The parts of the batch import service that the older and the newer version
 * share word for word: the check-digit screen, the hierarchy gate, batching,
 * the task summary's row range, the list of loaded ids, the synonym
 * de-duplication and the clearing of temporary ids.
 */
module ImportCommon {
  import opened Wrappers
  import opened JavaText
  import opened Snomed
  import opened ImportRun
  import ImportProgress
  import Verhoeff

  /** `validateSCTID`: the verdict of the check digit, with any exception read as "not valid". */
  function ValidateSctid(sctid: Option<string>): (r: bool)
    ensures r <==> Verhoeff.Check(sctid) == Ok(true)
  {
    match Verhoeff.Check(sctid)
    case Ok(valid) => valid
    case Err(_) => false
  }

  /**
   * The check never raises: a null or empty id, or one with a non-digit, is
   * simply not valid; the is-a identifier is valid; and an id one mistyped
   * digit away from a valid one is not.
   */
  lemma ValidateSctidNeverFails(sctid: Option<string>)
    ensures sctid.None? ==> !ValidateSctid(sctid)
    ensures sctid.Some? && (|sctid.value| == 0 || !AllDigits(sctid.value)) ==> !ValidateSctid(sctid)
    ensures ValidateSctid(Some(SCTID_ISA))
  {
    Verhoeff.IsAPasses();
  }

  // ---------------------------------------------------------------------------
  // The hierarchy gate

  function OversizeMessage(c: Concept): string {
    "Concept " + c.sctid + " at row " + IntToString(c.row.recordNumber) + " has more children than allowed for a single task"
  }

  /** Every concept in `cs` has fewer descendants than `limit`. */
  predicate WithinTaskLimit(parentOf: seq<int>, cs: seq<nat>, limit: int)
    requires WellFormed(parentOf)
    requires forall k :: 0 <= k < |cs| ==> cs[k] < |parentOf|
  {
    forall k :: 0 <= k < |cs| ==> ChildrenCount(parentOf, cs[k]) < limit
  }

  /** The outcomes after the gate has failed every concept in `cs` with too many descendants. */
  function GateFailures(outcomes: map<int, RowOutcome>, concepts: seq<Concept>, parentOf: seq<int>, cs: seq<nat>, limit: int): map<int, RowOutcome>
    requires |parentOf| == |concepts| && WellFormed(parentOf)
    requires forall k :: 0 <= k < |cs| ==> cs[k] < |parentOf|
    decreases |cs|
  {
    if cs == [] then outcomes
    else
      var before := GateFailures(outcomes, concepts, parentOf, cs[..|cs| - 1], limit);
      var c := cs[|cs| - 1];
      if ChildrenCount(parentOf, c) >= limit then before[concepts[c].row.recordNumber := Failed(OversizeMessage(concepts[c]))]
      else before
  }

  /** Every outcome is a failure. */
  predicate AllFailed(outcomes: map<int, RowOutcome>) {
    forall n :: n in outcomes ==> outcomes[n].Failed?
  }

  /** The gate fails every offending concept, not just the first. */
  lemma {:induction false} GateFailsEveryOffender(outcomes: map<int, RowOutcome>, concepts: seq<Concept>, parentOf: seq<int>, cs: seq<nat>, limit: int)
    requires |parentOf| == |concepts| && WellFormed(parentOf)
    requires forall k :: 0 <= k < |cs| ==> cs[k] < |parentOf|
    ensures forall k :: 0 <= k < |cs| && ChildrenCount(parentOf, cs[k]) >= limit ==>
      concepts[cs[k]].row.recordNumber in GateFailures(outcomes, concepts, parentOf, cs, limit) &&
      GateFailures(outcomes, concepts, parentOf, cs, limit)[concepts[cs[k]].row.recordNumber].Failed?
    decreases |cs|
  {
    if cs != [] {
      var n := |cs| - 1;
      var init := cs[..n];
      assert forall k :: 0 <= k < n ==> init[k] == cs[k];
      GateFailsEveryOffender(outcomes, concepts, parentOf, init, limit);
    }
  }

  /** The gate touches no record but those of the concepts it looks at. */
  lemma {:induction false} GateKeepsOtherRecords(outcomes: map<int, RowOutcome>, concepts: seq<Concept>, parentOf: seq<int>, cs: seq<nat>, limit: int)
    requires |parentOf| == |concepts| && WellFormed(parentOf)
    requires forall k :: 0 <= k < |cs| ==> cs[k] < |parentOf|
    ensures forall n :: (forall k :: 0 <= k < |cs| ==> concepts[cs[k]].row.recordNumber != n) ==>
      (n in GateFailures(outcomes, concepts, parentOf, cs, limit) <==> n in outcomes)
    ensures forall n :: (forall k :: 0 <= k < |cs| ==> concepts[cs[k]].row.recordNumber != n) && n in outcomes ==>
      GateFailures(outcomes, concepts, parentOf, cs, limit)[n] == outcomes[n]
    decreases |cs|
  {
    if cs != [] {
      var last := |cs| - 1;
      var init := cs[..last];
      assert forall k :: 0 <= k < last ==> init[k] == cs[k];
      GateKeepsOtherRecords(outcomes, concepts, parentOf, init, limit);
      var before := GateFailures(outcomes, concepts, parentOf, init, limit);
      var c := cs[last];
      assert GateFailures(outcomes, concepts, parentOf, cs, limit) ==
        if ChildrenCount(parentOf, c) >= limit then before[concepts[c].row.recordNumber := Failed(OversizeMessage(concepts[c]))] else before;
    }
  }

  /** A gate that passes leaves the outcomes as they were. */
  lemma {:induction false} GatePassLeavesOutcomes(outcomes: map<int, RowOutcome>, concepts: seq<Concept>, parentOf: seq<int>, cs: seq<nat>, limit: int)
    requires |parentOf| == |concepts| && WellFormed(parentOf)
    requires forall k :: 0 <= k < |cs| ==> cs[k] < |parentOf|
    requires WithinTaskLimit(parentOf, cs, limit)
    ensures GateFailures(outcomes, concepts, parentOf, cs, limit) == outcomes
    decreases |cs|
  {
    if cs != [] {
      var n := |cs| - 1;
      var init := cs[..n];
      assert forall k :: 0 <= k < n ==> init[k] == cs[k];
      GatePassLeavesOutcomes(outcomes, concepts, parentOf, init, limit);
    }
  }

  /** The gate adds only failures. */
  lemma {:induction false} GateOnlyFails(outcomes: map<int, RowOutcome>, concepts: seq<Concept>, parentOf: seq<int>, cs: seq<nat>, limit: int)
    requires |parentOf| == |concepts| && WellFormed(parentOf)
    requires forall k :: 0 <= k < |cs| ==> cs[k] < |parentOf|
    requires AllFailed(outcomes)
    ensures AllFailed(GateFailures(outcomes, concepts, parentOf, cs, limit))
    decreases |cs|
  {
    if cs != [] {
      var n := |cs| - 1;
      var init := cs[..n];
      assert forall k :: 0 <= k < n ==> init[k] == cs[k];
      GateOnlyFails(outcomes, concepts, parentOf, init, limit);
    }
  }

  /** One more child: the gate's verdict and outcomes as the loop extends them. */
  lemma GateSnoc(outcomes: map<int, RowOutcome>, concepts: seq<Concept>, parentOf: seq<int>, cs: seq<nat>, i: nat, limit: int)
    requires |parentOf| == |concepts| && WellFormed(parentOf)
    requires i < |cs|
    requires forall k :: 0 <= k < |cs| ==> cs[k] < |parentOf|
    ensures WithinTaskLimit(parentOf, cs[..i + 1], limit) <==>
      WithinTaskLimit(parentOf, cs[..i], limit) && ChildrenCount(parentOf, cs[i]) < limit
    ensures GateFailures(outcomes, concepts, parentOf, cs[..i + 1], limit) ==
      var before := GateFailures(outcomes, concepts, parentOf, cs[..i], limit);
      if ChildrenCount(parentOf, cs[i]) >= limit then before[concepts[cs[i]].row.recordNumber := Failed(OversizeMessage(concepts[cs[i]]))]
      else before
  {
    assert cs[..i + 1][..i] == cs[..i];
  }

  /**
   * `validateLoadHierarchy`: false exactly when some child of the root has at
   * least `conceptsPerTask` descendants, each such child's row being failed.
   */
  method ValidateLoadHierarchy(run: BatchImportRun) returns (valid: bool)
    modifies run
    requires run.Valid()
    ensures run.Valid()
    ensures run.concepts == old(run.concepts) && run.parentOf == old(run.parentOf)
    ensures valid <==> WithinTaskLimit(run.parentOf, run.RootChildren(), run.request.conceptsPerTask)
    ensures run.outcomes == GateFailures(old(run.outcomes), run.concepts, run.parentOf, run.RootChildren(), run.request.conceptsPerTask)
  {
    var concepts := run.concepts;
    var parentOf := run.parentOf;
    var children := run.RootChildren();
    var limit := run.request.conceptsPerTask;
    valid := true;
    for i := 0 to |children|
      invariant run.concepts == concepts && run.parentOf == parentOf
      invariant valid <==> WithinTaskLimit(parentOf, children[..i], limit)
      invariant run.outcomes == GateFailures(old(run.outcomes), concepts, parentOf, children[..i], limit)
    {
      GateSnoc(old(run.outcomes), concepts, parentOf, children, i, limit);
      var c := children[i];
      if ChildrenCount(parentOf, c) >= limit {
        run.Fail(concepts[c].row, OversizeMessage(concepts[c]));
        valid := false;
      }
    }
    assert children[..|children|] == children;
  }

  // ---------------------------------------------------------------------------
  // Batching

  /**
   * `collectIntoBatches`: the root's children in order, each followed by its
   * descendants, cut into batches where the current one has reached
   * `conceptsPerTask`. Batches hold indices into the run's concepts.
   */
  method CollectIntoBatches(run: BatchImportRun) returns (batches: seq<seq<nat>>)
    requires run.Valid()
    ensures batches == Batches(Blocks(run.parentOf, run.RootChildren()), run.request.conceptsPerTask)
  {
    batches := CollectBlocks(run.parentOf, run.RootChildren(), run.request.conceptsPerTask);
  }

  /** The loop of `collectIntoBatches` over the given children of the root. */
  method CollectBlocks(parentOf: seq<int>, children: seq<nat>, limit: int) returns (batches: seq<seq<nat>>)
    requires WellFormed(parentOf)
    requires forall k :: 0 <= k < |children| ==> children[k] < |parentOf|
    ensures batches == Batches(Blocks(parentOf, children), limit)
  {
    batches := [];
    for i := 0 to |children|
      invariant batches == Batches(Blocks(parentOf, children[..i]), limit)
    {
      var block := [children[i]] + Descendants(parentOf, children[i]);
      BlocksSnoc(parentOf, children, i);
      BatchesSnoc(Blocks(parentOf, children[..i]), block, limit);
      if batches == [] || |batches[|batches| - 1]| >= limit {
        batches := batches + [block];
      } else {
        batches := batches[..|batches| - 1] + [batches[|batches| - 1] + block];
      }
    }
    assert children[..|children|] == children;
  }

  /**
   * What batching guarantees once the gate has passed: every concept in the
   * hierarchy is in exactly the pre-order the target counts, every batch but
   * the last is full, and none holds more than 2 * conceptsPerTask - 1.
   */
  lemma GatedBatches(parentOf: seq<int>, limit: int)
    requires WellFormed(parentOf)
    requires forall k :: 0 <= k < |Children(parentOf, ROOT)| ==> Children(parentOf, ROOT)[k] < |parentOf|
    requires WithinTaskLimit(parentOf, Children(parentOf, ROOT), limit)
    ensures Flatten(Batches(Blocks(parentOf, Children(parentOf, ROOT)), limit)) == Descendants(parentOf, ROOT)
    ensures forall i :: 0 <= i < |Batches(Blocks(parentOf, Children(parentOf, ROOT)), limit)| - 1 ==>
      |Batches(Blocks(parentOf, Children(parentOf, ROOT)), limit)[i]| >= limit
    ensures forall i :: 0 <= i < |Batches(Blocks(parentOf, Children(parentOf, ROOT)), limit)| ==>
      |Batches(Blocks(parentOf, Children(parentOf, ROOT)), limit)[i]| <= 2 * limit - 1
  {
    var blocks := Blocks(parentOf, Children(parentOf, ROOT));
    BatchesKeepOrder(blocks, limit);
    RootBlocksAreAllDescendants(parentOf);
    BatchesAreFull(blocks, limit);
    BatchesBounded(blocks, limit);
  }

  // ---------------------------------------------------------------------------
  // The task summary's row range

  /** The value a record number variable holds before any record was seen. */
  const ROW_UNKNOWN: int := -1

  /** The least and greatest record numbers as `getRowRange`'s loop keeps them, ROW_UNKNOWN meaning none. */
  function RowBounds(records: seq<int>): (int, int)
    decreases |records|
  {
    if records == [] then (ROW_UNKNOWN, ROW_UNKNOWN)
    else
      var bounds := RowBounds(records[..|records| - 1]);
      var r := records[|records| - 1];
      (if bounds.0 == ROW_UNKNOWN || r < bounds.0 then r else bounds.0,
       if bounds.1 == ROW_UNKNOWN || r > bounds.1 then r else bounds.1)
  }

  function RowRange(records: seq<int>): string {
    "Rows " + IntToString(RowBounds(records).0) + " - " + IntToString(RowBounds(records).1)
  }

  /**
   * For record numbers that are never negative, the bounds are the least and
   * the greatest of them, and both are -1 for an empty batch.
   */
  lemma {:induction false} RowBoundsAreMinMax(records: seq<int>)
    requires forall k :: 0 <= k < |records| ==> records[k] >= 0
    ensures records == [] ==> RowBounds(records) == (-1, -1)
    ensures records != [] ==> RowBounds(records).0 in records && RowBounds(records).1 in records
    ensures forall k :: 0 <= k < |records| ==> RowBounds(records).0 <= records[k] <= RowBounds(records).1
    decreases |records|
  {
    if records != [] {
      var init := records[..|records| - 1];
      assert forall k :: 0 <= k < |init| ==> init[k] == records[k];
      RowBoundsAreMinMax(init);
    }
  }

  function RecordNumbers(batch: seq<Concept>): (r: seq<int>)
    ensures |r| == |batch|
    ensures forall k :: 0 <= k < |r| ==> r[k] == batch[k].row.recordNumber
  {
    seq(|batch|, k requires 0 <= k < |batch| => batch[k].row.recordNumber)
  }

  /** `getRowRange`: "Rows min - max" over the batch's record numbers. */
  method GetRowRange(batch: seq<Concept>) returns (r: string)
    ensures r == RowRange(RecordNumbers(batch))
  {
    var minRow := ROW_UNKNOWN;
    var maxRow := ROW_UNKNOWN;
    var records := RecordNumbers(batch);
    for i := 0 to |batch|
      invariant (minRow, maxRow) == RowBounds(records[..i])
    {
      assert records[..i + 1][..i] == records[..i];
      var thisRowNum := batch[i].row.recordNumber;
      if minRow == ROW_UNKNOWN || thisRowNum < minRow {
        minRow := thisRowNum;
      }
      if maxRow == ROW_UNKNOWN || thisRowNum > maxRow {
        maxRow := thisRowNum;
      }
    }
    assert records[..|batch|] == records;
    r := "Rows " + IntToString(minRow) + " - " + IntToString(maxRow);
  }

  // ---------------------------------------------------------------------------
  // The JSON list of loaded concept ids

  /** One id in its double quotes. */
  function Quote(id: string): string {
    "\"" + id + "\""
  }

  /** The ids, each in double quotes, separated by commas. */
  function QuotedIds(ids: seq<string>): string
    decreases |ids|
  {
    if ids == [] then ""
    else
      var init := ids[..|ids| - 1];
      QuotedIds(init) + (if init == [] then "" else ",") + Quote(ids[|ids| - 1])
  }

  /** Each id adds at least its two quotes, so the list is longer than "[]" exactly when it has an id. */
  lemma {:induction false} QuotedIdsLength(ids: seq<string>)
    ensures |QuotedIds(ids)| >= 2 * |ids|
    decreases |ids|
  {
    if ids != [] {
      QuotedIdsLength(ids[..|ids| - 1]);
    }
  }

  /** The comma-separated fields of a string, read from the left: always at least one. */
  function Fields(s: string): (r: seq<string>)
    ensures |r| >= 1
    decreases |s|
  {
    if s == [] then [""]
    else
      var f := Fields(s[..|s| - 1]);
      if s[|s| - 1] == ',' then f + [""]
      else f[..|f| - 1] + [f[|f| - 1] + [s[|s| - 1]]]
  }

  /** A string without commas is one field. */
  lemma {:induction false} FieldsWithoutComma(b: string)
    requires ',' !in b
    ensures Fields(b) == [b]
    decreases |b|
  {
    if b != [] {
      var init := b[..|b| - 1];
      FieldsWithoutComma(init);
      assert init + [b[|b| - 1]] == b;
    }
  }

  /** A comma followed by a field without commas adds exactly that field. */
  lemma {:induction false} FieldsAfterComma(a: string, b: string)
    requires ',' !in b
    ensures Fields(a + [','] + b) == Fields(a) + [b]
    decreases |b|
  {
    if b == [] {
      assert (a + [','] + b)[..|a|] == a;
    } else {
      var init := b[..|b| - 1];
      FieldsAfterComma(a, init);
      assert (a + [','] + b)[..|a + [','] + b| - 1] == a + [','] + init;
      assert init + [b[|b| - 1]] == b;
    }
  }

  /** Quoting adds no comma. */
  lemma QuoteWithoutComma(id: string)
    requires ',' !in id
    ensures ',' !in Quote(id)
  {
    var q := Quote(id);
    assert forall j :: 1 <= j < |q| - 1 ==> q[j] == id[j - 1];
  }

  /** The list of several ids is the list of all but the last, a comma and the last id quoted. */
  lemma QuotedIdsSnoc(ids: seq<string>)
    requires |ids| >= 2
    ensures QuotedIds(ids) == QuotedIds(ids[..|ids| - 1]) + [','] + Quote(ids[|ids| - 1])
  {
    assert ids[..|ids| - 1] != [];
  }

  /** Quoted fields for all but the last id, then the last one quoted: quoted fields for all the ids. */
  lemma QuotedFieldsSnoc(fields: seq<string>, ids: seq<string>)
    requires ids != [] && |fields| == |ids| - 1
    requires forall k :: 0 <= k < |fields| ==> fields[k] == Quote(ids[k])
    ensures |fields + [Quote(ids[|ids| - 1])]| == |ids|
    ensures forall k :: 0 <= k < |ids| ==> (fields + [Quote(ids[|ids| - 1])])[k] == Quote(ids[k])
  {
  }

  /**
   * Reading the list back: for ids without commas, splitting the list at its
   * commas gives each id in its quotes, in order.
   */
  lemma {:induction false} QuotedIdsReadBack(ids: seq<string>)
    requires forall k :: 0 <= k < |ids| ==> ',' !in ids[k]
    ensures ids != [] ==> |Fields(QuotedIds(ids))| == |ids|
    ensures ids != [] ==> forall k :: 0 <= k < |ids| ==> Fields(QuotedIds(ids))[k] == Quote(ids[k])
    decreases |ids|
  {
    if ids != [] {
      var init := ids[..|ids| - 1];
      var last := Quote(ids[|ids| - 1]);
      QuoteWithoutComma(ids[|ids| - 1]);
      if init == [] {
        assert QuotedIds(ids) == last;
        FieldsWithoutComma(last);
      } else {
        QuotedIdsReadBack(init);
        QuotedIdsSnoc(ids);
        FieldsAfterComma(QuotedIds(init), last);
        QuotedFieldsSnoc(Fields(QuotedIds(init)), ids);
      }
    }
  }

  /** `conceptList`: the JSON array of the ids. */
  method ConceptList(ids: seq<string>) returns (json: string)
    ensures json == "[" + QuotedIds(ids) + "]"
    ensures |json| > 2 <==> |ids| > 0
  {
    json := "[";
    var isFirst := true;
    for i := 0 to |ids|
      invariant json == "[" + QuotedIds(ids[..i])
      invariant isFirst <==> i == 0
    {
      assert ids[..i + 1][..i] == ids[..i];
      json := json + (if isFirst then "" else ",");
      json := json + "\"" + ids[i] + "\"";
      isFirst := false;
    }
    assert ids[..|ids|] == ids;
    json := json + "]";
    QuotedIdsLength(ids);
  }

  // ---------------------------------------------------------------------------
  // Synonyms

  /** `containsDescription`: whether some description already has this term. */
  method ContainsDescription(descriptions: seq<BrowserDescription>, term: string) returns (found: bool)
    ensures found <==> term in Terms(descriptions)
  {
    for i := 0 to |descriptions|
      invariant term !in Terms(descriptions[..i])
    {
      assert Terms(descriptions[..i + 1]) == Terms(descriptions[..i]) + [descriptions[i].term];
      if descriptions[i].term == term {
        return true;
      }
    }
    assert descriptions[..|descriptions|] == descriptions;
    return false;
  }

  /** The acceptable, case-insensitive English synonym `addSynonyms` creates for a term. */
  function SynonymDescription(term: string): BrowserDescription {
    BrowserDescription(Some("desc_" + DescriptionTypeName(Synonym)), term, true, Synonym, EN_LANGUAGE_CODE,
      ACCEPTABLE_ACCEPTABILITY, CaseInsensitive)
  }

  /** The descriptions after each synonym whose term is not yet present has been appended, in order. */
  function WithSynonyms(descriptions: seq<BrowserDescription>, synonyms: seq<string>): seq<BrowserDescription>
    decreases |synonyms|
  {
    if synonyms == [] then descriptions
    else
      var before := WithSynonyms(descriptions, synonyms[..|synonyms| - 1]);
      var syn := synonyms[|synonyms| - 1];
      if syn in Terms(before) then before else before + [SynonymDescription(syn)]
  }

  /** No two descriptions share a term. */
  predicate DistinctTerms(descriptions: seq<BrowserDescription>) {
    forall i, j :: 0 <= i < j < |descriptions| ==> descriptions[i].term != descriptions[j].term
  }

  /**
   * Existing descriptions are kept as they were, and each added description is
   * an acceptable synonym for one of the synonyms whose term was not already there.
   */
  lemma {:induction false} WithSynonymsExtends(descriptions: seq<BrowserDescription>, synonyms: seq<string>)
    ensures descriptions <= WithSynonyms(descriptions, synonyms)
    ensures forall k :: |descriptions| <= k < |WithSynonyms(descriptions, synonyms)| ==>
      WithSynonyms(descriptions, synonyms)[k] == SynonymDescription(WithSynonyms(descriptions, synonyms)[k].term) &&
      WithSynonyms(descriptions, synonyms)[k].term in synonyms &&
      WithSynonyms(descriptions, synonyms)[k].term !in Terms(descriptions)
    decreases |synonyms|
  {
    if synonyms != [] {
      var init := synonyms[..|synonyms| - 1];
      var syn := synonyms[|synonyms| - 1];
      var before := WithSynonyms(descriptions, init);
      WithSynonymsExtends(descriptions, init);
      assert forall k :: 0 <= k < |init| ==> init[k] == synonyms[k];
      if syn !in Terms(before) {
        assert forall k :: 0 <= k < |descriptions| ==> descriptions[k] == before[k];
        assert syn !in Terms(descriptions) by {
          forall k | 0 <= k < |descriptions|
            ensures descriptions[k].term != syn
          {
            assert Terms(before)[k] == descriptions[k].term;
          }
        }
      }
    }
  }

  /** Every synonym ends up present. */
  lemma {:induction false} WithSynonymsAddsEvery(descriptions: seq<BrowserDescription>, synonyms: seq<string>)
    ensures forall k :: 0 <= k < |synonyms| ==> synonyms[k] in Terms(WithSynonyms(descriptions, synonyms))
    decreases |synonyms|
  {
    if synonyms != [] {
      var init := synonyms[..|synonyms| - 1];
      var syn := synonyms[|synonyms| - 1];
      var before := WithSynonyms(descriptions, init);
      WithSynonymsAddsEvery(descriptions, init);
      assert forall k :: 0 <= k < |init| ==> init[k] == synonyms[k];
      if syn !in Terms(before) {
        var after := before + [SynonymDescription(syn)];
        assert Terms(after) == Terms(before) + [syn];
      }
    }
  }

  /** No term is ever duplicated. */
  lemma {:induction false} WithSynonymsKeepsTermsDistinct(descriptions: seq<BrowserDescription>, synonyms: seq<string>)
    requires DistinctTerms(descriptions)
    ensures DistinctTerms(WithSynonyms(descriptions, synonyms))
    decreases |synonyms|
  {
    if synonyms != [] {
      var init := synonyms[..|synonyms| - 1];
      var syn := synonyms[|synonyms| - 1];
      var before := WithSynonyms(descriptions, init);
      WithSynonymsKeepsTermsDistinct(descriptions, init);
      if syn !in Terms(before) {
        var after := before + [SynonymDescription(syn)];
        forall i, j | 0 <= i < j < |after|
          ensures after[i].term != after[j].term
        {
          if j == |before| {
            assert Terms(before)[i] == before[i].term;
          }
        }
      }
    }
  }

  /**
   * Existing descriptions are kept as they were; every synonym ends up present;
   * each added description is an acceptable synonym for one of the synonyms
   * whose term was not already there; and no term is ever duplicated.
   */
  lemma WithSynonymsDeduplicates(descriptions: seq<BrowserDescription>, synonyms: seq<string>)
    ensures descriptions <= WithSynonyms(descriptions, synonyms)
    ensures forall k :: 0 <= k < |synonyms| ==> synonyms[k] in Terms(WithSynonyms(descriptions, synonyms))
    ensures forall k :: |descriptions| <= k < |WithSynonyms(descriptions, synonyms)| ==>
      WithSynonyms(descriptions, synonyms)[k] == SynonymDescription(WithSynonyms(descriptions, synonyms)[k].term) &&
      WithSynonyms(descriptions, synonyms)[k].term in synonyms &&
      WithSynonyms(descriptions, synonyms)[k].term !in Terms(descriptions)
    ensures DistinctTerms(descriptions) ==> DistinctTerms(WithSynonyms(descriptions, synonyms))
  {
    WithSynonymsExtends(descriptions, synonyms);
    WithSynonymsAddsEvery(descriptions, synonyms);
    if DistinctTerms(descriptions) {
      WithSynonymsKeepsTermsDistinct(descriptions, synonyms);
    }
  }

  /** `addSynonyms`: appends an acceptable synonym for each listed term not already present. */
  method AddSynonyms(descriptions: seq<BrowserDescription>, synonyms: seq<string>) returns (r: seq<BrowserDescription>)
    ensures r == WithSynonyms(descriptions, synonyms)
  {
    r := descriptions;
    for i := 0 to |synonyms|
      invariant r == WithSynonyms(descriptions, synonyms[..i])
    {
      assert synonyms[..i + 1][..i] == synonyms[..i];
      var present := ContainsDescription(r, synonyms[i]);
      if !present {
        r := r + [SynonymDescription(synonyms[i])];
      }
    }
    assert synonyms[..|synonyms|] == synonyms;
  }

  // ---------------------------------------------------------------------------
  // Temporary ids

  /** `removeTemporaryIds`: every description id and relationship id is cleared in place. */
  method RemoveTemporaryIds(c: BrowserConcept) returns (r: BrowserConcept)
    ensures r == WithoutTemporaryIds(c)
  {
    var descriptions := c.descriptions;
    for i := 0 to |descriptions|
      invariant |descriptions| == |c.descriptions|
      invariant forall k :: 0 <= k < i ==> descriptions[k] == c.descriptions[k].(descriptionId := None)
      invariant forall k :: i <= k < |descriptions| ==> descriptions[k] == c.descriptions[k]
    {
      descriptions := descriptions[i := descriptions[i].(descriptionId := None)];
    }
    var relationships := c.relationships;
    for i := 0 to |relationships|
      invariant |relationships| == |c.relationships|
      invariant forall k :: 0 <= k < i ==> relationships[k] == c.relationships[k].(relationshipId := None)
      invariant forall k :: i <= k < |relationships| ==> relationships[k] == c.relationships[k]
    {
      relationships := relationships[i := relationships[i].(relationshipId := None)];
    }
    r := c.(descriptions := descriptions, relationships := relationships);
  }

  // ---------------------------------------------------------------------------
  // Outcomes of a whole run

  /** Screening only ever records failures: from outcomes that are all failures, preparation keeps it so. */
  lemma {:induction false} PrepareAllOnlyFails(outcomes: map<int, RowOutcome>, rows: seq<Row>, screen: Row -> Screening)
    requires AllFailed(outcomes)
    ensures AllFailed(PrepareAll(outcomes, rows, screen).outcomes)
    decreases |rows|
  {
    if rows != [] {
      PrepareAllOnlyFails(outcomes, rows[..|rows| - 1], screen);
    }
  }

  /** An abort only adds failures. */
  lemma AbortedOnlyFails(outcomes: map<int, RowOutcome>, rows: seq<Row>)
    requires AllFailed(outcomes)
    ensures AllFailed(Aborted(outcomes, rows))
  {
    AbortedDecidesEveryRow(outcomes, rows);
  }

  /**
   * All or nothing: when the gate fails, every row ends with an outcome and
   * every outcome is a failure, so nothing of the file is loaded.
   */
  lemma GateFailureFailsEveryRow(rows: seq<Row>, screen: Row -> Screening, limit: int)
    ensures var p := PrepareAll(map[], rows, screen);
      var parentOf := InsertedParents([], [], p.accepted);
      var outcomes := Aborted(GateFailures(p.outcomes, p.accepted, parentOf, Children(parentOf, ROOT), limit), rows);
      (forall k :: 0 <= k < |rows| ==> rows[k].recordNumber in outcomes) && AllFailed(outcomes)
  {
    var p := PrepareAll(map[], rows, screen);
    var parentOf := InsertedParents([], [], p.accepted);
    var gated := GateFailures(p.outcomes, p.accepted, parentOf, Children(parentOf, ROOT), limit);
    PrepareAllOnlyFails(map[], rows, screen);
    GateOnlyFails(p.outcomes, p.accepted, parentOf, Children(parentOf, ROOT), limit);
    AbortedDecidesEveryRow(gated, rows);
    AbortedOnlyFails(gated, rows);
  }

  // ---------------------------------------------------------------------------
  // Recording the outcome of each concept of a batch

  /** The task branch a concept is created on. */
  function BranchPath(projectKey: string, taskKey: string): string {
    "MAIN/" + projectKey + "/" + taskKey
  }

  /** The success message: the task key, then the (always empty) warnings. */
  function LoadedMessage(taskKey: string): string {
    "Loaded onto " + taskKey + " "
  }

  /** The outcome recorded for one concept: loaded with the created id, or failed with the exception's message. */
  function OutcomeOf(result: Result<string>, taskKey: string): (r: RowOutcome)
    ensures r.Loaded? <==> result.Ok?
    ensures result.Ok? ==> r == Loaded(LoadedMessage(taskKey), result.value)
    ensures result.Err? ==> r == Failed(result.error)
  {
    match result
    case Ok(id) => Loaded(LoadedMessage(taskKey), id)
    case Err(m) => Failed(m)
  }

  /** The outcomes after `succeed` or `fail` was called for each row of a batch in turn. */
  function Recorded(outcomes: map<int, RowOutcome>, rows: seq<Row>, results: seq<Result<string>>, taskKey: string): map<int, RowOutcome>
    requires |rows| == |results|
    decreases |rows|
  {
    if rows == [] then outcomes
    else
      var n := |rows| - 1;
      Recorded(outcomes, rows[..n], results[..n], taskKey)[rows[n].recordNumber := OutcomeOf(results[n], taskKey)]
  }

  /**
   * After a batch every one of its rows has an outcome, and with distinct
   * record numbers each is exactly the outcome of its own concept; rows
   * outside the batch are untouched.
   */
  lemma {:induction false} RecordedDecidesEveryRow(outcomes: map<int, RowOutcome>, rows: seq<Row>, results: seq<Result<string>>, taskKey: string)
    requires |rows| == |results|
    ensures forall k :: 0 <= k < |rows| ==> rows[k].recordNumber in Recorded(outcomes, rows, results, taskKey)
    ensures DistinctRecords(rows) ==> forall k :: 0 <= k < |rows| ==>
      Recorded(outcomes, rows, results, taskKey)[rows[k].recordNumber] == OutcomeOf(results[k], taskKey)
    ensures forall n :: (forall k :: 0 <= k < |rows| ==> rows[k].recordNumber != n) ==>
      (n in Recorded(outcomes, rows, results, taskKey) <==> n in outcomes) &&
      (n in outcomes ==> Recorded(outcomes, rows, results, taskKey)[n] == outcomes[n])
    decreases |rows|
  {
    if rows != [] {
      var n := |rows| - 1;
      var init := rows[..n];
      assert forall k :: 0 <= k < n ==> init[k] == rows[k];
      assert forall k :: 0 <= k < n ==> results[..n][k] == results[k];
      RecordedDecidesEveryRow(outcomes, init, results[..n], taskKey);
    }
  }

  /** The run's progress flags for a batch: whether each concept loaded. */
  function LoadedFlags(results: seq<Result<string>>): (r: seq<bool>)
    ensures |r| == |results|
    ensures forall k :: 0 <= k < |r| ==> (r[k] <==> results[k].Ok?)
  {
    seq(|results|, k requires 0 <= k < |results| => results[k].Ok?)
  }

  /** `conceptsLoaded`: the id each loaded concept was created with, keyed by its original SCTID. */
  function LoadedIds(sctids: seq<string>, results: seq<Result<string>>): (r: map<string, string>)
    requires |sctids| == |results|
    decreases |sctids|
  {
    if sctids == [] then map[]
    else
      var n := |sctids| - 1;
      var before := LoadedIds(sctids[..n], results[..n]);
      if results[n].Ok? then before[sctids[n] := results[n].value] else before
  }

  /** An SCTID is a key exactly when some concept with that SCTID loaded. */
  lemma {:induction false} LoadedIdsKeys(sctids: seq<string>, results: seq<Result<string>>)
    requires |sctids| == |results|
    ensures forall s :: s in LoadedIds(sctids, results) <==> exists k :: 0 <= k < |sctids| && sctids[k] == s && results[k].Ok?
    decreases |sctids|
  {
    if sctids != [] {
      var n := |sctids| - 1;
      LoadedIdsKeys(sctids[..n], results[..n]);
      assert forall k :: 0 <= k < n ==> sctids[..n][k] == sctids[k] && results[..n][k] == results[k];
    }
  }

  // ---------------------------------------------------------------------------
  // Loading the batches

  function BatchConcepts(concepts: seq<Concept>, batch: seq<nat>): (r: seq<Concept>)
    requires forall k :: 0 <= k < |batch| ==> batch[k] < |concepts|
    ensures |r| == |batch| && forall k :: 0 <= k < |batch| ==> r[k] == concepts[batch[k]]
  {
    seq(|batch|, k requires 0 <= k < |batch| => concepts[batch[k]])
  }

  function Rows(cs: seq<Concept>): (r: seq<Row>)
    ensures |r| == |cs| && forall k :: 0 <= k < |cs| ==> r[k] == cs[k].row
  {
    seq(|cs|, k requires 0 <= k < |cs| => cs[k].row)
  }

  function Sctids(cs: seq<Concept>): (r: seq<string>)
    ensures |r| == |cs| && forall k :: 0 <= k < |cs| ==> r[k] == cs[k].sctid
  {
    seq(|cs|, k requires 0 <= k < |cs| => cs[k].sctid)
  }

  lemma PrefixStep<T>(xs: seq<T>, i: nat)
    requires i < |xs|
    ensures xs[..i + 1] == xs[..i] + [xs[i]]
    ensures xs[..i + 1][..i] == xs[..i]
  {
  }

  /** The summary of a batch's task: the file name and the batch's row range. */
  function TaskSummary(request: ImportRequest, batch: seq<Concept>): string {
    request.originalFilename + ": " + RowRange(RecordNumbers(batch))
  }

  lemma {:induction false} FlattenHolds<T>(xss: seq<seq<T>>, i: nat, x: T)
    requires i < |xss| && x in xss[i]
    ensures x in Flatten(xss)
    decreases |xss|
  {
    if i < |xss| - 1 {
      FlattenHolds(xss[..|xss| - 1], i, x);
    }
  }

  /** The batches of the hierarchy hold, in order, every concept the target counts, and only concepts of the run. */
  lemma HierarchyBatches(parentOf: seq<int>, limit: int, batches: seq<seq<nat>>)
    requires WellFormed(parentOf)
    requires forall k :: 0 <= k < |Children(parentOf, ROOT)| ==> Children(parentOf, ROOT)[k] < |parentOf|
    requires batches == Batches(Blocks(parentOf, Children(parentOf, ROOT)), limit)
    ensures Flatten(batches) == Descendants(parentOf, ROOT)
    ensures |Flatten(batches)| == ChildrenCount(parentOf, ROOT)
    ensures forall b, k :: 0 <= b < |batches| && 0 <= k < |batches[b]| ==> batches[b][k] < |parentOf|
  {
    BatchesKeepOrder(Blocks(parentOf, Children(parentOf, ROOT)), limit);
    RootBlocksAreAllDescendants(parentOf);
    forall b, k | 0 <= b < |batches| && 0 <= k < |batches[b]|
      ensures batches[b][k] < |parentOf|
    {
      FlattenHolds(batches, b, batches[b][k]);
    }
  }

  /** Every concept whose index is listed has an outcome recorded for its row. */
  predicate OutcomesCover(concepts: seq<Concept>, indices: seq<nat>, outcomes: map<int, RowOutcome>) {
    forall j: nat :: j in indices ==> j < |concepts| && concepts[j].row.recordNumber in outcomes
  }

  /** After one more batch, each of its concepts has an outcome too, and no earlier outcome is lost. */
  lemma BatchRecorded(before: map<int, RowOutcome>, concepts: seq<Concept>, batches: seq<seq<nat>>, b: nat,
                      results: seq<Result<string>>, taskKey: string)
    requires b < |batches|
    requires forall k :: 0 <= k < |batches[b]| ==> batches[b][k] < |concepts|
    requires |results| == |batches[b]|
    requires OutcomesCover(concepts, Flatten(batches[..b]), before)
    ensures var after := Recorded(before, Rows(BatchConcepts(concepts, batches[b])), results, taskKey);
      before.Keys <= after.Keys && OutcomesCover(concepts, Flatten(batches[..b + 1]), after)
  {
    var cs := BatchConcepts(concepts, batches[b]);
    var after := Recorded(before, Rows(cs), results, taskKey);
    RecordedDecidesEveryRow(before, Rows(cs), results, taskKey);
    forall n | n in before
      ensures n in after
    {
      if exists k :: 0 <= k < |cs| && Rows(cs)[k].recordNumber == n {
        var k :| 0 <= k < |cs| && Rows(cs)[k].recordNumber == n;
        assert Rows(cs)[k].recordNumber in after;
      }
    }
    PrefixStep(batches, b);
    FlattenSnoc(batches[..b], batches[b]);
    forall j: nat | j in Flatten(batches[..b + 1])
      ensures j < |concepts| && concepts[j].row.recordNumber in after
    {
      if j !in Flatten(batches[..b]) {
        var k :| 0 <= k < |batches[b]| && batches[b][k] == j;
        assert Rows(cs)[k] == concepts[j].row;
      }
    }
  }

  /**
   * Loading batch b: the progress grows by the batch's size, outcomes
   * already recorded keep their record, and every concept of batches 0..b
   * has an outcome.
   */
  lemma BatchLoaded(imports: map<ImportId, ImportProgress.BatchImportStatus>, id: ImportId, before: map<int, RowOutcome>,
                    concepts: seq<Concept>, batches: seq<seq<nat>>, b: nat, results: seq<Result<string>>, taskKey: string)
    requires b < |batches|
    requires forall k :: 0 <= k < |batches[b]| ==> batches[b][k] < |concepts|
    requires |results| == |batches[b]|
    requires OutcomesCover(concepts, Flatten(batches[..b]), before)
    ensures ImportProgress.Processed(ImportProgress.IncrementedAll(imports, id, LoadedFlags(results)), id) ==
      ImportProgress.Processed(imports, id) + |batches[b]|
    ensures var after := Recorded(before, Rows(BatchConcepts(concepts, batches[b])), results, taskKey);
      before.Keys <= after.Keys && OutcomesCover(concepts, Flatten(batches[..b + 1]), after)
  {
    ImportProgress.ProcessedGrows(imports, id, LoadedFlags(results));
    BatchRecorded(before, concepts, batches, b, results, taskKey);
  }

  // ---------------------------------------------------------------------------
  // Loading every batch onto its own task

  /** Every index of every batch names a concept of the run. */
  predicate IndicesWithin(batches: seq<seq<nat>>, n: nat) {
    forall b, k :: 0 <= b < |batches| && 0 <= k < |batches[b]| ==> batches[b][k] < n
  }

  /**
   * What loading the batches leaves behind: the row outcomes, the status
   * board, and the exception that stopped the loading, if any.
   */
  datatype Loading = Loading(outcomes: map<int, RowOutcome>, imports: map<ImportId, ImportProgress.BatchImportStatus>, status: Result<()>)

  /** Each concept of a batch in turn, loaded onto task `key`. */
  function LoadAll(load: (string, Concept) -> Result<string>, key: string, cs: seq<Concept>): (r: seq<Result<string>>)
    ensures |r| == |cs| && forall k :: 0 <= k < |cs| ==> r[k] == load(key, cs[k])
  {
    seq(|cs|, k requires 0 <= k < |cs| => load(key, cs[k]))
  }

  /**
   * The loop of `loadConceptsOntoTasks` over the batches: for each batch in
   * turn a task is created (`taskOf`), then each of its concepts is loaded
   * onto that task (`load`), its row recorded and the run's progress bumped.
   * The first task that cannot be created ends the loading with its
   * exception; what the earlier batches recorded stays.
   */
  function LoadedOntoTasks(start: Loading, id: ImportId, concepts: seq<Concept>, batches: seq<seq<nat>>,
                           taskOf: seq<Concept> -> Result<string>, load: (string, Concept) -> Result<string>): Loading
    requires IndicesWithin(batches, |concepts|)
    decreases |batches|
  {
    if batches == [] then start
    else
      var n := |batches| - 1;
      var before := LoadedOntoTasks(start, id, concepts, batches[..n], taskOf, load);
      var cs := BatchConcepts(concepts, batches[n]);
      if before.status.Err? then before
      else
        match taskOf(cs)
        case Err(e) => before.(status := Err(e))
        case Ok(key) =>
          var results := LoadAll(load, key, cs);
          Loading(Recorded(before.outcomes, Rows(cs), results, key),
                  ImportProgress.IncrementedAll(before.imports, id, LoadedFlags(results)), Ok(()))
  }

  /** The batches so far index the run's concepts too. */
  lemma IndicesWithinPrefix(batches: seq<seq<nat>>, n: nat, b: nat)
    requires IndicesWithin(batches, n) && b <= |batches|
    ensures IndicesWithin(batches[..b], n)
  {
    assert forall c :: 0 <= c < b ==> batches[..b][c] == batches[c];
  }

  /**
   * One more batch, after a loading that has not failed: either its task
   * cannot be created and the loading fails with that exception, or its
   * concepts are loaded onto the task and recorded.
   */
  lemma LoadedOntoTasksSnoc(start: Loading, id: ImportId, concepts: seq<Concept>, batches: seq<seq<nat>>,
                            taskOf: seq<Concept> -> Result<string>, load: (string, Concept) -> Result<string>, b: nat)
    requires IndicesWithin(batches, |concepts|) && b < |batches|
    ensures IndicesWithin(batches[..b], |concepts|) && IndicesWithin(batches[..b + 1], |concepts|)
    ensures var before := LoadedOntoTasks(start, id, concepts, batches[..b], taskOf, load);
      var cs := BatchConcepts(concepts, batches[b]);
      before.status.Ok? ==>
        LoadedOntoTasks(start, id, concepts, batches[..b + 1], taskOf, load) ==
          match taskOf(cs)
          case Err(e) => before.(status := Err(e))
          case Ok(key) =>
            Loading(Recorded(before.outcomes, Rows(cs), LoadAll(load, key, cs), key),
                    ImportProgress.IncrementedAll(before.imports, id, LoadedFlags(LoadAll(load, key, cs))), Ok(()))
  {
    IndicesWithinPrefix(batches, |concepts|, b);
    IndicesWithinPrefix(batches, |concepts|, b + 1);
    assert batches[..b + 1][..b] == batches[..b];
  }

  /** Once a task could not be created, the later batches change nothing. */
  lemma {:induction false} LoadedOntoTasksStopsAtFailure(start: Loading, id: ImportId, concepts: seq<Concept>, batches: seq<seq<nat>>,
                                                         taskOf: seq<Concept> -> Result<string>, load: (string, Concept) -> Result<string>, n: nat)
    requires IndicesWithin(batches, |concepts|) && n <= |batches|
    requires LoadedOntoTasks(start, id, concepts, batches[..n], taskOf, load).status.Err?
    ensures LoadedOntoTasks(start, id, concepts, batches, taskOf, load) == LoadedOntoTasks(start, id, concepts, batches[..n], taskOf, load)
    decreases |batches|
  {
    if n < |batches| {
      var init := batches[..|batches| - 1];
      assert init[..n] == batches[..n];
      LoadedOntoTasksStopsAtFailure(start, id, concepts, init, taskOf, load, n);
    } else {
      assert batches[..n] == batches;
    }
  }

  /**
   * Outcomes already recorded keep their record. When every task could be
   * created (so the loading started clean), each concept of every batch has an outcome and the run's
   * `processed` counter has grown by the number of concepts in the batches.
   */
  lemma {:induction false} LoadedOntoTasksCovers(start: Loading, id: ImportId, concepts: seq<Concept>, batches: seq<seq<nat>>,
                                                 taskOf: seq<Concept> -> Result<string>, load: (string, Concept) -> Result<string>)
    requires IndicesWithin(batches, |concepts|)
    ensures var after := LoadedOntoTasks(start, id, concepts, batches, taskOf, load);
      start.outcomes.Keys <= after.outcomes.Keys &&
      (after.status.Ok? ==>
        start.status.Ok? &&
        ImportProgress.Processed(after.imports, id) == ImportProgress.Processed(start.imports, id) + |Flatten(batches)| &&
        OutcomesCover(concepts, Flatten(batches), after.outcomes))
    decreases |batches|
  {
    if batches != [] {
      var n := |batches| - 1;
      IndicesWithinPrefix(batches, |concepts|, n);
      LoadedOntoTasksCovers(start, id, concepts, batches[..n], taskOf, load);
      var before := LoadedOntoTasks(start, id, concepts, batches[..n], taskOf, load);
      var cs := BatchConcepts(concepts, batches[n]);
      if before.status.Ok? && taskOf(cs).Ok? {
        var key := taskOf(cs).value;
        var results := LoadAll(load, key, cs);
        assert batches[..n + 1] == batches;
        BatchLoaded(before.imports, id, before.outcomes, concepts, batches, n, results, key);
        PrefixStep(batches, n);
        FlattenSnoc(batches[..n], batches[n]);
      }
    }
  }

  /** The task created for batch b, or the exception met. */
  function TaskOfBatch(taskOf: seq<Concept> -> Result<string>, concepts: seq<Concept>, batches: seq<seq<nat>>, b: nat): Result<string>
    requires IndicesWithin(batches, |concepts|) && b < |batches|
  {
    taskOf(BatchConcepts(concepts, batches[b]))
  }

  /** The exception of the first batch whose task cannot be created, if any. */
  function FirstTaskFailure(taskOf: seq<Concept> -> Result<string>, concepts: seq<Concept>, batches: seq<seq<nat>>): Result<()>
    requires IndicesWithin(batches, |concepts|)
    decreases |batches|
  {
    if batches == [] then Ok(())
    else
      var n := |batches| - 1;
      var before := FirstTaskFailure(taskOf, concepts, batches[..n]);
      if before.Err? then before
      else
        match TaskOfBatch(taskOf, concepts, batches, n)
        case Err(e) => Err(e)
        case Ok(_) => Ok(())
  }

  /** Starting from a clean status, the loading ends with the first task failure, or without one. */
  lemma {:induction false} LoadedOntoTasksStatus(start: Loading, id: ImportId, concepts: seq<Concept>, batches: seq<seq<nat>>,
                                                 taskOf: seq<Concept> -> Result<string>, load: (string, Concept) -> Result<string>)
    requires IndicesWithin(batches, |concepts|) && start.status == Ok(())
    ensures LoadedOntoTasks(start, id, concepts, batches, taskOf, load).status == FirstTaskFailure(taskOf, concepts, batches)
    decreases |batches|
  {
    if batches != [] {
      var n := |batches| - 1;
      LoadedOntoTasksStatus(start, id, concepts, batches[..n], taskOf, load);
      assert TaskOfBatch(taskOf, concepts, batches, n) == taskOf(BatchConcepts(concepts, batches[n]));
    }
  }

  /**
   * There is no task failure exactly when a task can be created for every
   * batch; otherwise the failure is the exception of the first batch whose
   * task cannot be created.
   */
  lemma {:induction false} FirstTaskFailureIsFirst(taskOf: seq<Concept> -> Result<string>, concepts: seq<Concept>, batches: seq<seq<nat>>)
    requires IndicesWithin(batches, |concepts|)
    ensures FirstTaskFailure(taskOf, concepts, batches).Ok? <==>
      forall b :: 0 <= b < |batches| ==> TaskOfBatch(taskOf, concepts, batches, b).Ok?
    ensures FirstTaskFailure(taskOf, concepts, batches).Err? ==>
      exists b :: 0 <= b < |batches| && TaskOfBatch(taskOf, concepts, batches, b).Err? &&
        FirstTaskFailure(taskOf, concepts, batches).error == TaskOfBatch(taskOf, concepts, batches, b).error &&
        forall c :: 0 <= c < b ==> TaskOfBatch(taskOf, concepts, batches, c).Ok?
    decreases |batches|
  {
    if batches != [] {
      var n := |batches| - 1;
      var init := batches[..n];
      FirstTaskFailureIsFirst(taskOf, concepts, init);
      assert forall b :: 0 <= b < n ==> TaskOfBatch(taskOf, concepts, init, b) == TaskOfBatch(taskOf, concepts, batches, b);
      var before := FirstTaskFailure(taskOf, concepts, init);
      if before.Err? {
        // the failing batch of the prefix is still the first
        var b :| 0 <= b < n && TaskOfBatch(taskOf, concepts, init, b).Err? &&
          before.error == TaskOfBatch(taskOf, concepts, init, b).error &&
          forall c :: 0 <= c < b ==> TaskOfBatch(taskOf, concepts, init, c).Ok?;
        assert TaskOfBatch(taskOf, concepts, batches, b).Err?;
      }
    }
  }

  /** Loading touches no other import's status. */
  lemma {:induction false} LoadedOntoTasksTouchesOnlyItsRun(start: Loading, id: ImportId, concepts: seq<Concept>, batches: seq<seq<nat>>,
                                                            taskOf: seq<Concept> -> Result<string>, load: (string, Concept) -> Result<string>,
                                                            other: ImportId)
    requires IndicesWithin(batches, |concepts|) && other != id
    ensures var after := LoadedOntoTasks(start, id, concepts, batches, taskOf, load).imports;
      (other in after <==> other in start.imports) && (other in start.imports ==> after[other] == start.imports[other])
    decreases |batches|
  {
    if batches != [] {
      var n := |batches| - 1;
      var before := LoadedOntoTasks(start, id, concepts, batches[..n], taskOf, load);
      LoadedOntoTasksTouchesOnlyItsRun(start, id, concepts, batches[..n], taskOf, load, other);
      var cs := BatchConcepts(concepts, batches[n]);
      if before.status.Ok? && taskOf(cs).Ok? {
        ImportProgress.IncrementedAllBumps(before.imports, id, LoadedFlags(LoadAll(load, taskOf(cs).value, cs)));
      }
    }
  }

  /** A key updated twice holds the second value. */
  lemma Overwritten<K, V>(m: map<K, V>, k: K, first: V, second: V)
    ensures m[k := first][k := second] == m[k := second]
  {
  }
}
