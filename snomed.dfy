/**
 * The concept-creation payload that both versions of the batch import service
 * build and submit: a concept with its descriptions and relationships, in the
 * shape of the terminology server's browser API, plus the SNOMED CT constants
 * the service uses.
 */
module Snomed {
  import opened Wrappers
  import opened JavaText

  /** The "is a" attribute type. */
  const SCTID_ISA: string := "116680003"
  /** Language reference sets: GB English and US English. */
  const SCTID_EN_GB: string := "900000000000508004"
  const SCTID_EN_US: string := "900000000000509007"
  const EN_LANGUAGE_CODE: string := "en"
  const STATED_RELATIONSHIP: string := "STATED_RELATIONSHIP"
  const STATED: string := "STATED"
  const EXISTENTIAL: string := "EXISTENTIAL"

  datatype DefinitionStatus = Primitive | FullyDefined

  datatype CaseSignificance =
    | EntireTermCaseSensitive
    | CaseInsensitive
    | InitialCharacterCaseInsensitive

  datatype Acceptability = Preferred | Acceptable

  datatype DescriptionType = Fsn | Synonym

  /** `DescriptionType.toString()`. */
  function DescriptionTypeName(t: DescriptionType): string {
    match t
    case Fsn => "FSN"
    case Synonym => "SYNONYM"
  }

  /** Both dialects preferred, and both acceptable: the two fixed acceptability maps. */
  const PREFERRED_ACCEPTABILITY: map<string, Acceptability> := map[SCTID_EN_GB := Preferred, SCTID_EN_US := Preferred]
  const ACCEPTABLE_ACCEPTABILITY: map<string, Acceptability> := map[SCTID_EN_GB := Acceptable, SCTID_EN_US := Acceptable]

  /**
   * A relationship in the payload. `relationshipId` holds the temporary id
   * used to report which component failed; `groupId` and `modifier` are None
   * where a version never sets them, and `targetId` is None for a null parent.
   */
  datatype BrowserRelationship = BrowserRelationship(
    relationshipId: Option<string>,
    sourceId: string,
    typeId: string,
    targetId: Option<string>,
    groupId: Option<int>,
    characteristicType: string,
    modifier: Option<string>,
    active: bool)

  /** A description in the payload; `descriptionId` holds the temporary id. */
  datatype BrowserDescription = BrowserDescription(
    descriptionId: Option<string>,
    term: string,
    active: bool,
    descriptionType: DescriptionType,
    lang: string,
    acceptabilityMap: map<string, Acceptability>,
    caseSignificance: CaseSignificance)

  /** The concept payload; `fsn` is None when the version never sets it. */
  datatype BrowserConcept = BrowserConcept(
    conceptId: Option<string>,
    active: bool,
    definitionStatus: DefinitionStatus,
    fsn: Option<string>,
    descriptions: seq<BrowserDescription>,
    relationships: seq<BrowserRelationship>)

  /** The terms of a list of descriptions, in order. */
  function Terms(descriptions: seq<BrowserDescription>): (r: seq<string>)
    ensures |r| == |descriptions|
    ensures forall i :: 0 <= i < |r| ==> r[i] == descriptions[i].term
  {
    seq(|descriptions|, i requires 0 <= i < |descriptions| => descriptions[i].term)
  }

  /** The words that mark lateralized content. */
  const LATERALITY: seq<string> := ["left", "right"]

  /** The laterality test: the lower-cased FSN contains "left" or "right". */
  predicate IsLateralized(fsn: string) {
    exists k | 0 <= k < |LATERALITY| :: Contains(ToLower(fsn), LATERALITY[k])
  }

  /** The laterality test ignores case: an FSN and its lower-cased form are judged alike. */
  lemma LateralityIgnoresCase(fsn: string)
    ensures IsLateralized(fsn) <==> IsLateralized(ToLower(fsn))
    ensures IsLateralized(fsn) <==> Contains(ToLower(fsn), "left") || Contains(ToLower(fsn), "right")
  {
    ToLowerIdempotent(fsn);
    assert LATERALITY[0] == "left" && LATERALITY[1] == "right";
  }

  lemma LateralizedExample()
    ensures IsLateralized("LEFT eye")
    ensures !IsLateralized("Eye")
  {
    var s := ToLower("LEFT eye");
    assert s[0..4] == "left";
    assert OccursAt(s, LATERALITY[0], 0);
  }

  /**
   * The payload with every temporary description and relationship id cleared:
   * the state `removeTemporaryIds` leaves it in.
   */
  function WithoutTemporaryIds(c: BrowserConcept): (r: BrowserConcept)
    ensures |r.descriptions| == |c.descriptions| && |r.relationships| == |c.relationships|
    ensures forall i :: 0 <= i < |r.descriptions| ==> r.descriptions[i] == c.descriptions[i].(descriptionId := None)
    ensures forall i :: 0 <= i < |r.relationships| ==> r.relationships[i] == c.relationships[i].(relationshipId := None)
    ensures r.conceptId == c.conceptId && r.active == c.active && r.definitionStatus == c.definitionStatus && r.fsn == c.fsn
  {
    c.(descriptions := seq(|c.descriptions|, i requires 0 <= i < |c.descriptions| => c.descriptions[i].(descriptionId := None)),
       relationships := seq(|c.relationships|, i requires 0 <= i < |c.relationships| => c.relationships[i].(relationshipId := None)))
  }

  /** Clearing is idempotent, and after it no temporary id is left. */
  lemma WithoutTemporaryIdsIdempotent(c: BrowserConcept)
    ensures WithoutTemporaryIds(WithoutTemporaryIds(c)) == WithoutTemporaryIds(c)
    ensures forall d :: d in WithoutTemporaryIds(c).descriptions ==> d.descriptionId == None
    ensures forall r :: r in WithoutTemporaryIds(c).relationships ==> r.relationshipId == None
  {
  }
}
