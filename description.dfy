/**
 * The scripting client's description: a mutable record of a SNOMED CT
 * description whose identity, for hashing and equality, is its term.
 * A null field is None; the acceptability map is an object of its own, so
 * that a copy can be told apart from a shared reference.
 */
module TermserverDescription {
  import opened Wrappers
  import opened Snomed

  // ---------------------------------------------------------------------------
  // Java's String.hashCode

  const INT_MODULUS: int := 0x1_0000_0000
  const INT_MIN: int := -0x8000_0000
  const INT_MAX: int := 0x7FFF_FFFF

  /** A Java `int` result: the value wrapped into the signed 32-bit range. */
  function ToInt32(x: int): (r: int)
    ensures INT_MIN <= r <= INT_MAX
  {
    (x - INT_MIN) % INT_MODULUS + INT_MIN
  }

  /** The UTF-16 code units of a character: itself below 0x10000, else its surrogate pair. */
  function Utf16Units(c: char): (r: seq<int>)
    ensures 1 <= |r| <= 2
    ensures forall k :: 0 <= k < |r| ==> 0 <= r[k] < 0x1_0000
  {
    var cp := c as int;
    if cp < 0x1_0000 then [cp]
    else [0xD800 + (cp - 0x1_0000) / 0x400, 0xDC00 + (cp - 0x1_0000) % 0x400]
  }

  /** A string as Java stores it: its UTF-16 code units. */
  function Utf16(s: string): (r: seq<int>)
    ensures |r| >= |s|
    decreases |s|
  {
    if s == [] then [] else Utf16(s[..|s| - 1]) + Utf16Units(s[|s| - 1])
  }

  /** `String.hashCode` over code units: h = 31 * h + unit, in 32-bit arithmetic. */
  function HashUnits(units: seq<int>): (r: int)
    ensures INT_MIN <= r <= INT_MAX
    decreases |units|
  {
    if units == [] then 0 else ToInt32(31 * HashUnits(units[..|units| - 1]) + units[|units| - 1])
  }

  function StringHash(s: string): int {
    HashUnits(Utf16(s))
  }

  /** The exact polynomial the hash approximates: units[0] * 31^(n-1) + ... + units[n-1]. */
  function Polynomial(units: seq<int>): int
    decreases |units|
  {
    if units == [] then 0 else 31 * Polynomial(units[..|units| - 1]) + units[|units| - 1]
  }

  /** Values that differ by a multiple of 2^32 wrap to the same `int`. */
  lemma ToInt32Congruent(a: int, b: int, k: int)
    requires a == b + k * INT_MODULUS
    ensures ToInt32(a) == ToInt32(b)
  {
    assert (a - INT_MIN) == (b - INT_MIN) + k * INT_MODULUS;
  }

  /** Wrapping never moves a value by anything but a multiple of 2^32. */
  lemma ToInt32Offset(a: int) returns (k: int)
    ensures ToInt32(a) == a + k * INT_MODULUS
  {
    k := -((a - INT_MIN) / INT_MODULUS);
  }

  /**
   * Wrapping after every step gives the wrapped exact polynomial: the hash is
   * the signed 32-bit residue of sum of units[i] * 31^(n-1-i).
   */
  lemma {:induction false} HashIsWrappedPolynomial(units: seq<int>)
    ensures HashUnits(units) == ToInt32(Polynomial(units))
    decreases |units|
  {
    if units == [] {
      assert ToInt32(0) == 0;
    } else {
      var init := units[..|units| - 1];
      var last := units[|units| - 1];
      HashIsWrappedPolynomial(init);
      var h, p := HashUnits(init), Polynomial(init);
      var k := ToInt32Offset(p);
      assert h == p + k * INT_MODULUS;
      assert 31 * h + last == 31 * p + last + (31 * k) * INT_MODULUS;
      ToInt32Congruent(31 * h + last, 31 * p + last, 31 * k);
      assert HashUnits(units) == ToInt32(31 * h + last);
      assert Polynomial(units) == 31 * p + last;
    }
  }

  /** The hash of a two-character term whose characters are single code units. */
  lemma TwoUnitHash(s: string)
    requires |s| == 2 && s[0] as int < 0x1_0000 && s[1] as int < 0x1_0000
    ensures StringHash(s) == ToInt32(31 * (s[0] as int) + s[1] as int)
  {
    assert s[..1][..0] == [];
    assert Utf16(s[..1]) == [s[0] as int];
    assert Utf16(s) == [s[0] as int, s[1] as int];
    assert [s[0] as int, s[1] as int][..1] == [s[0] as int];
    assert [s[0] as int][..0] == [];
    assert ToInt32(s[0] as int) == s[0] as int;
    assert HashUnits([s[0] as int]) == s[0] as int;
    assert HashUnits([s[0] as int, s[1] as int]) == ToInt32(31 * HashUnits([s[0] as int]) + s[1] as int);
  }

  /** Distinct terms can share a hash: "Aa" and "BB" both hash to 2112. */
  lemma TermHashCollision()
    ensures "Aa" != "BB" && StringHash("Aa") == StringHash("BB") == 2112
  {
    TwoUnitHash("Aa");
    TwoUnitHash("BB");
    assert ToInt32(2112) == 2112;
  }

  // ---------------------------------------------------------------------------
  // The description

  /** The acceptability map a description refers to: language reference set id to acceptability. */
  class AcceptabilityMap {
    var entries: map<string, Acceptability>

    constructor ()
      ensures entries == map[]
    {
      entries := map[];
    }

    /** `putAll`: every entry of the other map, overriding the same keys here. */
    method PutAll(other: AcceptabilityMap)
      modifies this
      ensures entries == old(entries) + old(other.entries)
    {
      entries := entries + other.entries;
    }
  }

  /** Every field of a description at one moment. */
  datatype DescriptionFields = DescriptionFields(
    effectiveTime: Option<string>,
    moduleId: Option<string>,
    active: bool,
    descriptionId: Option<string>,
    conceptId: Option<string>,
    descriptionType: Option<DescriptionType>,
    lang: Option<string>,
    term: Option<string>,
    caseSignificance: Option<string>,
    acceptabilityMap: AcceptabilityMap?,
    inactivationIndicator: Option<string>)

  /** How string concatenation prints a possibly null string. */
  function Text(s: Option<string>): string {
    if s.None? then "null" else s.value
  }

  class Description {
    var effectiveTime: Option<string>
    var moduleId: Option<string>
    var active: bool
    var descriptionId: Option<string>
    var conceptId: Option<string>
    var descriptionType: Option<DescriptionType>
    var lang: Option<string>
    var term: Option<string>
    var caseSignificance: Option<string>
    var acceptabilityMap: AcceptabilityMap?
    /** The name of the inactivation indicator, if any. */
    var inactivationIndicator: Option<string>

    function Fields(): DescriptionFields
      reads this
    {
      DescriptionFields(effectiveTime, moduleId, active, descriptionId, conceptId, descriptionType, lang, term,
        caseSignificance, acceptabilityMap, inactivationIndicator)
    }

    /** The no-argument constructor: every field null, and inactive. */
    constructor ()
      ensures Fields() == DescriptionFields(None, None, false, None, None, None, None, None, None, null, None)
    {
      effectiveTime := None;
      moduleId := None;
      active := false;
      descriptionId := None;
      conceptId := None;
      descriptionType := None;
      lang := None;
      term := None;
      caseSignificance := None;
      acceptabilityMap := null;
      inactivationIndicator := None;
    }

    /** The ten-argument constructor: every field but the inactivation indicator as given, sharing the given map. */
    constructor Of(effectiveTime: Option<string>, moduleId: Option<string>, active: bool, descriptionId: Option<string>,
                   conceptId: Option<string>, descriptionType: Option<DescriptionType>, lang: Option<string>,
                   term: Option<string>, caseSignificance: Option<string>, acceptabilityMap: AcceptabilityMap?)
      ensures Fields() == DescriptionFields(effectiveTime, moduleId, active, descriptionId, conceptId, descriptionType,
        lang, term, caseSignificance, acceptabilityMap, None)
    {
      this.effectiveTime := effectiveTime;
      this.moduleId := moduleId;
      this.active := active;
      this.descriptionId := descriptionId;
      this.conceptId := conceptId;
      this.descriptionType := descriptionType;
      this.lang := lang;
      this.term := term;
      this.caseSignificance := caseSignificance;
      this.acceptabilityMap := acceptabilityMap;
      inactivationIndicator := None;
    }

    method SetEffectiveTime(effectiveTime: Option<string>)
      modifies this
      ensures Fields() == old(Fields()).(effectiveTime := effectiveTime)
    {
      this.effectiveTime := effectiveTime;
    }

    method SetModuleId(moduleId: Option<string>)
      modifies this
      ensures Fields() == old(Fields()).(moduleId := moduleId)
    {
      this.moduleId := moduleId;
    }

    method SetActive(active: bool)
      modifies this
      ensures Fields() == old(Fields()).(active := active)
    {
      this.active := active;
    }

    method SetDescriptionId(descriptionId: Option<string>)
      modifies this
      ensures Fields() == old(Fields()).(descriptionId := descriptionId)
    {
      this.descriptionId := descriptionId;
    }

    method SetConceptId(conceptId: Option<string>)
      modifies this
      ensures Fields() == old(Fields()).(conceptId := conceptId)
    {
      this.conceptId := conceptId;
    }

    method SetType(descriptionType: Option<DescriptionType>)
      modifies this
      ensures Fields() == old(Fields()).(descriptionType := descriptionType)
    {
      this.descriptionType := descriptionType;
    }

    method SetLang(lang: Option<string>)
      modifies this
      ensures Fields() == old(Fields()).(lang := lang)
    {
      this.lang := lang;
    }

    method SetTerm(term: Option<string>)
      modifies this
      ensures Fields() == old(Fields()).(term := term)
    {
      this.term := term;
    }

    method SetCaseSignificance(caseSignificance: Option<string>)
      modifies this
      ensures Fields() == old(Fields()).(caseSignificance := caseSignificance)
    {
      this.caseSignificance := caseSignificance;
    }

    /** Stores the reference: the description then shares the caller's map. */
    method SetAcceptabilityMap(acceptabilityMap: AcceptabilityMap?)
      modifies this
      ensures Fields() == old(Fields()).(acceptabilityMap := acceptabilityMap)
    {
      this.acceptabilityMap := acceptabilityMap;
    }

    method SetInactivationIndicator(inactivationIndicator: Option<string>)
      modifies this
      ensures Fields() == old(Fields()).(inactivationIndicator := inactivationIndicator)
    {
      this.inactivationIndicator := inactivationIndicator;
    }

    /**
     * `toString`: the description id, or "NEW" for one without, then the
     * concept id in brackets, then the term.
     */
    function ToString(): (r: string)
      reads this
      ensures r == (if descriptionId.None? then "NEW" else descriptionId.value) + "[" + Text(conceptId) + "]: " + Text(term)
    {
      (if descriptionId.None? then "NEW" else descriptionId.value) + "[" + Text(conceptId) + "]: " + Text(term)
    }

    /** `hashCode`: the term's hash; a null term raises (None). */
    function HashCode(): (r: Option<int>)
      reads this
      ensures r.Some? <==> term.Some?
      ensures r.Some? ==> r.value == ToInt32(Polynomial(Utf16(term.value)))
    {
      if term.None? then None
      else
        HashIsWrappedPolynomial(Utf16(term.value));
        Some(StringHash(term.value))
    }

    /**
     * `equals`, as written: the same object is equal; null or any other kind
     * of object (both `null` here) is not; otherwise the two term hashes are
     * compared, raising (None) when either term is null.
     */
    function Equals(other: Description?): (r: Option<bool>)
      reads this, other
      ensures other == this ==> r == Some(true)
      ensures other == null ==> r == Some(false)
      ensures other != null && other != this ==>
        (r.Some? <==> term.Some? && other.term.Some?) &&
        (r.Some? ==> (r.value <==> StringHash(term.value) == StringHash(other.term.value)))
    {
      if other == this then Some(true)
      else if other == null then Some(false)
      else if term.None? || other.term.None? then None
      else Some(HashCode() == other.HashCode())
    }

    /**
     * `equals` as evidently intended: two descriptions are equal when their
     * terms are, which keeps the hash contract (equal descriptions hash
     * alike) and tells distinct terms apart.
     */
    function TermEquals(other: Description?): (r: Option<bool>)
      reads this, other
      ensures other == this ==> r == Some(true)
      ensures other == null ==> r == Some(false)
      ensures other != null && other != this ==>
        (r.Some? <==> term.Some? && other.term.Some?) &&
        (r.Some? ==> (r.value <==> term.value == other.term.value))
      ensures r == Some(true) && other != null && term.Some? ==> HashCode() == other.HashCode()
    {
      if other == this then Some(true)
      else if other == null then Some(false)
      else if term.None? || other.term.None? then None
      else Some(term.value == other.term.value)
    }

    /**
     * `clone`: a fresh, unpublished copy without an id or inactivation
     * indicator and with a fresh acceptability map holding the same entries,
     * so that editing one map leaves the other alone; a null map raises (None).
     */
    method Clone() returns (r: Option<Description>)
      ensures r.None? <==> acceptabilityMap == null
      ensures r.Some? ==>
        fresh(r.value) && fresh(r.value.acceptabilityMap) &&
        r.value.acceptabilityMap != null && r.value.acceptabilityMap != acceptabilityMap &&
        r.value.acceptabilityMap.entries == acceptabilityMap.entries &&
        r.value.Fields() == Fields().(effectiveTime := None, descriptionId := None,
          acceptabilityMap := r.value.acceptabilityMap, inactivationIndicator := None)
    {
      if acceptabilityMap == null {
        return None;
      }
      var copy := new AcceptabilityMap();
      copy.PutAll(acceptabilityMap);
      var clone := new Description.Of(None, moduleId, active, None, conceptId, descriptionType, lang, term,
        caseSignificance, copy);
      return Some(clone);
    }
  }

  /**
   * `toString` can be read back: when the description id holds no `[` and
   * the concept id no `]` (SCTIDs are digits), the text up to the first `[`
   * is the id or "NEW", the text up to the next `]` is the concept id, and
   * what follows the `]: ` after it is the term.
   */
  lemma ToStringReadsBack(d: Description)
    requires d.descriptionId.Some? ==> '[' !in d.descriptionId.value
    requires ']' !in Text(d.conceptId)
    ensures var r := d.ToString();
      var head := if d.descriptionId.None? then "NEW" else d.descriptionId.value;
      var cid := Text(d.conceptId);
      |r| == |head| + |cid| + 4 + |Text(d.term)| &&
      (forall k :: 0 <= k < |head| ==> r[k] != '[') && r[..|head|] == head && r[|head|] == '[' &&
      (forall k :: |head| < k <= |head| + |cid| ==> r[k] != ']') && r[|head| + 1..|head| + 1 + |cid|] == cid &&
      r[|head| + 1 + |cid|..|head| + |cid| + 4] == "]: " && r[|head| + |cid| + 4..] == Text(d.term)
  {
    var head := if d.descriptionId.None? then "NEW" else d.descriptionId.value;
    assert '[' !in head;
    RenderingReadsBack(head, Text(d.conceptId), Text(d.term));
  }

  /** The layout of `toString`'s text, for any three parts without stray brackets. */
  lemma RenderingReadsBack(head: string, cid: string, term: string)
    requires '[' !in head && ']' !in cid
    ensures var r := head + "[" + cid + "]: " + term;
      |r| == |head| + |cid| + 4 + |term| &&
      (forall k :: 0 <= k < |head| ==> r[k] != '[') && r[..|head|] == head && r[|head|] == '[' &&
      (forall k :: |head| < k <= |head| + |cid| ==> r[k] != ']') && r[|head| + 1..|head| + 1 + |cid|] == cid &&
      r[|head| + 1 + |cid|..|head| + |cid| + 4] == "]: " && r[|head| + |cid| + 4..] == term
  {
    var tail := "]: " + term;
    var r := head + "[" + cid + "]: " + term;
    assert r == head + "[" + cid + tail;
    assert r[..|head|] == head;
    assert r[|head| + 1..|head| + 1 + |cid|] == cid;
    assert r[|head| + 1 + |cid|..] == tail;
    assert r[|head| + 1 + |cid|..|head| + |cid| + 4] == tail[..3] == "]: ";
    assert r[|head| + |cid| + 4..] == tail[3..];
    forall k | 0 <= k < |head|
      ensures r[k] != '['
    {
      assert r[k] == head[k];
    }
    forall k | |head| < k <= |head| + |cid|
      ensures r[k] != ']'
    {
      assert r[k] == cid[k - |head| - 1];
    }
  }

  /**
   * The finding: two different descriptions whose terms differ but share a
   * hash are equal as written, and not equal as intended.
   */
  lemma EqualsConflatesTerms(d: Description, e: Description)
    requires d != e && d.term == Some("Aa") && e.term == Some("BB")
    ensures d.Equals(e) == Some(true)
    ensures d.TermEquals(e) == Some(false)
  {
    TermHashCollision();
  }
}
