/**
 * The batch import's expression parser. A spreadsheet row may define its
 * concept by a post-coordinated expression written in a home-grown subset of
 * the SNOMED CT compositional grammar, for example
 * `<<< 64572001 |Disease| : { 363698007 |Finding site| = 39057004 }`.
 * The parser edits one StringBuffer in place, stage by stage: it strips the
 * `|term|` annotations and the spaces, cuts off the definition status, cuts
 * off the focus concepts and splits what is left into attribute groups.
 *
 * Each stage is a method on the buffer, proved against a function that says
 * what the stage does to the text; `Parse` composes those functions.
 */
module BatchImportExpression {
  import opened Wrappers
  import opened JavaText
  import opened Snomed

  const FULLY_DEFINED: string := "==="
  const PRIMITIVE: string := "<<<"
  const PIPE: char := '|'
  const SPACE: char := ' '
  const REFINEMENT_START: seq<char> := [':', '{']
  const GROUP_START: char := '{'
  const GROUP_END: char := '}'
  const FOCUS_CONCEPT_SEPARATOR: char := '+'
  const ATTRIBUTE_SEPARATOR: char := ','
  const TERM_TERMINATORS: seq<char> := ['|', ':', '+', '{', ',', '}', '=']

  /** An attribute group: its number (0 for the ungrouped attributes) and its relationships. */
  datatype BatchImportGroup = BatchImportGroup(groupNumber: int, relationships: seq<BrowserRelationship>)

  /**
   * `BatchImportGroup.parse(groupNumber, text, moduleId)` with the module id
   * fixed by the caller: the group read from the text, or the message of the
   * exception it throws. Its source is not part of this model.
   */
  type GroupParser = (int, string) -> Result<BatchImportGroup>

  datatype Expression = Expression(
    definitionStatus: DefinitionStatus,
    focusConcepts: seq<string>,
    attributeGroups: seq<BatchImportGroup>)

  /** A stretch of attribute text and the group number it is parsed with. */
  datatype GroupText = GroupText(groupNumber: int, text: string)

  // ---------------------------------------------------------------------------
  // Searching and removing characters

  /**
   * `indexOf(haystack, needles, startFrom)`: the least index at or after
   * `startFrom` holding one of the needles, or -1 when there is none.
   */
  method IndexOf(haystack: StringBuffer, needles: seq<char>, startFrom: nat) returns (idx: int)
    ensures idx == FirstIndexOf(haystack.chars, needles, startFrom)
    ensures idx == -1 || (startFrom <= idx < |haystack.chars| && haystack.chars[idx] in needles)
    ensures forall j :: startFrom <= j < |haystack.chars| && (idx == -1 || j < idx) ==> haystack.chars[j] !in needles
  {
    idx := startFrom;
    while idx < |haystack.chars|
      invariant startFrom <= idx
      invariant forall j :: startFrom <= j < idx && j < |haystack.chars| ==> haystack.chars[j] !in needles
    {
      for k := 0 to |needles|
        invariant forall m :: 0 <= m < k ==> needles[m] != haystack.chars[idx]
      {
        if haystack.chars[idx] == needles[k] {
          return idx;
        }
      }
      idx := idx + 1;
    }
    return -1;
  }

  /** `s` with every occurrence of `c` taken out and the other characters kept in order. */
  function Without(s: string, c: char): (r: string)
    decreases |s|
    ensures c !in r
    ensures |r| <= |s|
    ensures forall x :: x in r ==> x in s
  {
    if |s| == 0 then []
    else
      var last := s[|s| - 1];
      assert s == s[..|s| - 1] + [last];
      Without(s[..|s| - 1], c) + (if last == c then [] else [last])
  }

  /** Removing a character commutes with concatenation: the other characters keep their order. */
  lemma {:induction false} WithoutAppend(a: string, b: string, c: char)
    ensures Without(a + b, c) == Without(a, c) + Without(b, c)
    decreases |b|
  {
    if |b| > 0 {
      var b' := b[..|b| - 1];
      assert (a + b)[..|a + b| - 1] == a + b';
      WithoutAppend(a, b', c);
    } else {
      assert a + b == a;
    }
  }

  /** A string without the character is left as it is. */
  lemma {:induction false} WithoutAbsent(s: string, c: char)
    requires c !in s
    ensures Without(s, c) == s
    decreases |s|
  {
    if |s| > 0 {
      WithoutAbsent(s[..|s| - 1], c);
      assert s == s[..|s| - 1] + [s[|s| - 1]];
    }
  }

  /** `remove(haystack, needle)`: deletes every occurrence, stepping back after each deletion. */
  method Remove(haystack: StringBuffer, needle: char)
    modifies haystack
    ensures haystack.chars == Without(old(haystack.chars), needle)
  {
    ghost var original := haystack.chars;
    ghost var k := 0;
    var idx := 0;
    while idx < |haystack.chars|
      invariant 0 <= idx <= |haystack.chars|
      invariant 0 <= k <= |original|
      invariant haystack.chars[..idx] == Without(original[..k], needle)
      invariant haystack.chars[idx..] == original[k..]
      decreases |original| - k
    {
      ghost var before := haystack.chars;
      assert original[..k + 1] == original[..k] + [original[k]];
      assert before[idx] == original[k] by {
        assert before[idx..][0] == original[k..][0];
      }
      assert before[idx + 1..] == original[k + 1..] by {
        assert before[idx + 1..] == before[idx..][1..] && original[k + 1..] == original[k..][1..];
      }
      if haystack.chars[idx] == needle {
        haystack.DeleteCharAt(idx);
        assert haystack.chars[..idx] == before[..idx] && haystack.chars[idx..] == before[idx + 1..];
        idx := idx - 1;
      } else {
        assert haystack.chars[..idx + 1] == before[..idx] + [original[k]];
      }
      idx := idx + 1;
      k := k + 1;
    }
    assert original[k..] == [];
    assert original[..k] == original;
    assert haystack.chars[..idx] == haystack.chars;
  }

  // ---------------------------------------------------------------------------
  // Stripping term annotations

  /**
   * `findEndOfTerm(hrExp, searchStart)`, where `searchStart` is the opening
   * pipe: the end (exclusive) of the annotation to cut. The term ends at the
   * next terminator; a closing pipe is cut too; a comma ends the term only
   * when the next four characters are digits or spaces, otherwise the search
   * goes on past it. Reading those four characters fails when fewer follow.
   */
  function FindEndOfTerm(s: string, searchStart: nat): (r: Result<nat>)
    requires searchStart < |s|
    decreases |s| - searchStart
    ensures r.Ok? ==> searchStart < r.value <= |s|
  {
    var endIdx := FirstIndexOf(s, TERM_TERMINATORS, searchStart + 1);
    if endIdx == -1 then Ok(|s|)
    else if s[endIdx] == PIPE then Ok(endIdx + 1)
    else if s[endIdx] == ATTRIBUTE_SEPARATOR then
      if endIdx + 5 > |s| then Err("String index out of range: " + IntToString(endIdx + 5))
      else if !NumericSpaceBetween(s, endIdx + 1, endIdx + 5) then FindEndOfTerm(s, endIdx)
      else Ok(endIdx)
    else Ok(endIdx)
  }

  /**
   * `isNumericSpace(hrExp.substring(lo, hi))`, read in place: every
   * character in `[lo, hi)` is a digit or a space.
   */
  predicate NumericSpaceBetween(s: string, lo: int, hi: int)
    decreases hi - lo
  {
    lo >= hi || (0 <= lo < |s| && (IsDigit(s[lo]) || s[lo] == ' ') && NumericSpaceBetween(s, lo + 1, hi))
  }

  /** Reading in place agrees with `isNumericSpace` of the substring. */
  lemma {:induction false} NumericSpaceBetweenIsSubstring(s: string, lo: int, hi: int)
    requires 0 <= lo <= hi <= |s|
    decreases hi - lo
    ensures NumericSpaceBetween(s, lo, hi) <==> IsNumericSpace(s[lo..hi])
  {
    if lo < hi {
      NumericSpaceBetweenIsSubstring(s, lo + 1, hi);
      var t := s[lo..hi];
      assert t[0] == s[lo] && t[1..] == s[lo + 1..hi];
      assert forall i :: 1 <= i < |t| ==> t[i] == t[1..][i - 1];
    }
  }

  predicate IsTerminator(c: char) {
    c in TERM_TERMINATORS
  }

  /** One step of the search, case by case, at the first terminator after the opening pipe. */
  lemma FindEndOfTermStep(s: string, searchStart: nat) returns (endIdx: int)
    requires searchStart < |s| && FindEndOfTerm(s, searchStart).Ok?
    ensures endIdx == FirstIndexOf(s, TERM_TERMINATORS, searchStart + 1)
    ensures endIdx == -1 || searchStart < endIdx < |s|
    ensures var e := FindEndOfTerm(s, searchStart).value;
      (endIdx == -1 ==> e == |s|) &&
      (endIdx != -1 && s[endIdx] == PIPE ==> e == endIdx + 1) &&
      (endIdx != -1 && s[endIdx] != PIPE && s[endIdx] != ATTRIBUTE_SEPARATOR ==> e == endIdx) &&
      (endIdx != -1 && s[endIdx] == ATTRIBUTE_SEPARATOR ==>
        endIdx + 5 <= |s| &&
        (NumericSpaceBetween(s, endIdx + 1, endIdx + 5) ==> e == endIdx) &&
        (!NumericSpaceBetween(s, endIdx + 1, endIdx + 5) ==> FindEndOfTerm(s, endIdx).Ok? && e == FindEndOfTerm(s, endIdx).value))
  {
    endIdx := FirstIndexOf(s, TERM_TERMINATORS, searchStart + 1);
  }

  /**
   * No terminator but a skipped comma lies inside the cut, except a closing
   * pipe at its end; every skipped comma is followed by four characters that
   * are not all digits or spaces.
   */
  lemma {:induction false} FindEndOfTermSkipsOnlyCommas(s: string, searchStart: nat)
    requires searchStart < |s| && FindEndOfTerm(s, searchStart).Ok?
    decreases |s| - searchStart
    ensures var e := FindEndOfTerm(s, searchStart).value;
      forall i :: searchStart < i < e && IsTerminator(s[i]) ==> s[i] == ATTRIBUTE_SEPARATOR || (s[i] == PIPE && i == e - 1)
    ensures var e := FindEndOfTerm(s, searchStart).value;
      forall i :: searchStart < i < e && s[i] == ATTRIBUTE_SEPARATOR ==> i + 5 <= |s| && !NumericSpaceBetween(s, i + 1, i + 5)
  {
    var e := FindEndOfTerm(s, searchStart).value;
    var endIdx := FindEndOfTermStep(s, searchStart);
    // before the first terminator after the opening pipe there is none
    assert forall i :: searchStart < i < |s| && (endIdx == -1 || i < endIdx) ==> !IsTerminator(s[i]);
    assert IsTerminator(ATTRIBUTE_SEPARATOR);
    if endIdx != -1 && s[endIdx] == ATTRIBUTE_SEPARATOR && !NumericSpaceBetween(s, endIdx + 1, endIdx + 5) {
      // the comma is inside the term: the cut goes on to the end of the rest
      FindEndOfTermSkipsOnlyCommas(s, endIdx);
    } else {
      // the cut ends at or just after the first terminator
      assert endIdx == -1 || e <= endIdx + 1;
    }
  }

  /**
   * A cut that stops before the end of the text stops after a closing pipe or
   * before another terminator; when that terminator is a comma, the next four
   * characters are digits or spaces.
   */
  lemma {:induction false} FindEndOfTermStops(s: string, searchStart: nat)
    requires searchStart < |s| && FindEndOfTerm(s, searchStart).Ok?
    decreases |s| - searchStart
    ensures var e := FindEndOfTerm(s, searchStart).value;
      e < |s| ==> ((searchStart < e - 1 && s[e - 1] == PIPE) ||
                   (IsTerminator(s[e]) && s[e] != PIPE &&
                    (s[e] == ATTRIBUTE_SEPARATOR ==> e + 5 <= |s| && NumericSpaceBetween(s, e + 1, e + 5))))
  {
    var e := FindEndOfTerm(s, searchStart).value;
    var endIdx := FindEndOfTermStep(s, searchStart);
    if endIdx != -1 && s[endIdx] == ATTRIBUTE_SEPARATOR && !NumericSpaceBetween(s, endIdx + 1, endIdx + 5) {
      FindEndOfTermStops(s, endIdx);
    }
  }

  /** The search fails only on a comma followed by fewer than four characters. */
  lemma {:induction false} FindEndOfTermFails(s: string, searchStart: nat)
    requires searchStart < |s| && FindEndOfTerm(s, searchStart).Err?
    decreases |s| - searchStart
    ensures exists i :: searchStart < i < |s| && s[i] == ATTRIBUTE_SEPARATOR && |s| < i + 5
  {
    var endIdx := FirstIndexOf(s, TERM_TERMINATORS, searchStart + 1);
    if endIdx + 5 <= |s| {
      FindEndOfTermFails(s, endIdx);
    }
  }

  /**
   * The text with its term annotations cut out: repeatedly, from the first
   * pipe to the end of its term.
   */
  function StripTerms(s: string): (r: Result<string>)
    decreases |s|
    ensures r.Ok? ==> PIPE !in r.value && |r.value| <= |s|
    ensures PIPE !in s ==> r == Ok(s)
  {
    var p := FirstIndexOf(s, [PIPE], 0);
    if p == -1 then
      assert forall j :: 0 <= j < |s| ==> s[j] != PIPE;
      Ok(s)
    else
      var e :- FindEndOfTerm(s, p);
      StripTerms(s[..p] + s[e..])
  }

  /** The machine-readable form: annotations cut out, then every space removed. */
  function MachineReadable(s: string): (r: Result<string>)
    ensures r.Ok? ==> PIPE !in r.value && SPACE !in r.value
    ensures PIPE !in s ==> r == Ok(Without(s, SPACE))
  {
    var stripped :- StripTerms(s);
    Ok(Without(stripped, SPACE))
  }

  /**
   * `makeMachineReadable(hrExp)`: while a pipe remains, cut from it to the
   * end of its term; then remove the spaces. Each pass cuts at least the pipe
   * it found, so the loop ends.
   */
  method MakeMachineReadable(hrExp: StringBuffer) returns (r: Result<()>)
    modifies hrExp
    ensures r.Ok? <==> MachineReadable(old(hrExp.chars)).Ok?
    ensures r.Ok? ==> hrExp.chars == MachineReadable(old(hrExp.chars)).value
    ensures r.Err? ==> r.error == MachineReadable(old(hrExp.chars)).error
  {
    // `hrExp.indexOf(PIPE)`: the buffer's own search, not the parser's.
    var pipeIdx := FirstIndexOf(hrExp.chars, [PIPE], 0);
    while pipeIdx != -1
      invariant pipeIdx == FirstIndexOf(hrExp.chars, [PIPE], 0)
      invariant StripTerms(hrExp.chars) == StripTerms(old(hrExp.chars))
      decreases |hrExp.chars|
    {
      var endIdx := FindEndOfTerm(hrExp.chars, pipeIdx);
      if endIdx.Err? {
        return Err(endIdx.error);
      }
      hrExp.Delete(pipeIdx, endIdx.value);
      pipeIdx := FirstIndexOf(hrExp.chars, [PIPE], 0);
    }
    Remove(hrExp, SPACE);
    return Ok(());
  }

  // ---------------------------------------------------------------------------
  // Definition status

  /** The definition status the text starts with: `===` fully defined, `<<<` primitive. */
  function DefinitionStatusOf(s: string): (r: Result<DefinitionStatus>)
    ensures r == Ok(FullyDefined) <==> FULLY_DEFINED <= s
    ensures r == Ok(Primitive) <==> PRIMITIVE <= s
    ensures r.Err? <==> !(FULLY_DEFINED <= s) && !(PRIMITIVE <= s)
    ensures r.Err? ==> r.error == "Unable to determine Definition Status from: " + s
  {
    IndexOfStringAtStart(s, FULLY_DEFINED);
    IndexOfStringAtStart(s, PRIMITIVE);
    if IndexOfString(s, FULLY_DEFINED, 0) == 0 then Ok(FullyDefined)
    else if IndexOfString(s, PRIMITIVE, 0) == 0 then Ok(Primitive)
    else Err("Unable to determine Definition Status from: " + s)
  }

  /**
   * `extractDefinitionStatus`: reads the leading status token and deletes its
   * three characters; a buffer starting with neither token is left alone.
   */
  method ExtractDefinitionStatus(expressionBuff: StringBuffer) returns (r: Result<DefinitionStatus>)
    modifies expressionBuff
    ensures r == DefinitionStatusOf(old(expressionBuff.chars))
    ensures r.Ok? ==> |old(expressionBuff.chars)| >= 3 && expressionBuff.chars == old(expressionBuff.chars)[3..]
    ensures r.Err? ==> expressionBuff.chars == old(expressionBuff.chars)
  {
    var isFullyDefined: Option<bool> := None;
    if IndexOfString(expressionBuff.chars, FULLY_DEFINED, 0) == 0 {
      isFullyDefined := Some(true);
    } else if IndexOfString(expressionBuff.chars, PRIMITIVE, 0) == 0 {
      isFullyDefined := Some(false);
    }
    if isFullyDefined.None? {
      return Err("Unable to determine Definition Status from: " + expressionBuff.chars);
    }
    expressionBuff.Delete(0, |FULLY_DEFINED|);
    return Ok(if isFullyDefined.value then FullyDefined else Primitive);
  }

  // ---------------------------------------------------------------------------
  // Focus concepts

  /** Where the focus concepts end: at the first ':' or '{', or at the end of the text. */
  function FocusEnd(s: string): (r: nat)
    ensures r <= |s|
    ensures forall i :: 0 <= i < r ==> s[i] !in REFINEMENT_START
    ensures r < |s| ==> s[r] in REFINEMENT_START
  {
    var i := FirstIndexOf(s, REFINEMENT_START, 0);
    if i == -1 then |s| else i
  }

  /** The focus concepts: the text before the refinement, split at '+'. */
  function FocusConceptsOf(s: string): seq<string> {
    Split(s[..FocusEnd(s)], FOCUS_CONCEPT_SEPARATOR)
  }

  /** Whether a ':' introduces the refinement; it is consumed with the focus concepts. */
  predicate ColonAfterFocus(s: string) {
    FocusEnd(s) < |s| && s[FocusEnd(s)] == ':'
  }

  /** What is left once the focus concepts, and a ':' after them, are taken off. */
  function RefinementOf(s: string): string {
    if ColonAfterFocus(s) then s[FocusEnd(s) + 1..] else s[FocusEnd(s)..]
  }

  /**
   * The focus stage splits the text into three consecutive parts: the focus
   * concepts, an optional ':', and a refinement that is empty or starts with
   * what is neither ':' nor part of the focus. The focus concepts are the
   * `+`-free pieces of the first part and lose nothing but the separators.
   */
  lemma FocusConceptsPartition(s: string)
    ensures s == s[..FocusEnd(s)] + (if ColonAfterFocus(s) then ":" else "") + RefinementOf(s)
    ensures !ColonAfterFocus(s) ==> RefinementOf(s) == [] || RefinementOf(s)[0] == GROUP_START
    ensures forall k :: 0 <= k < |FocusConceptsOf(s)| ==>
      FOCUS_CONCEPT_SEPARATOR !in FocusConceptsOf(s)[k] && ':' !in FocusConceptsOf(s)[k] && GROUP_START !in FocusConceptsOf(s)[k]
    ensures Join(FocusConceptsOf(s), FOCUS_CONCEPT_SEPARATOR) <= s
    ensures forall i :: |Join(FocusConceptsOf(s), FOCUS_CONCEPT_SEPARATOR)| <= i < FocusEnd(s) ==> s[i] == FOCUS_CONCEPT_SEPARATOR
  {
    FocusPartsReassemble(s);
    FocusPiecesClean(s);
  }

  /** The focus text, an optional ':' and the refinement make up the whole text. */
  lemma FocusPartsReassemble(s: string)
    ensures s == s[..FocusEnd(s)] + (if ColonAfterFocus(s) then ":" else "") + RefinementOf(s)
    ensures !ColonAfterFocus(s) ==> RefinementOf(s) == [] || RefinementOf(s)[0] == GROUP_START
  {
    var e := FocusEnd(s);
    var r := RefinementOf(s);
    if ColonAfterFocus(s) {
      assert r == s[e + 1..];
      assert ":" == [s[e]];
      assert s == s[..e] + [s[e]] + s[e + 1..];
    } else {
      assert r == s[e..];
      assert s == s[..e] + s[e..];
      if e < |s| {
        assert s[e] in REFINEMENT_START && s[e] != ':';
        assert r[0] == s[e];
      }
    }
  }

  /** The focus concepts hold no separator, ':' or '{', and joined back they are a prefix of the text followed only by separators. */
  lemma FocusPiecesClean(s: string)
    ensures forall k :: 0 <= k < |FocusConceptsOf(s)| ==>
      FOCUS_CONCEPT_SEPARATOR !in FocusConceptsOf(s)[k] && ':' !in FocusConceptsOf(s)[k] && GROUP_START !in FocusConceptsOf(s)[k]
    ensures Join(FocusConceptsOf(s), FOCUS_CONCEPT_SEPARATOR) <= s
    ensures forall i :: |Join(FocusConceptsOf(s), FOCUS_CONCEPT_SEPARATOR)| <= i < FocusEnd(s) ==> s[i] == FOCUS_CONCEPT_SEPARATOR
  {
    var e := FocusEnd(s);
    var prefix := s[..e];
    SplitRecovers(prefix, FOCUS_CONCEPT_SEPARATOR);
    var pieces := FocusConceptsOf(s);
    assert forall i :: 0 <= i < e ==> prefix[i] == s[i];
    assert ':' !in prefix && GROUP_START !in prefix;
    forall k | 0 <= k < |pieces|
      ensures ':' !in pieces[k] && GROUP_START !in pieces[k]
    {
      assert forall x :: x in pieces[k] ==> x in prefix;
    }
    var joined := Join(pieces, FOCUS_CONCEPT_SEPARATOR);
    assert joined <= prefix && prefix <= s;
  }

  /**
   * `extractFocusConcepts`: splits the text before the first ':' or '{' at
   * '+' and deletes it, together with a ':' that follows; a '{' is kept.
   */
  method ExtractFocusConcepts(expressionBuff: StringBuffer) returns (focusConcepts: seq<string>)
    modifies expressionBuff
    ensures focusConcepts == FocusConceptsOf(old(expressionBuff.chars))
    ensures expressionBuff.chars == RefinementOf(old(expressionBuff.chars))
  {
    var focusEnd := IndexOf(expressionBuff, REFINEMENT_START, 0);
    if focusEnd == -1 {
      focusEnd := |expressionBuff.chars|;
    }
    var focusConceptStr := expressionBuff.chars[..focusEnd];
    focusConcepts := Split(focusConceptStr, FOCUS_CONCEPT_SEPARATOR);
    if focusEnd < |expressionBuff.chars| && expressionBuff.chars[focusEnd] == ':' {
      focusEnd := focusEnd + 1;
    }
    expressionBuff.Delete(0, focusEnd);
  }

  // ---------------------------------------------------------------------------
  // Attribute groups

  /** The pieces numbered consecutively from `first`. */
  function Numbered(pieces: seq<string>, first: int): (r: seq<GroupText>)
    ensures |r| == |pieces|
    ensures forall i :: 0 <= i < |r| ==> r[i] == GroupText(first + i, pieces[i])
  {
    seq(|pieces|, i requires 0 <= i < |pieces| => GroupText(first + i, pieces[i]))
  }

  /**
   * How the refinement is cut into group texts. Empty: no groups. Starting
   * with '{': the closing braces are dropped and the rest split at '{' into
   * groups 1, 2, ... Starting with a digit: with no braces at all it is group
   * 0; with a '{' before the first '}', the text before that '{' is group 0
   * and the rest is cut as above; otherwise, and for any other first
   * character, an error.
   */
  function SplitGroups(s: string): (r: Result<seq<GroupText>>)
    decreases |s|
  {
    if |s| == 0 then Ok([])
    else if s[0] == GROUP_START then Ok(Numbered(Split(Without(s[1..], GROUP_END), GROUP_START), 1))
    else if IsDigit(s[0]) then
      var nextGroupOpen := FirstIndexOf(s, [GROUP_START], 0);
      var nextGroupClose := FirstIndexOf(s, [GROUP_END], 0);
      if nextGroupOpen == -1 && nextGroupClose == -1 then Ok([GroupText(0, s)])
      else if nextGroupOpen > -1 && nextGroupClose > nextGroupOpen then
        var rest :- SplitGroups(s[nextGroupOpen..]);
        Ok([GroupText(0, s[..nextGroupOpen])] + rest)
      else Err("Unable to separate grouped from ungrouped attributes in: " + s)
    else Err("Unable to parse attributes groups from: " + s)
  }

  /**
   * The groups are numbered in order: from 0 when ungrouped attributes come
   * first, from 1 otherwise; no group text holds a brace.
   */
  lemma {:induction false} SplitGroupsNumbering(s: string)
    requires SplitGroups(s).Ok? && |s| > 0
    ensures forall i :: 0 <= i < |SplitGroups(s).value| ==>
      SplitGroups(s).value[i].groupNumber == (if IsDigit(s[0]) then i else i + 1)
    ensures forall i :: 0 <= i < |SplitGroups(s).value| ==>
      GROUP_START !in SplitGroups(s).value[i].text && GROUP_END !in SplitGroups(s).value[i].text
    decreases |s|
  {
    if s[0] == GROUP_START {
      var pieces := Split(Without(s[1..], GROUP_END), GROUP_START);
      forall k | 0 <= k < |pieces| ensures GROUP_END !in pieces[k] {
        assert forall x :: x in pieces[k] ==> x in Without(s[1..], GROUP_END);
      }
    } else {
      var nextGroupOpen := FirstIndexOf(s, [GROUP_START], 0);
      var nextGroupClose := FirstIndexOf(s, [GROUP_END], 0);
      if nextGroupOpen == -1 && nextGroupClose == -1 {
        assert forall j :: 0 <= j < |s| ==> s[j] != GROUP_START && s[j] != GROUP_END;
      } else {
        var rest := s[nextGroupOpen..];
        SplitGroupsNumbering(rest);
        assert forall j :: 0 <= j < nextGroupOpen ==> s[j] != GROUP_START && s[j] != GROUP_END;
      }
    }
  }

  /**
   * Ungrouped attributes followed by groups: a '{' with no brace before it
   * and a '}' somewhere after it.
   */
  predicate GroupsFollowUngrouped(s: string) {
    exists i | 0 <= i < |s| :: s[i] == GROUP_START && GROUP_START !in s[..i] && GROUP_END !in s[..i] && GROUP_END in s[i..]
  }

  /**
   * Which refinements cannot be cut: a non-empty one that starts with
   * neither '{' nor a digit, or starts with a digit and holds braces that are
   * not a '{' followed by a '}'. A refinement starting with '{' is always cut.
   */
  lemma SplitGroupsFails(s: string)
    ensures SplitGroups(s).Err? <==>
      |s| > 0 && s[0] != GROUP_START &&
      (!IsDigit(s[0]) || ((GROUP_START in s || GROUP_END in s) && !GroupsFollowUngrouped(s)))
  {
    if |s| > 0 && s[0] != GROUP_START && IsDigit(s[0]) {
      var nextGroupOpen := FirstIndexOf(s, [GROUP_START], 0);
      var nextGroupClose := FirstIndexOf(s, [GROUP_END], 0);
      GroupsFollowUngroupedAtFirstBraces(s);
      BracesFoundIn(s);
      assert SplitGroups(s).Err? <==> !(nextGroupOpen == -1 && nextGroupClose == -1) && !(nextGroupOpen > -1 && nextGroupClose > nextGroupOpen);
    }
  }

  /** The first '{' and the first '}' are found exactly when the text holds them. */
  lemma BracesFoundIn(s: string)
    ensures FirstIndexOf(s, [GROUP_START], 0) != -1 <==> GROUP_START in s
    ensures FirstIndexOf(s, [GROUP_END], 0) != -1 <==> GROUP_END in s
  {
    var o := FirstIndexOf(s, [GROUP_START], 0);
    var c := FirstIndexOf(s, [GROUP_END], 0);
    if o != -1 { assert s[o] in s; }
    if GROUP_START in s { var j :| 0 <= j < |s| && s[j] == GROUP_START; assert s[j] in [GROUP_START]; }
    if c != -1 { assert s[c] in s; }
    if GROUP_END in s { var j :| 0 <= j < |s| && s[j] == GROUP_END; assert s[j] in [GROUP_END]; }
  }

  /** Ungrouped attributes are followed by groups exactly when the first '}' comes after the first '{'. */
  lemma GroupsFollowUngroupedAtFirstBraces(s: string)
    ensures GroupsFollowUngrouped(s) <==>
      FirstIndexOf(s, [GROUP_START], 0) > -1 && FirstIndexOf(s, [GROUP_END], 0) > FirstIndexOf(s, [GROUP_START], 0)
  {
    var o := FirstIndexOf(s, [GROUP_START], 0);
    var c := FirstIndexOf(s, [GROUP_END], 0);
    if o > -1 && c > o {
      GroupsFollowFirstOpen(s);
    }
    if GroupsFollowUngrouped(s) {
      var i :| 0 <= i < |s| && s[i] == GROUP_START && GROUP_START !in s[..i] && GROUP_END !in s[..i] && GROUP_END in s[i..];
      FirstBracesAround(s, i);
    }
  }

  /** A first '}' after the first '{' makes that '{' open the groups. */
  lemma GroupsFollowFirstOpen(s: string)
    requires FirstIndexOf(s, [GROUP_START], 0) > -1
    requires FirstIndexOf(s, [GROUP_END], 0) > FirstIndexOf(s, [GROUP_START], 0)
    ensures GroupsFollowUngrouped(s)
  {
    var o := FirstIndexOf(s, [GROUP_START], 0);
    var c := FirstIndexOf(s, [GROUP_END], 0);
    assert s[o] == GROUP_START;
    assert GROUP_START !in s[..o] && GROUP_END !in s[..o] by {
      forall x | x in s[..o] ensures x != GROUP_START && x != GROUP_END {
        var j :| 0 <= j < o && s[..o][j] == x;
        assert s[j] !in [GROUP_START] && s[j] !in [GROUP_END];
      }
    }
    assert s[o..][c - o] == GROUP_END;
  }

  /** A brace-free prefix ending in '{', with a '}' later, places the first '{' there and the first '}' after it. */
  lemma FirstBracesAround(s: string, i: nat)
    requires i < |s| && s[i] == GROUP_START
    requires GROUP_START !in s[..i] && GROUP_END !in s[..i] && GROUP_END in s[i..]
    ensures FirstIndexOf(s, [GROUP_START], 0) == i
    ensures FirstIndexOf(s, [GROUP_END], 0) > i
  {
    assert s[i] in [GROUP_START];
    assert forall j :: 0 <= j < i ==> s[j] == s[..i][j] && s[j] != GROUP_START && s[j] != GROUP_END;
    var k :| 0 <= k < |s[i..]| && s[i..][k] == GROUP_END;
    assert s[i + k] in [GROUP_END];
  }

  /** Each text parses to the group at the same position. */
  predicate AllParsed(texts: seq<GroupText>, parser: GroupParser, groups: seq<BatchImportGroup>) {
    |groups| == |texts| &&
    forall i :: 0 <= i < |texts| ==> parser(texts[i].groupNumber, texts[i].text) == Ok(groups[i])
  }

  /** The text at `i` fails with `error` and every text before it parses. */
  predicate FailsFirstAt(texts: seq<GroupText>, parser: GroupParser, i: int, error: string) {
    0 <= i < |texts| && parser(texts[i].groupNumber, texts[i].text) == Err(error) &&
    forall j :: 0 <= j < i ==> parser(texts[j].groupNumber, texts[j].text).Ok?
  }

  predicate FirstFailure(texts: seq<GroupText>, parser: GroupParser, error: string) {
    exists i | 0 <= i < |texts| :: FailsFirstAt(texts, parser, i, error)
  }

  /**
   * Every group text parsed in order; the first failure is the result.
   */
  function ParseGroups(texts: seq<GroupText>, parser: GroupParser): (r: Result<seq<BatchImportGroup>>)
    decreases |texts|
    ensures r.Ok? ==> |r.value| == |texts|
  {
    if |texts| == 0 then Ok([])
    else
      var last := texts[|texts| - 1];
      var init :- ParseGroups(texts[..|texts| - 1], parser);
      var group :- parser(last.groupNumber, last.text);
      Ok(init + [group])
  }

  /** When every text parses, the groups come in order; otherwise the first failure is the outcome. */
  lemma {:induction false} ParseGroupsOutcome(texts: seq<GroupText>, parser: GroupParser)
    decreases |texts|
    ensures ParseGroups(texts, parser).Ok? ==> AllParsed(texts, parser, ParseGroups(texts, parser).value)
    ensures ParseGroups(texts, parser).Err? ==> FirstFailure(texts, parser, ParseGroups(texts, parser).error)
  {
    if |texts| > 0 {
      var n := |texts| - 1;
      var init := texts[..n];
      ParseGroupsOutcome(init, parser);
      assert forall j :: 0 <= j < n ==> init[j] == texts[j];
      var pi := ParseGroups(init, parser);
      if pi.Err? {
        var i :| 0 <= i < |init| && FailsFirstAt(init, parser, i, pi.error);
        assert FailsFirstAt(texts, parser, i, pi.error);
      } else {
        var h := parser(texts[n].groupNumber, texts[n].text);
        if h.Err? {
          assert FailsFirstAt(texts, parser, n, h.error);
        } else {
          assert ParseGroups(texts, parser).value == pi.value + [h.value];
        }
      }
    }
  }

  /**
   * The outcome of `ParseGroups` is fixed by the parser's outcome on each
   * text: all groups when every text parses, else the first failure.
   */
  lemma ParseGroupsDetermined(texts: seq<GroupText>, parser: GroupParser, r: Result<seq<BatchImportGroup>>)
    requires r.Ok? ==> AllParsed(texts, parser, r.value)
    requires r.Err? ==> FirstFailure(texts, parser, r.error)
    ensures ParseGroups(texts, parser) == r
  {
    ParseGroupsOutcome(texts, parser);
    var p := ParseGroups(texts, parser);
    if r.Ok? && p.Ok? {
      assert forall i :: 0 <= i < |texts| ==> p.value[i] == r.value[i];
      assert p.value == r.value;
    } else if r.Ok? || p.Ok? {
      assert false;
    } else {
      var i :| 0 <= i < |texts| && FailsFirstAt(texts, parser, i, r.error);
      var i' :| 0 <= i' < |texts| && FailsFirstAt(texts, parser, i', p.error);
      assert parser(texts[i].groupNumber, texts[i].text).Err?;
      assert parser(texts[i'].groupNumber, texts[i'].text).Err?;
      assert i == i';
    }
  }

  /** Parsing a text and then the rest: the head group first, then the others, failing at the first failure. */
  lemma ParseGroupsCons(head: GroupText, rest: seq<GroupText>, parser: GroupParser)
    ensures ParseGroups([head] + rest, parser) ==
      match parser(head.groupNumber, head.text)
      case Err(e) => Err(e)
      case Ok(g) => (match ParseGroups(rest, parser) case Err(e) => Err(e) case Ok(gs) => Ok([g] + gs))
  {
    var all := [head] + rest;
    assert forall j :: 1 <= j < |all| ==> all[j] == rest[j - 1];
    var h := parser(head.groupNumber, head.text);
    var p := ParseGroups(rest, parser);
    if h.Err? {
      assert FailsFirstAt(all, parser, 0, h.error);
      ParseGroupsDetermined(all, parser, Err(h.error));
    } else if p.Err? {
      ParseGroupsOutcome(rest, parser);
      var i :| 0 <= i < |rest| && FailsFirstAt(rest, parser, i, p.error);
      assert FailsFirstAt(all, parser, i + 1, p.error);
      ParseGroupsDetermined(all, parser, Err(p.error));
    } else {
      ParseGroupsOutcome(rest, parser);
      ParseGroupsDetermined(all, parser, Ok([h.value] + p.value));
    }
  }

  /** A failure after a parsed prefix is the outcome of the whole. */
  lemma ParseGroupsFailsAt(texts: seq<GroupText>, i: nat, parser: GroupParser)
    requires i < |texts| && ParseGroups(texts[..i], parser).Ok?
    requires parser(texts[i].groupNumber, texts[i].text).Err?
    ensures ParseGroups(texts, parser) == Err(parser(texts[i].groupNumber, texts[i].text).error)
  {
    var prefix := texts[..i];
    ParseGroupsOutcome(prefix, parser);
    assert forall j :: 0 <= j < i ==> prefix[j] == texts[j];
    assert FailsFirstAt(texts, parser, i, parser(texts[i].groupNumber, texts[i].text).error);
    ParseGroupsDetermined(texts, parser, Err(parser(texts[i].groupNumber, texts[i].text).error));
  }

  /** Removing the closing braces keeps a leading '{', so deleting it afterwards leaves the rest without them. */
  lemma RemoveThenDeleteFirst(s: string)
    requires |s| > 0 && s[0] == GROUP_START
    ensures |Without(s, GROUP_END)| > 0
    ensures Without(s, GROUP_END)[1..] == Without(s[1..], GROUP_END)
  {
    var head: string := [GROUP_START];
    var tail := s[1..];
    assert s == head + tail;
    WithoutAppend(head, tail, GROUP_END);
    assert Without(head, GROUP_END) == [GROUP_START] by {
      assert head[..0] == [];
      assert Without(head[..0], GROUP_END) == [];
    }
    var w := Without(tail, GROUP_END);
    assert Without(s, GROUP_END) == [GROUP_START] + w;
    assert ([GROUP_START] + w)[1..] == w;
  }

  /** The groups of a refinement: its texts cut and each parsed in turn. */
  function GroupsOf(s: string, parser: GroupParser): Result<seq<BatchImportGroup>> {
    var texts :- SplitGroups(s);
    ParseGroups(texts, parser)
  }

  /** The loop of the bracketed case: the texts parsed in order as groups 1, 2, ..., stopping at the first failure. */
  method ParseNumberedGroups(arrGroup: seq<string>, parser: GroupParser) returns (r: Result<seq<BatchImportGroup>>)
    ensures r == ParseGroups(Numbered(arrGroup, 1), parser)
  {
    ghost var texts := Numbered(arrGroup, 1);
    var groups: seq<BatchImportGroup> := [];
    var groupNumber := 0;
    for i := 0 to |arrGroup|
      invariant groupNumber == i
      invariant ParseGroups(texts[..i], parser) == Ok(groups)
    {
      assert texts[..i + 1][..i] == texts[..i];
      groupNumber := groupNumber + 1;
      var newGroup := parser(groupNumber, arrGroup[i]);
      if newGroup.Err? {
        ParseGroupsFailsAt(texts, i, parser);
        return Err(newGroup.error);
      }
      groups := groups + [newGroup.value];
    }
    assert texts[..|arrGroup|] == texts;
    return Ok(groups);
  }

  /**
   * `extractGroups`: in the bracketed case the closing braces are removed,
   * the opening one deleted, and the groups parsed in a loop numbered from 1;
   * ungrouped attributes before a '{' are parsed as group 0 and the rest of
   * the text handed to a fresh buffer and a recursive call.
   */
  method ExtractGroups(expressionBuff: StringBuffer, parser: GroupParser) returns (r: Result<seq<BatchImportGroup>>)
    modifies expressionBuff
    decreases |expressionBuff.chars|
    ensures r == GroupsOf(old(expressionBuff.chars), parser)
  {
    ghost var s := expressionBuff.chars;
    if |expressionBuff.chars| == 0 {
      return Ok([]);
    } else if expressionBuff.chars[0] == GROUP_START {
      RemoveThenDeleteFirst(s);
      GroupsOfBracketed(s, parser);
      Remove(expressionBuff, GROUP_END);
      ghost var removed := expressionBuff.chars;
      expressionBuff.DeleteCharAt(0);
      assert expressionBuff.chars == removed[1..] == Without(s[1..], GROUP_END);
      var arrGroup := Split(expressionBuff.chars, GROUP_START);
      r := ParseNumberedGroups(arrGroup, parser);
    } else if IsDigit(expressionBuff.chars[0]) {
      // `indexOf(String)` on the buffer itself, not the parser's own search.
      var nextGroupOpen := FirstIndexOf(expressionBuff.chars, [GROUP_START], 0);
      var nextGroupClose := FirstIndexOf(expressionBuff.chars, [GROUP_END], 0);
      if nextGroupOpen == -1 && nextGroupClose == -1 {
        GroupsOfUngroupedOnly(s, parser);
        var newGroup := parser(0, expressionBuff.chars);
        if newGroup.Err? {
          return Err(newGroup.error);
        }
        return Ok([newGroup.value]);
      } else if nextGroupOpen > -1 && nextGroupClose > nextGroupOpen {
        GroupsOfUngroupedFirst(s, nextGroupOpen, parser);
        var newGroup := parser(0, expressionBuff.chars[..nextGroupOpen]);
        if newGroup.Err? {
          return Err(newGroup.error);
        }
        var remainder := new StringBuffer(expressionBuff.chars[nextGroupOpen..]);
        var rest := ExtractGroups(remainder, parser);
        if rest.Err? {
          return Err(rest.error);
        }
        return Ok([newGroup.value] + rest.value);
      } else {
        return Err("Unable to separate grouped from ungrouped attributes in: " + expressionBuff.chars);
      }
    } else {
      return Err("Unable to parse attributes groups from: " + expressionBuff.chars);
    }
  }

  /** A refinement opening with '{': its groups, numbered from 1, are those of the rest without closing braces. */
  lemma GroupsOfBracketed(s: string, parser: GroupParser)
    requires |s| > 0 && s[0] == GROUP_START
    ensures GroupsOf(s, parser) == ParseGroups(Numbered(Split(Without(s[1..], GROUP_END), GROUP_START), 1), parser)
  {
    assert SplitGroups(s) == Ok(Numbered(Split(Without(s[1..], GROUP_END), GROUP_START), 1));
  }

  /** A brace-free refinement starting with a digit is the single group 0. */
  lemma GroupsOfUngroupedOnly(s: string, parser: GroupParser)
    requires |s| > 0 && IsDigit(s[0])
    requires FirstIndexOf(s, [GROUP_START], 0) == -1 && FirstIndexOf(s, [GROUP_END], 0) == -1
    ensures parser(0, s).Err? ==> GroupsOf(s, parser) == Err(parser(0, s).error)
    ensures parser(0, s).Ok? ==> GroupsOf(s, parser) == Ok([parser(0, s).value])
  {
    var texts := [GroupText(0, s)];
    assert SplitGroups(s) == Ok(texts);
    assert GroupsOf(s, parser) == ParseGroups(texts, parser);
    assert texts[..0] == [];
    assert ParseGroups(texts[..0], parser) == Ok([]);
    var g := parser(0, s);
    if g.Ok? {
      assert ParseGroups(texts, parser) == Ok([] + [g.value]);
      assert [] + [g.value] == [g.value];
    }
  }

  /** Ungrouped attributes before the first '{': group 0, then the groups of the text from that '{'. */
  lemma GroupsOfUngroupedFirst(s: string, o: int, parser: GroupParser)
    requires |s| > 0 && IsDigit(s[0])
    requires o == FirstIndexOf(s, [GROUP_START], 0) && o > -1
    requires FirstIndexOf(s, [GROUP_END], 0) > o
    ensures parser(0, s[..o]).Err? ==> GroupsOf(s, parser) == Err(parser(0, s[..o]).error)
    ensures parser(0, s[..o]).Ok? && GroupsOf(s[o..], parser).Err? ==> GroupsOf(s, parser) == Err(GroupsOf(s[o..], parser).error)
    ensures parser(0, s[..o]).Ok? && GroupsOf(s[o..], parser).Ok? ==>
      GroupsOf(s, parser) == Ok([parser(0, s[..o]).value] + GroupsOf(s[o..], parser).value)
  {
    assert s[0] != GROUP_START;
    var rest := SplitGroups(s[o..]);
    assert s[o..][0] == GROUP_START;
    assert rest.Ok?;
    var head := GroupText(0, s[..o]);
    assert SplitGroups(s) == Ok([head] + rest.value);
    assert GroupsOf(s, parser) == ParseGroups([head] + rest.value, parser);
    assert GroupsOf(s[o..], parser) == ParseGroups(rest.value, parser);
    ParseGroupsCons(head, rest.value, parser);
  }

  // ---------------------------------------------------------------------------
  // The whole parser

  /**
   * The parse of an expression: the machine-readable form, its definition
   * status, the focus concepts after it and the groups of what remains.
   */
  function Parse(expressionStr: string, parser: GroupParser): (r: Result<Expression>) {
    var machine :- MachineReadable(expressionStr);
    var status :- DefinitionStatusOf(machine);
    var afterStatus := machine[|FULLY_DEFINED|..];
    var groups :- GroupsOf(RefinementOf(afterStatus), parser);
    Ok(Expression(status, FocusConceptsOf(afterStatus), groups))
  }

  /** `parse(expressionStr, moduleId)`: the three stages applied in turn to one buffer. */
  method ParseExpression(expressionStr: string, parser: GroupParser) returns (r: Result<Expression>)
    ensures r == Parse(expressionStr, parser)
  {
    var expressionBuff := new StringBuffer(expressionStr);
    var readable := MakeMachineReadable(expressionBuff);
    if readable.Err? {
      return Err(readable.error);
    }
    var definitionStatus := ExtractDefinitionStatus(expressionBuff);
    if definitionStatus.Err? {
      return Err(definitionStatus.error);
    }
    var focusConcepts := ExtractFocusConcepts(expressionBuff);
    var attributeGroups := ExtractGroups(expressionBuff, parser);
    if attributeGroups.Err? {
      return Err(attributeGroups.error);
    }
    return Ok(Expression(definitionStatus.value, focusConcepts, attributeGroups.value));
  }

  /**
   * What a successful parse promises: the status comes from the leading
   * token of the machine-readable text, and the focus concepts hold no
   * annotation, space, separator or refinement character.
   */
  lemma ParseResult(expressionStr: string, parser: GroupParser)
    requires Parse(expressionStr, parser).Ok?
    ensures var machine := MachineReadable(expressionStr).value;
      var e := Parse(expressionStr, parser).value;
      (e.definitionStatus == FullyDefined <==> FULLY_DEFINED <= machine) &&
      (e.definitionStatus == Primitive <==> PRIMITIVE <= machine)
    ensures var e := Parse(expressionStr, parser).value;
      forall k :: 0 <= k < |e.focusConcepts| ==>
        PIPE !in e.focusConcepts[k] && SPACE !in e.focusConcepts[k] &&
        FOCUS_CONCEPT_SEPARATOR !in e.focusConcepts[k] && ':' !in e.focusConcepts[k] && GROUP_START !in e.focusConcepts[k]
  {
    var machine := MachineReadable(expressionStr).value;
    var status := DefinitionStatusOf(machine);
    var afterStatus := machine[|FULLY_DEFINED|..];
    var focus := FocusConceptsOf(afterStatus);
    var e := Parse(expressionStr, parser).value;
    assert status.Ok? && e.definitionStatus == status.value && e.focusConcepts == focus;
    FocusPiecesClean(afterStatus);
    forall k | 0 <= k < |focus|
      ensures PIPE !in focus[k] && SPACE !in focus[k]
    {
      var prefix := afterStatus[..FocusEnd(afterStatus)];
      assert forall x :: x in focus[k] ==> x in prefix;
      assert forall x :: x in prefix ==> x in machine;
    }
  }
}
