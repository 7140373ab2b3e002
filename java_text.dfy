/**
 * The few pieces of the Java and Commons Lang text libraries that the batch
 * import code leans on, with the behaviour it relies on written out:
 * `StringBuffer` editing, `String.indexOf`, `String.split` with a one-character
 * pattern, `Character.isDigit`, `StringUtils.isNumericSpace`,
 * `String.toLowerCase`, `String.contains`, `Long.toString` and `Long.parseLong`.
 * Characters are taken to be ASCII, and case mapping is locale-neutral.
 */
module JavaText {

  // ---------------------------------------------------------------------------
  // Characters

  /** `Character.isDigit` on ASCII: '0' to '9'. */
  predicate IsDigit(c: char) {
    '0' <= c <= '9'
  }

  /** `StringUtils.isNumericSpace`: only digits and spaces (an empty string qualifies). */
  predicate IsNumericSpace(s: string) {
    forall i :: 0 <= i < |s| ==> IsDigit(s[i]) || s[i] == ' '
  }

  function LowerChar(c: char): char {
    if 'A' <= c <= 'Z' then (c as int - 'A' as int + 'a' as int) as char else c
  }

  /** `String.toLowerCase` restricted to ASCII, in a locale-neutral setting. */
  function ToLower(s: string): (r: string)
    ensures |r| == |s|
    ensures forall i :: 0 <= i < |s| ==> r[i] == LowerChar(s[i])
  {
    seq(|s|, i requires 0 <= i < |s| => LowerChar(s[i]))
  }

  function UpperChar(c: char): char {
    if 'a' <= c <= 'z' then (c as int - 'a' as int + 'A' as int) as char else c
  }

  lemma ToLowerIdempotent(s: string)
    ensures ToLower(ToLower(s)) == ToLower(s)
  {
  }

  // ---------------------------------------------------------------------------
  // Searching

  /**
   * The first index at or after `from` whose character is one of `needles`,
   * or -1: what the parser's `indexOf(buffer, needles, start)` and
   * `String.indexOf(char)` compute.
   */
  function FirstIndexOf(s: string, needles: seq<char>, from: nat): (r: int)
    decreases |s| - from
    ensures r == -1 || from <= r < |s|
    ensures r == -1 <==> forall j :: from <= j < |s| ==> s[j] !in needles
    ensures r != -1 ==> s[r] in needles && forall j :: from <= j < r ==> s[j] !in needles
  {
    if from >= |s| then -1
    else if s[from] in needles then from
    else FirstIndexOf(s, needles, from + 1)
  }

  predicate OccursAt(s: string, t: string, i: int) {
    0 <= i && i + |t| <= |s| && s[i..i + |t|] == t
  }

  /** `indexOf(String, from)` on a string or buffer: the first index at or after `from` where `t` occurs, or -1. */
  function IndexOfString(s: string, t: string, from: nat): (r: int)
    decreases |s| - from
    ensures r == -1 || (from <= r && OccursAt(s, t, r))
    ensures r == -1 ==> forall i :: from <= i ==> !OccursAt(s, t, i)
    ensures r != -1 ==> forall i :: from <= i < r ==> !OccursAt(s, t, i)
  {
    if from + |t| > |s| then -1
    else if s[from..from + |t|] == t then from
    else IndexOfString(s, t, from + 1)
  }

  /** The first occurrence is at the start exactly when the string begins with `t`. */
  lemma IndexOfStringAtStart(s: string, t: string)
    ensures IndexOfString(s, t, 0) == 0 <==> t <= s
  {
    if t <= s {
      assert OccursAt(s, t, 0);
    }
  }

  /** `String.contains`. */
  predicate Contains(s: string, t: string) {
    exists i | 0 <= i <= |s| - |t| :: OccursAt(s, t, i)
  }

  // ---------------------------------------------------------------------------
  // String.split with a one-character literal pattern and limit 0

  /** Every piece between occurrences of `c`, empty pieces included. */
  function SplitAll(s: string, c: char): (r: seq<string>)
    decreases |s|
    ensures |r| >= 1
    ensures forall k :: 0 <= k < |r| ==> c !in r[k]
    ensures forall k, x :: 0 <= k < |r| && x in r[k] ==> x in s
  {
    if |s| == 0 then [[]]
    else
      var rest := SplitAll(s[1..], c);
      assert s == [s[0]] + s[1..];
      if s[0] == c then [[]] + rest else [[s[0]] + rest[0]] + rest[1..]
  }

  /** The pieces joined back together with `c` between them. */
  function Join(pieces: seq<string>, c: char): string
    decreases |pieces|
  {
    if |pieces| == 0 then []
    else if |pieces| == 1 then pieces[0]
    else pieces[0] + [c] + Join(pieces[1..], c)
  }

  /** Drops the empty strings at the end of a split, as `split` with limit 0 does. */
  function DropTrailingEmpty(pieces: seq<string>): (r: seq<string>)
    decreases |pieces|
    ensures r <= pieces
    ensures |r| > 0 ==> r[|r| - 1] != []
    ensures forall k :: |r| <= k < |pieces| ==> pieces[k] == []
  {
    if |pieces| == 0 then []
    else if pieces[|pieces| - 1] == [] then DropTrailingEmpty(pieces[..|pieces| - 1])
    else pieces
  }

  /**
   * `s.split(c)`: the whole string when `c` does not occur in it, otherwise
   * the pieces between the occurrences without the trailing empty ones.
   */
  function Split(s: string, c: char): (r: seq<string>)
    ensures forall k :: 0 <= k < |r| ==> c !in r[k]
    ensures forall k, x :: 0 <= k < |r| && x in r[k] ==> x in s
  {
    if c !in s then [s] else DropTrailingEmpty(SplitAll(s, c))
  }

  lemma {:induction false} JoinSplitAll(s: string, c: char)
    ensures Join(SplitAll(s, c), c) == s
    decreases |s|
  {
    if |s| > 0 {
      var rest := SplitAll(s[1..], c);
      JoinSplitAll(s[1..], c);
      if s[0] == c {
        assert SplitAll(s, c) == [[]] + rest;
      } else {
        var r := [[s[0]] + rest[0]] + rest[1..];
        assert SplitAll(s, c) == r;
        if |rest| == 1 {
          assert Join(r, c) == [s[0]] + rest[0];
        } else {
          assert r[1..] == rest[1..];
          assert Join(r, c) == [s[0]] + rest[0] + [c] + Join(rest[1..], c);
        }
      }
    }
  }

  lemma {:induction false} JoinSnoc(pieces: seq<string>, last: string, c: char)
    requires |pieces| >= 1
    ensures Join(pieces + [last], c) == Join(pieces, c) + [c] + last
    decreases |pieces|
  {
    if |pieces| > 1 {
      assert (pieces + [last])[1..] == pieces[1..] + [last];
      JoinSnoc(pieces[1..], last, c);
    }
  }

  /** Joining the pieces before some trailing empty ones gives a prefix followed by separators only. */
  lemma {:induction false} JoinPrefixOfEmpties(pieces: seq<string>, n: nat, c: char)
    requires 1 <= n <= |pieces|
    requires forall k :: n <= k < |pieces| ==> pieces[k] == []
    ensures Join(pieces[..n], c) <= Join(pieces, c)
    ensures forall i :: |Join(pieces[..n], c)| <= i < |Join(pieces, c)| ==> Join(pieces, c)[i] == c
    decreases |pieces| - n
  {
    if n < |pieces| {
      JoinPrefixOfEmpties(pieces, n + 1, c);
      assert pieces[..n + 1] == pieces[..n] + [pieces[n]];
      JoinSnoc(pieces[..n], pieces[n], c);
      var short, long := Join(pieces[..n], c), Join(pieces[..n + 1], c);
      var full := Join(pieces, c);
      assert long == short + [c];
      assert long <= full;
      assert short == full[..|short|] by { assert short == long[..|short|]; }
      forall i | |short| <= i < |full| ensures full[i] == c {
        if i == |short| { assert full[i] == long[i]; }
      }
    } else {
      assert pieces[..n] == pieces;
    }
  }

  /**
   * What `split` returns loses nothing but separators: its pieces contain no
   * separator, and joining them gives a prefix of the input after which only
   * separators follow.
   */
  lemma SplitRecovers(s: string, c: char)
    ensures forall k :: 0 <= k < |Split(s, c)| ==> c !in Split(s, c)[k]
    ensures Join(Split(s, c), c) <= s
    ensures forall i :: |Join(Split(s, c), c)| <= i < |s| ==> s[i] == c
  {
    if c in s {
      var all := SplitAll(s, c);
      var r := DropTrailingEmpty(all);
      JoinSplitAll(s, c);
      if |r| == 0 {
        assert all[0] == [];
        JoinPrefixOfEmpties(all, 1, c);
        assert all[..1] == [all[0]];
        assert Join(all[..1], c) == [];
      } else {
        assert all[..|r|] == r;
        JoinPrefixOfEmpties(all, |r|, c);
      }
    }
  }

  // ---------------------------------------------------------------------------
  // Decimal numbers

  function DigitChar(d: nat): char
    requires d < 10
  {
    ('0' as int + d) as char
  }

  function DigitValue(c: char): nat
    requires IsDigit(c)
  {
    c as int - '0' as int
  }

  /** The value of a string of decimal digits. */
  function DecimalValue(s: string): nat
    requires forall i :: 0 <= i < |s| ==> IsDigit(s[i])
    decreases |s|
  {
    if |s| == 0 then 0 else DecimalValue(s[..|s| - 1]) * 10 + DigitValue(s[|s| - 1])
  }

  /** The decimal digits of `n`, without leading zeros. */
  function NatToString(n: nat): (r: string)
    decreases n
    ensures |r| >= 1
    ensures forall i :: 0 <= i < |r| ==> IsDigit(r[i])
    ensures |r| > 1 ==> r[0] != '0'
  {
    if n < 10 then [DigitChar(n)] else NatToString(n / 10) + [DigitChar(n % 10)]
  }

  /** `Long.toString`: a minus sign for negative numbers, then the digits. */
  function IntToString(n: int): string {
    if n < 0 then "-" + NatToString(-n) else NatToString(n)
  }

  lemma {:induction false} NatToStringRoundTrip(n: nat)
    ensures DecimalValue(NatToString(n)) == n
    decreases n
  {
    if n >= 10 {
      NatToStringRoundTrip(n / 10);
      var s := NatToString(n);
      assert s[..|s| - 1] == NatToString(n / 10);
    }
  }

  const LONG_MIN: int := -0x8000_0000_0000_0000
  const LONG_MAX: int := 0x7FFF_FFFF_FFFF_FFFF

  predicate AllDigits(s: string) {
    forall i :: 0 <= i < |s| ==> IsDigit(s[i])
  }

  /** `Long.parseLong` accepts the string: an optional sign, at least one digit, and a value in range. */
  predicate ParsesAsLong(s: string) {
    if |s| > 0 && (s[0] == '-' || s[0] == '+') then
      |s| > 1 && AllDigits(s[1..]) &&
      (if s[0] == '-' then DecimalValue(s[1..]) <= -LONG_MIN else DecimalValue(s[1..]) <= LONG_MAX)
    else
      |s| > 0 && AllDigits(s) && DecimalValue(s) <= LONG_MAX
  }

  /** Every `Long.toString` result is accepted by `Long.parseLong`. */
  lemma LongToStringParses(n: int)
    requires LONG_MIN <= n <= LONG_MAX
    ensures ParsesAsLong(IntToString(n))
  {
    var s := IntToString(n);
    if n < 0 {
      var digits := NatToString(-n);
      assert s == "-" + digits && s[0] == '-';
      assert s[1..] == digits;
      NatToStringRoundTrip(-n);
      assert DecimalValue(s[1..]) == -n <= -LONG_MIN;
    } else {
      var digits := NatToString(n);
      assert s == digits && IsDigit(s[0]);
      NatToStringRoundTrip(n);
      assert AllDigits(s) && DecimalValue(s) == n;
    }
  }

  // ---------------------------------------------------------------------------
  // java.lang.StringBuffer

  /** A mutable character buffer, edited in place by the expression parser. */
  class StringBuffer {
    var chars: string

    constructor (s: string)
      ensures chars == s
    {
      chars := s;
    }

    /** `delete(start, end)`: removes `[start, end)`, an `end` past the length being cut to it. */
    method Delete(start: nat, end: nat)
      requires start <= end && start <= |chars|
      modifies this
      ensures chars == old(chars)[..start] + old(chars)[(if end < |old(chars)| then end else |old(chars)|)..]
    {
      var stop := if end < |chars| then end else |chars|;
      chars := chars[..start] + chars[stop..];
    }

    /** `deleteCharAt(i)`. */
    method DeleteCharAt(i: nat)
      requires i < |chars|
      modifies this
      ensures chars == old(chars)[..i] + old(chars)[i + 1..]
    {
      chars := chars[..i] + chars[i + 1..];
    }
  }
}
