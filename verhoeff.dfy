/**
 * The Verhoeff check digit that every SNOMED CT identifier ends with, as
 * `VerhoeffCheck.validateLastChecksumDigit` applies it: reading the digits from
 * the right, position i contributes the digit permuted i mod 8 times, the
 * contributions are combined in the dihedral group of order 10, and the
 * identifier is valid when the product is the identity 0. The tables are the
 * published ones.
 */
module Verhoeff {
  import opened Wrappers
  import opened JavaText

  type Digit = x: int | 0 <= x < 10

  /**
   * The group operation of D5, the published multiplication table written as
   * a formula: digits 0-4 are the rotations, 5-9 the reflections.
   */
  function Mul(a: Digit, b: Digit): Digit {
    if a < 5 && b < 5 then (a + b) % 5
    else if a < 5 then 5 + (a + b - 5) % 5
    else if b < 5 then 5 + (a - 5 - b) % 5
    else (a - b) % 5
  }

  /** The permutation (0 1 5 8 9 4 2 7)(3 6) of the published table's second row. */
  function Step(d: Digit): Digit {
    match d
    case 0 => 1 case 1 => 5 case 2 => 7 case 3 => 6 case 4 => 2
    case 5 => 8 case 6 => 3 case 7 => 0 case 8 => 9 case 9 => 4
  }

  /** The permutation table's row for a position: the second row applied `position mod 8` times. */
  function Perm(position: nat, d: Digit): Digit {
    Iterate(position % 8, d)
  }

  function Iterate(times: nat, d: Digit): Digit {
    if times == 0 then d else Step(Iterate(times - 1, d))
  }

  /** The digits of a string of decimal digits, rightmost first. */
  function DigitsFromRight(s: string): (r: seq<Digit>)
    requires AllDigits(s)
    ensures |r| == |s|
    ensures forall i :: 0 <= i < |r| ==> r[i] == DigitValue(s[|s| - 1 - i])
  {
    seq(|s|, i requires 0 <= i < |s| => DigitValue(s[|s| - 1 - i]) as Digit)
  }

  /** The group product of the permuted first n digits from the right, position 0 first. */
  function Product(fromRight: seq<Digit>, n: nat): Digit
    requires n <= |fromRight|
  {
    if n == 0 then 0 else Mul(Product(fromRight, n - 1), Perm(n - 1, fromRight[n - 1]))
  }

  /**
   * `validateLastChecksumDigit`: whether the id's check digit is right, or the
   * exception the check raises for a null id, an empty one or one with a
   * character that is not a digit.
   */
  function Check(id: Option<string>): (r: Result<bool>)
    ensures r.Ok? <==> id.Some? && |id.value| > 0 && AllDigits(id.value)
    ensures r.Ok? ==> (r.value <==> Product(DigitsFromRight(id.value), |id.value|) == 0)
  {
    match id
    case None => Err("null")
    case Some(s) =>
      if |s| == 0 then Err("String index out of range: -1")
      else if !AllDigits(s) then Err("For input string: \"" + s + "\"")
      else Ok(Product(DigitsFromRight(s), |s|) == 0)
  }

  /** The "is a" attribute's identifier passes the check. */
  lemma IsAPasses()
    ensures Check(Some("116680003")) == Ok(true)
  {
    var ds := DigitsFromRight("116680003");
    assert ds == [3, 0, 0, 0, 8, 6, 6, 1, 1];
    assert Product(ds, 1) == 3 && Product(ds, 2) == 4 && Product(ds, 3) == 9;
    assert Product(ds, 4) == 1 && Product(ds, 5) == 8 && Product(ds, 6) == 5;
    assert Product(ds, 7) == 4 && Product(ds, 8) == 4 && Product(ds, 9) == 0;
  }

  /** Changing its last digit makes the check fail. */
  lemma ChangedDigitFails()
    ensures Check(Some("116680004")) == Ok(false)
  {
    var ds := DigitsFromRight("116680004");
    assert ds == [4, 0, 0, 0, 8, 6, 6, 1, 1];
    assert Product(ds, 1) == 4 && Product(ds, 2) == 0 && Product(ds, 3) == 5;
    assert Product(ds, 4) == 2 && Product(ds, 5) == 9 && Product(ds, 6) == 6;
    assert Product(ds, 7) == 0 && Product(ds, 8) == 0 && Product(ds, 9) == 1;
  }

  // ---------------------------------------------------------------------------
  // What the scheme guarantees: a single mistyped digit is always caught

  /** Two numbers less than 5 apart with the same remainder modulo 5 are equal. */
  lemma ModFiveCancels(x: int, y: int)
    requires -5 < x - y < 5 && x % 5 == y % 5
    ensures x == y
  {
    assert x == 5 * (x / 5) + x % 5 && y == 5 * (y / 5) + y % 5;
  }

  /** A product is a rotation exactly when both factors are of the same kind. */
  lemma MulKind(a: Digit, b: Digit)
    ensures Mul(a, b) < 5 <==> (a < 5 <==> b < 5)
  {
  }

  lemma MulCancelsLeft(a: Digit, b: Digit, c: Digit)
    requires Mul(a, b) == Mul(a, c)
    ensures b == c
  {
    MulKind(a, b);
    MulKind(a, c);
    if a < 5 && b < 5 {
      ModFiveCancels(a + b, a + c);
    } else if a < 5 {
      ModFiveCancels(a + b - 5, a + c - 5);
    } else if b < 5 {
      ModFiveCancels(a - 5 - b, a - 5 - c);
    } else {
      ModFiveCancels(a - b, a - c);
    }
  }

  lemma MulCancelsRight(a: Digit, b: Digit, c: Digit)
    requires Mul(b, a) == Mul(c, a)
    ensures b == c
  {
    MulKind(b, a);
    MulKind(c, a);
    if a < 5 && b < 5 {
      ModFiveCancels(b + a, c + a);
    } else if b < 5 {
      ModFiveCancels(b + a - 5, c + a - 5);
    } else if a < 5 {
      ModFiveCancels(b - 5 - a, c - 5 - a);
    } else {
      ModFiveCancels(b - a, c - a);
    }
  }

  lemma {:induction false} IterateInjective(times: nat, x: Digit, y: Digit)
    requires Iterate(times, x) == Iterate(times, y)
    ensures x == y
  {
    if times > 0 {
      assert Step(Iterate(times - 1, x)) == Step(Iterate(times - 1, y));
      IterateInjective(times - 1, x, y);
    }
  }

  /** Products of digit strings that differ at position i alone differ once position i is included. */
  lemma {:induction false} ProductDetects(ds: seq<Digit>, es: seq<Digit>, i: nat, n: nat)
    requires |ds| == |es| && i < n <= |ds|
    requires ds[i] != es[i]
    requires forall k :: 0 <= k < |ds| && k != i ==> ds[k] == es[k]
    ensures Product(ds, n) != Product(es, n)
  {
    if n == i + 1 {
      ProductAgrees(ds, es, i);
      if Product(ds, n) == Product(es, n) {
        MulCancelsLeft(Product(ds, i), Perm(i, ds[i]), Perm(i, es[i]));
        IterateInjective(i % 8, ds[i], es[i]);
      }
    } else {
      ProductDetects(ds, es, i, n - 1);
      if Product(ds, n) == Product(es, n) {
        MulCancelsRight(Perm(n - 1, ds[n - 1]), Product(ds, n - 1), Product(es, n - 1));
      }
    }
  }

  lemma {:induction false} ProductAgrees(ds: seq<Digit>, es: seq<Digit>, n: nat)
    requires n <= |ds| && n <= |es|
    requires forall k :: 0 <= k < n ==> ds[k] == es[k]
    ensures Product(ds, n) == Product(es, n)
  {
    if n > 0 {
      ProductAgrees(ds, es, n - 1);
    }
  }

  /** An id that passes the check fails it once any one of its digits is changed to another digit. */
  lemma SingleSubstitutionDetected(s: string, t: string, j: nat)
    requires |s| == |t| && j < |s|
    requires AllDigits(s) && AllDigits(t)
    requires s[j] != t[j]
    requires forall k :: 0 <= k < |s| && k != j ==> s[k] == t[k]
    requires Check(Some(s)) == Ok(true)
    ensures Check(Some(t)) == Ok(false)
  {
    var ds := DigitsFromRight(s);
    var es := DigitsFromRight(t);
    var i := |s| - 1 - j;
    assert ds[i] != es[i];
    ProductDetects(ds, es, i, |s|);
  }
}
