/**
 * The C library string and character primitives the pipeline relies on:
 * `strcmp`, `isspace`, `isdigit`, and the decimal value of a run of digits
 * (what `sscanf("%d")` and the digit loops of `simple_atof` accumulate).
 * Strings are `seq<char>` without the terminating NUL; no string of the
 * model contains a NUL character.
 */
module CStrings {

  /** `isspace` in the "C" locale: space, \t, \n, \v, \f and \r. */
  predicate IsSpace(c: char) {
    c == ' ' || ('\t' <= c <= '\r')
  }

  /** `isdigit`. */
  predicate IsDigit(c: char) {
    '0' <= c <= '9'
  }

  predicate AllDigits(s: string) {
    forall i :: 0 <= i < |s| ==> IsDigit(s[i])
  }

  /** `c - '0'` for a digit character. */
  function DigitVal(c: char): (d: nat)
    ensures d < 10
  {
    if IsDigit(c) then c as int - '0' as int else 0
  }

  function Pow10(n: nat): (p: nat)
    ensures p >= 1
  {
    if n == 0 then 1 else 10 * Pow10(n - 1)
  }

  /** The value `v = v * 10 + (c - '0')` accumulates over a run of digits, left to right. */
  function DigitsValue(s: string): nat
  {
    if s == [] then 0 else DigitsValue(s[..|s| - 1]) * 10 + DigitVal(s[|s| - 1])
  }

  /** A run of k digits denotes a number below 10^k. */
  lemma {:induction false} DigitsValueBound(s: string)
    ensures DigitsValue(s) < Pow10(|s|)
  {
    if s != [] {
      DigitsValueBound(s[..|s| - 1]);
    }
  }

  /** Reading the first digit apart: its weight is 10^(k-1). */
  lemma {:induction false} DigitsValueFront(s: string)
    requires s != []
    ensures DigitsValue(s) == DigitVal(s[0]) * Pow10(|s| - 1) + DigitsValue(s[1..])
  {
    if |s| > 1 {
      var init := s[..|s| - 1];
      DigitsValueFront(init);
      assert init[1..] == s[1..][..|s[1..]| - 1];
      assert init[0] == s[0];
      var d0, dl := DigitVal(s[0]), DigitVal(s[|s| - 1]);
      var x := DigitsValue(init[1..]);
      var q := Pow10(|s| - 2);
      assert DigitsValue(init) == d0 * q + x;
      assert DigitsValue(s[1..]) == x * 10 + dl;
      assert DigitsValue(s) == DigitsValue(init) * 10 + dl;
      assert Pow10(|s| - 1) == 10 * q;
      ShiftDigit(d0, q, x, dl);
    } else {
      assert s[1..] == [];
      assert s[..|s| - 1] == [];
    }
  }

  /**
   * `strcmp`, reduced to its sign: -1, 0 or 1. The end of a string compares
   * as NUL, below every character, so a proper prefix comes first.
   */
  function StrCmp(a: string, b: string): (r: int)
    ensures -1 <= r <= 1
    decreases |a|
  {
    if a == [] && b == [] then 0
    else if a == [] then -1
    else if b == [] then 1
    else if a[0] < b[0] then -1
    else if a[0] > b[0] then 1
    else StrCmp(a[1..], b[1..])
  }

  /** `strcmp(a, b) == 0` exactly when the strings are equal. */
  lemma {:induction false} StrCmpZero(a: string, b: string)
    ensures StrCmp(a, b) == 0 <==> a == b
    decreases |a|
  {
    if a != [] && b != [] && a[0] == b[0] {
      StrCmpZero(a[1..], b[1..]);
      if a[1..] == b[1..] {
        assert a == [a[0]] + a[1..] && b == [b[0]] + b[1..];
      }
    }
  }

  /** Swapping the arguments of `strcmp` flips its sign. */
  lemma {:induction false} StrCmpAntiSymmetric(a: string, b: string)
    ensures StrCmp(b, a) == -StrCmp(a, b)
    decreases |a|
  {
    if a != [] && b != [] && a[0] == b[0] {
      StrCmpAntiSymmetric(a[1..], b[1..]);
    }
  }

  /** `strcmp(a, b) <= 0` and `strcmp(b, c) <= 0` give `strcmp(a, c) <= 0`. */
  lemma {:induction false} StrCmpTransitive(a: string, b: string, c: string)
    requires StrCmp(a, b) <= 0 && StrCmp(b, c) <= 0
    ensures StrCmp(a, c) <= 0
    decreases |a|
  {
    if a != [] && b != [] && c != [] && a[0] == b[0] && b[0] == c[0] {
      StrCmpTransitive(a[1..], b[1..], c[1..]);
    }
  }

  /**
   * Comparing two strings whose first parts have equal length: the first parts
   * decide unless they are equal, and then the rest decides.
   */
  lemma {:induction false} StrCmpAppend(p: string, x: string, q: string, y: string)
    requires |p| == |q|
    ensures StrCmp(p + x, q + y) == if p == q then StrCmp(x, y) else StrCmp(p, q)
    decreases |p|
  {
    if p != [] {
      assert (p + x)[1..] == p[1..] + x && (q + y)[1..] == q[1..] + y;
      StrCmpAppend(p[1..], x, q[1..], y);
      if p[0] == q[0] && p[1..] == q[1..] {
        assert p == [p[0]] + p[1..] && q == [q[0]] + q[1..];
      }
    } else {
      assert p + x == x && q + y == y;
    }
  }

  /** The strict form: `strcmp(a, b) < 0` and `strcmp(b, c) <= 0` give `strcmp(a, c) < 0`. */
  lemma StrCmpStrictTransitive(a: string, b: string, c: string)
    requires StrCmp(a, b) < 0 && StrCmp(b, c) <= 0
    ensures StrCmp(a, c) < 0
  {
    StrCmpTransitive(a, b, c);
    StrCmpZero(a, c);
    if a == c {
      StrCmpAntiSymmetric(a, b);
      StrCmpZero(b, c);
    }
  }

  /**
   * Zero-padded decimals: for two digit strings of the same length,
   * `strcmp` order is numeric order. This is why the writer may sort the
   * "YYYY-MM" period keys as strings.
   */
  lemma {:induction false} StrCmpDigits(a: string, b: string)
    requires |a| == |b| && AllDigits(a) && AllDigits(b)
    ensures StrCmp(a, b) < 0 <==> DigitsValue(a) < DigitsValue(b)
    ensures StrCmp(a, b) == 0 <==> DigitsValue(a) == DigitsValue(b)
    decreases |a|
  {
    if a != [] {
      var p := Pow10(|a| - 1);
      DigitsValueFront(a);
      DigitsValueFront(b);
      DigitsValueBound(a[1..]);
      DigitsValueBound(b[1..]);
      var da, db := DigitVal(a[0]), DigitVal(b[0]);
      if a[0] < b[0] {
        LeadingDigitDecides(da, db, p, DigitsValue(a[1..]), DigitsValue(b[1..]));
      } else if a[0] > b[0] {
        LeadingDigitDecides(db, da, p, DigitsValue(b[1..]), DigitsValue(a[1..]));
      } else {
        StrCmpDigits(a[1..], b[1..]);
      }
    }
  }

  /** A larger leading digit outweighs any remainder of the same length. */
  lemma LeadingDigitDecides(da: nat, db: nat, p: nat, ra: nat, rb: nat)
    requires da < db && ra < p
    ensures da * p + ra < db * p + rb
  {
    assert (da + 1) * p <= db * p;
  }

  /** Appending a digit on the right multiplies the weight of the leading digit by 10. */
  lemma ShiftDigit(d0: nat, q: nat, x: nat, dl: nat)
    ensures (d0 * q + x) * 10 + dl == d0 * (10 * q) + (x * 10 + dl)
  {
  }

  // Runs of whitespace

  /** The end of the run of whitespace that starts at i. */
  function SpacesEnd(s: string, i: nat): (e: nat)
    requires i <= |s|
    ensures i <= e <= |s|
    ensures forall k :: i <= k < e ==> IsSpace(s[k])
    ensures e < |s| ==> !IsSpace(s[e])
    decreases |s| - i
  {
    if i < |s| && IsSpace(s[i]) then SpacesEnd(s, i + 1) else i
  }

  /** Whitespace up to the end: the run reaches the end. */
  lemma {:induction false} SpacesEndAll(s: string, i: nat)
    requires i <= |s|
    requires forall k :: i <= k < |s| ==> IsSpace(s[k])
    ensures SpacesEnd(s, i) == |s|
    decreases |s| - i
  {
    if i < |s| {
      SpacesEndAll(s, i + 1);
    }
  }

  /** A run that stops at a non-space j is the run `SpacesEnd` finds. */
  lemma {:induction false} SpacesEndAt(s: string, i: nat, j: nat)
    requires i <= j < |s|
    requires forall k :: i <= k < j ==> IsSpace(s[k])
    requires !IsSpace(s[j])
    ensures SpacesEnd(s, i) == j
    decreases j - i
  {
    if i < j {
      SpacesEndAt(s, i + 1, j);
    }
  }

  /** Nothing but whitespace. */
  predicate AllSpace(s: string) {
    forall i :: 0 <= i < |s| ==> IsSpace(s[i])
  }
}
