/**
 * The line parser of the chunk-parallel implementation: `comma_to_dot`,
 * the strict number recogniser `simple_atof`, the `strtok` field split and
 * `parse_line`.
 *
 * A C string is modelled as the `seq<char>` of its characters before the
 * terminating NUL; `sscanf("%d")` is modelled on unsigned digit runs only.
 */
module CsvParse {
  import opened Wrappers
  import opened CStrings
  import opened ChunkTable

  // comma_to_dot

  /** Every ',' replaced by '.'. */
  function DotDecimal(s: string): string {
    seq(|s|, i requires 0 <= i < |s| => if s[i] == ',' then '.' else s[i])
  }

  /**
   * No ',' is left, every other character stays where it was, the length
   * is kept, and a second pass changes nothing.
   */
  lemma DotDecimalSpec(s: string)
    ensures |DotDecimal(s)| == |s|
    ensures forall i :: 0 <= i < |s| ==> DotDecimal(s)[i] != ','
    ensures forall i :: 0 <= i < |s| && s[i] != ',' ==> DotDecimal(s)[i] == s[i]
    ensures forall i :: 0 <= i < |s| && s[i] == ',' ==> DotDecimal(s)[i] == '.'
    ensures DotDecimal(DotDecimal(s)) == DotDecimal(s)
  {
  }

  /** `comma_to_dot`, in place. */
  method CommaToDot(a: array<char>)
    modifies a
    ensures a[..] == DotDecimal(old(a[..]))
  {
    var i := 0;
    while i < a.Length
      invariant 0 <= i <= a.Length
      invariant forall j :: 0 <= j < i ==> a[j] == (if old(a[j]) == ',' then '.' else old(a[j]))
      invariant forall j :: i <= j < a.Length ==> a[j] == old(a[j])
    {
      if a[i] == ',' {
        a[i] := '.';
      }
      i := i + 1;
    }
  }

  // simple_atof

  /** The end of the run of digits that starts at i. */
  function DigitsEnd(s: string, i: nat): (e: nat)
    requires i <= |s|
    ensures i <= e <= |s|
    ensures forall k :: i <= k < e ==> IsDigit(s[k])
    ensures e < |s| ==> !IsDigit(s[e])
    decreases |s| - i
  {
    if i < |s| && IsDigit(s[i]) then DigitsEnd(s, i + 1) else i
  }

  /** A run that ends where the digits stop is the run `DigitsEnd` finds. */
  lemma {:induction false} DigitsEndAt(s: string, i: nat, j: nat)
    requires i <= j <= |s|
    requires forall k :: i <= k < j ==> IsDigit(s[k])
    requires j < |s| ==> !IsDigit(s[j])
    ensures DigitsEnd(s, i) == j
    decreases j - i
  {
    if i < j {
      DigitsEndAt(s, i + 1, j);
    }
  }

  /** The length of an optional leading sign. */
  function SignLen(s: string): (n: nat)
    ensures n <= 1 && n <= |s|
  {
    if |s| > 0 && (s[0] == '+' || s[0] == '-') then 1 else 0
  }

  /** -1 after a leading '-', otherwise 1. */
  function SignOf(s: string): int {
    if |s| > 0 && s[0] == '-' then -1 else 1
  }

  /** `sign * (int_part + frac / scale)`. */
  function AtofValue(sign: int, intPart: nat, frac: real, scale: real): real
    requires scale != 0.0
  {
    sign as real * (intPart as real + frac / scale)
  }

  /**
   * `simple_atof`: an optional sign, digits, optionally '.' and more
   * digits, then nothing but whitespace; the value is
   * `sign * (int_part + frac / scale)`.
   */
  function SimpleAtof(s: string): Option<real> {
    var p0 := SignLen(s);
    var p1 := DigitsEnd(s, p0);
    if p1 == p0 then None else AtofAfterInt(s, p1, SignOf(s), DigitsValue(s[p0..p1]))
  }

  /** After the integer digits: a fraction when '.' follows, otherwise the trailing whitespace. */
  function AtofAfterInt(s: string, p: nat, sign: int, intPart: nat): Option<real>
    requires p <= |s|
  {
    if p < |s| && s[p] == '.' then AtofFraction(s, p + 1, sign, intPart)
    else AtofTail(s, p, sign, intPart, 0.0, 1.0)
  }

  /** After the '.': at least one digit, then the trailing whitespace. */
  function AtofFraction(s: string, q: nat, sign: int, intPart: nat): Option<real>
    requires q <= |s|
  {
    var e := DigitsEnd(s, q);
    if e == q then None else AtofTail(s, e, sign, intPart, DigitsValue(s[q..e]) as real, Pow10(e - q) as real)
  }

  /** Only whitespace may remain; then the value is delivered. */
  function AtofTail(s: string, p: nat, sign: int, intPart: nat, frac: real, scale: real): Option<real>
    requires p <= |s| && scale != 0.0
  {
    if SpacesEnd(s, p) < |s| then None else Some(AtofValue(sign, intPart, frac, scale))
  }

  /**
   * The grammar `[+|-]DDD[.DDD]` followed by whitespace, with its parts
   * located: a sign of length i, the integer digits s[i..j], then either
   * nothing (k == j) or '.' and the fraction digits s[j+1..k], then only
   * whitespace from k on.
   */
  predicate NumeralAt(s: string, i: nat, j: nat, k: nat) {
    i <= 1 && i < j <= k <= |s| &&
    (i == 1 ==> s[0] == '+' || s[0] == '-') &&
    AllDigits(s[i..j]) &&
    (k == j || (j + 1 < k && s[j] == '.' && AllDigits(s[j + 1..k]))) &&
    AllSpace(s[k..])
  }

  /** The number a located numeral denotes. */
  function NumeralValue(s: string, i: nat, j: nat, k: nat): real
    requires NumeralAt(s, i, j, k)
  {
    var frac := if k == j then 0 else DigitsValue(s[j + 1..k]);
    var digits := if k == j then 0 else k - j - 1;
    AtofValue(SignOf(s), DigitsValue(s[i..j]), frac as real, Pow10(digits) as real)
  }

  /** Everything `simple_atof` accepts is a numeral, and it yields the numeral's value. */
  lemma AtofSound(s: string)
    requires SimpleAtof(s).Some?
    ensures exists i, j, k :: NumeralAt(s, i, j, k) && SimpleAtof(s).value == NumeralValue(s, i, j, k)
  {
    var p0 := SignLen(s);
    var p1 := DigitsEnd(s, p0);
    assert AllDigits(s[p0..p1]);
    if p1 < |s| && s[p1] == '.' {
      var p2 := DigitsEnd(s, p1 + 1);
      assert AllDigits(s[p1 + 1..p2]);
      assert AllSpace(s[p2..]);
      assert NumeralAt(s, p0, p1, p2);
    } else {
      assert AllSpace(s[p1..]);
      assert NumeralAt(s, p0, p1, p1);
    }
  }

  /** Every numeral is accepted, with its value. */
  lemma AtofComplete(s: string, i: nat, j: nat, k: nat)
    requires NumeralAt(s, i, j, k)
    ensures SimpleAtof(s) == Some(NumeralValue(s, i, j, k))
  {
    AtofIntegerPart(s, i, j, k);
    var sign, ip := SignOf(s), DigitsValue(s[i..j]);
    if k == j {
      AtofNoFraction(s, j, sign, ip);
    } else {
      AtofWithFraction(s, j, k, sign, ip);
    }
  }

  /** Integer digits followed only by whitespace. */
  lemma AtofNoFraction(s: string, j: nat, sign: int, ip: nat)
    requires j <= |s| && AllSpace(s[j..]) && (j < |s| ==> s[j] != '.')
    ensures AtofAfterInt(s, j, sign, ip) == Some(AtofValue(sign, ip, 0.0, 1.0))
  {
    TailComplete(s, j);
  }

  /** Integer digits, '.', the fraction digits up to k, then only whitespace. */
  lemma AtofWithFraction(s: string, j: nat, k: nat, sign: int, ip: nat)
    requires j + 1 < k <= |s| && s[j] == '.' && AllDigits(s[j + 1..k]) && AllSpace(s[k..])
    ensures AtofAfterInt(s, j, sign, ip) ==
      Some(AtofValue(sign, ip, DigitsValue(s[j + 1..k]) as real, Pow10(k - j - 1) as real))
  {
    FractionEnd(s, j, k);
    TailComplete(s, k);
  }

  /** A numeral's sign and integer digits are read as located. */
  lemma AtofIntegerPart(s: string, i: nat, j: nat, k: nat)
    requires NumeralAt(s, i, j, k)
    ensures SimpleAtof(s) == AtofAfterInt(s, j, SignOf(s), DigitsValue(s[i..j]))
  {
    assert IsDigit(s[i..j][0]);
    assert SignLen(s) == i;
    DigitsRunEnd(s, i, j, k);
  }

  /** In a numeral the integer digits run exactly from i to j. */
  lemma DigitsRunEnd(s: string, i: nat, j: nat, k: nat)
    requires NumeralAt(s, i, j, k)
    ensures DigitsEnd(s, i) == j
  {
    forall m | i <= m < j ensures IsDigit(s[m]) {
      assert s[i..j][m - i] == s[m];
    }
    if j < |s| && k == j {
      assert s[k..][0] == s[j];
    }
    DigitsEndAt(s, i, j);
  }

  /** In a numeral with a fraction, its digits run exactly from j + 1 to k. */
  lemma FractionEnd(s: string, j: nat, k: nat)
    requires j + 1 < k <= |s| && AllDigits(s[j + 1..k]) && AllSpace(s[k..])
    ensures DigitsEnd(s, j + 1) == k
  {
    forall m | j + 1 <= m < k ensures IsDigit(s[m]) {
      assert s[j + 1..k][m - j - 1] == s[m];
    }
    if k < |s| {
      assert s[k..][0] == s[k];
    }
    DigitsEndAt(s, j + 1, k);
  }

  /** Nothing but whitespace after position k: the value is delivered. */
  lemma TailComplete(s: string, k: nat)
    requires k <= |s| && AllSpace(s[k..])
    ensures SpacesEnd(s, k) == |s|
  {
    forall m | k <= m < |s| ensures IsSpace(s[m]) {
      assert s[k..][m - k] == s[m];
    }
    SpacesEndAll(s, k);
  }

  /** What the recogniser refuses: nothing, no integer digits, no fraction digits, trailing garbage. */
  lemma AtofRejects()
    ensures SimpleAtof("") == None
    ensures SimpleAtof(".5") == None
    ensures SimpleAtof("1.") == None
    ensures SimpleAtof("1.2x") == None
  {
    assert DigitsEnd("", 0) == 0;
    assert DigitsEnd(".5", 0) == 0;
    DigitsEndAt("1.", 0, 1);
    DigitsEndAt("1.", 2, 2);
    DigitsEndAt("1.2x", 0, 1);
    DigitsEndAt("1.2x", 2, 3);
    assert SpacesEnd("1.2x", 3) == 3;
  }

  /** A signed decimal with a fraction: sign * (12 + 50 / 100). */
  lemma AtofSignedFraction()
    ensures SimpleAtof("-12.50") == Some(-12.5)
  {
    var n := "-12.50";
    DigitsEndAt(n, 1, 3);
    DigitsEndAt(n, 4, 6);
    SpacesEndAll(n, 6);
    assert n[1..3] == "12" && n[4..6] == "50";
    assert DigitsValue("12") == 12 by {
      assert "12"[..1] == "1";
    }
    assert DigitsValue("50") == 50 by {
      assert "50"[..1] == "5";
    }
    assert Pow10(2) == 100;
  }

  /** An integer followed by the line's newline. */
  lemma AtofTrailingSpace()
    ensures SimpleAtof("7\n") == Some(7.0)
  {
    var n := "7\n";
    DigitsEndAt(n, 0, 1);
    SpacesEndAll(n, 1);
    assert n[0..1] == "7";
  }

  /** A digit loop of `simple_atof`: `v = v * 10 + (c - '0')` while the character is a digit. */
  method ScanDigits(s: string, i: nat) returns (e: nat, v: nat)
    requires i <= |s|
    ensures e == DigitsEnd(s, i) && v == DigitsValue(s[i..e])
  {
    e, v := i, 0;
    while e < |s| && IsDigit(s[e])
      invariant i <= e <= |s|
      invariant forall m :: i <= m < e ==> IsDigit(s[m])
      invariant v == DigitsValue(s[i..e])
      decreases |s| - e
    {
      DigitsValueSnoc(s, i, e);
      v := v * 10 + DigitVal(s[e]);
      e := e + 1;
    }
    DigitsEndAt(s, i, e);
  }

  /** The fraction loop of `simple_atof`: digits accumulate in `frac` while `scale` grows tenfold. */
  method ScanFraction(s: string, i: nat) returns (e: nat, frac: real, scale: real)
    requires i <= |s|
    ensures e == DigitsEnd(s, i) && frac == DigitsValue(s[i..e]) as real && scale == Pow10(e - i) as real
  {
    e, frac, scale := i, 0.0, 1.0;
    while e < |s| && IsDigit(s[e])
      invariant i <= e <= |s|
      invariant forall m :: i <= m < e ==> IsDigit(s[m])
      invariant frac == DigitsValue(s[i..e]) as real
      invariant scale == Pow10(e - i) as real
      decreases |s| - e
    {
      DigitsValueSnoc(s, i, e);
      frac := frac * 10.0 + DigitVal(s[e]) as real;
      scale := scale * 10.0;
      e := e + 1;
    }
    DigitsEndAt(s, i, e);
  }

  /** `simple_atof`, advancing through the string as the C code does. */
  method SimpleAtofScan(s: string) returns (ok: bool, value: real)
    ensures ok <==> SimpleAtof(s).Some?
    ensures ok ==> value == SimpleAtof(s).value
  {
    var p := 0;
    var sign := 1;
    if p < |s| && (s[p] == '+' || s[p] == '-') {
      if s[p] == '-' {
        sign := -1;
      }
      p := p + 1;
    }
    assert p == SignLen(s) && sign == SignOf(s);
    if !(p < |s| && IsDigit(s[p])) {
      return false, 0.0;
    }
    var intPart;
    p, intPart := ScanDigits(s, p);
    ok, value := ScanAfterInt(s, p, sign, intPart);
  }

  /** The rest of `simple_atof` once the integer digits are read. */
  method ScanAfterInt(s: string, p: nat, sign: int, intPart: nat) returns (ok: bool, value: real)
    requires p <= |s|
    ensures ok <==> AtofAfterInt(s, p, sign, intPart).Some?
    ensures ok ==> value == AtofAfterInt(s, p, sign, intPart).value
  {
    if p < |s| && s[p] == '.' {
      if !(p + 1 < |s| && IsDigit(s[p + 1])) {
        return false, 0.0;
      }
      var e, frac, scale := ScanFraction(s, p + 1);
      ok, value := ScanTail(s, e, sign, intPart, frac, scale);
    } else {
      ok, value := ScanTail(s, p, sign, intPart, 0.0, 1.0);
    }
  }

  /** The trailing-whitespace loop of `simple_atof`, and its verdict. */
  method ScanTail(s: string, p: nat, sign: int, intPart: nat, frac: real, scale: real) returns (ok: bool, value: real)
    requires p <= |s| && scale != 0.0
    ensures ok <==> AtofTail(s, p, sign, intPart, frac, scale).Some?
    ensures ok ==> value == AtofTail(s, p, sign, intPart, frac, scale).value
  {
    var e := p;
    while e < |s| && IsSpace(s[e])
      invariant p <= e <= |s|
      invariant forall m :: p <= m < e ==> IsSpace(s[m])
      decreases |s| - e
    {
      e := e + 1;
    }
    if e < |s| {
      SpacesEndAt(s, p, e);
      return false, 0.0;
    }
    SpacesEndAll(s, p);
    ok := true;
    value := AtofValue(sign, intPart, frac, scale);
  }

  /** One more digit: the value shifts one place and the digit is added. */
  lemma DigitsValueSnoc(s: string, a: nat, p: nat)
    requires a <= p < |s|
    ensures DigitsValue(s[a..p + 1]) == DigitsValue(s[a..p]) * 10 + DigitVal(s[p])
  {
    assert s[a..p + 1][..p - a] == s[a..p];
  }

  // strtok

  /** The length of the leading run of characters other than '|'. */
  function FieldLen(s: string): (n: nat)
    ensures n <= |s|
    ensures forall i :: 0 <= i < n ==> s[i] != '|'
    ensures n < |s| ==> s[n] == '|'
  {
    if s == [] || s[0] == '|' then 0 else 1 + FieldLen(s[1..])
  }

  /** The fields between the '|' separators, empty ones included. */
  function Fields(s: string): seq<string>
    decreases |s|
  {
    var n := FieldLen(s);
    if n == |s| then [s] else [s[..n]] + Fields(s[n + 1..])
  }

  /** `strtok(…, "|")`: skip separators, take the run up to the next one, repeat. */
  function Tokens(s: string): seq<string>
    decreases |s|
  {
    if s == [] then []
    else if s[0] == '|' then Tokens(s[1..])
    else
      var n := FieldLen(s);
      [s[..n]] + Tokens(s[n..])
  }

  /** The fields that are not empty, in order. */
  function NonEmpty(fs: seq<string>): seq<string> {
    if fs == [] then [] else (if fs[0] == [] then [] else [fs[0]]) + NonEmpty(fs[1..])
  }

  /**
   * `strtok` drops empty fields: its tokens are the non-empty fields. So
   * the token counter `col` of `parse_line` counts non-empty fields only,
   * and an empty field moves every later field one column to the left.
   */
  lemma {:induction false} TokensAreNonEmptyFields(s: string)
    ensures Tokens(s) == NonEmpty(Fields(s))
    decreases |s|
  {
    if s == [] {
      assert Fields(s) == [[]];
    } else if s[0] == '|' {
      TokensAreNonEmptyFields(s[1..]);
      assert Fields(s) == [[]] + Fields(s[1..]);
    } else {
      var n := FieldLen(s);
      if n == |s| {
        assert s[..n] == s && s[n..] == [];
        assert Fields(s) == [s];
        assert [s][1..] == [];
        assert NonEmpty([s]) == [s] + NonEmpty([]);
      } else {
        TokensAreNonEmptyFields(s[n + 1..]);
        assert s[n..][1..] == s[n + 1..];
        assert Tokens(s[n..]) == Tokens(s[n + 1..]);
        var fs := Fields(s);
        assert fs == [s[..n]] + Fields(s[n + 1..]);
        assert fs[0] == s[..n] && fs[1..] == Fields(s[n + 1..]);
      }
    }
  }

  /** Every token is non-empty and holds no '|': the empty-token test of `parse_line` never fires. */
  lemma {:induction false} TokensShape(s: string)
    ensures forall t :: t in Tokens(s) ==> t != [] && '|' !in t
    decreases |s|
  {
    if s != [] {
      if s[0] == '|' {
        TokensShape(s[1..]);
      } else {
        var n := FieldLen(s);
        TokensShape(s[n..]);
        assert forall i :: 0 <= i < n ==> s[..n][i] != '|';
      }
    }
  }

  /** An empty field shifts the later fields: the third field of "a||b" is the second token. */
  lemma ColumnShiftExample()
    ensures Fields("a||b") == ["a", "", "b"]
    ensures Tokens("a||b") == ["a", "b"]
  {
    var s := "a||b";
    assert FieldLen("b") == 1 by {
      assert "b"[1..] == [];
    }
    assert "b"[..1] == "b" && "b"[1..] == [];
    assert Tokens("b") == ["b"] + Tokens([]);
    assert "|b"[1..] == "b" && FieldLen("|b") == 0;
    assert Tokens("|b") == Tokens("b");
    assert "||b"[1..] == "|b";
    assert Tokens("||b") == Tokens("|b");
    assert FieldLen(s) == 1 by {
      assert s[1..][0] == '|';
    }
    assert s[..1] == "a" && s[1..] == "||b";
    assert Tokens(s) == ["a"] + Tokens("||b");
    assert Fields("b") == ["b"];
    assert "|b"[..0] == "";
    assert Fields("|b") == [""] + Fields("b");
    assert s[2..] == "|b";
    assert Fields(s) == ["a"] + Fields("|b");
  }

  /** The number of '|' characters. */
  function PipeCount(s: string): nat {
    if s == [] then 0 else (if s[0] == '|' then 1 else 0) + PipeCount(s[1..])
  }

  /** There is one field more than there are separators. */
  lemma {:induction false} FieldsCount(s: string)
    ensures |Fields(s)| == PipeCount(s) + 1
    decreases |s|
  {
    var n := FieldLen(s);
    PipeCountSplit(s, n);
    if n < |s| {
      FieldsCount(s[n + 1..]);
      assert s[n..][1..] == s[n + 1..];
    }
  }

  lemma {:induction false} PipeCountSplit(s: string, n: nat)
    requires n <= |s| && forall i :: 0 <= i < n ==> s[i] != '|'
    ensures PipeCount(s) == PipeCount(s[n..])
    decreases n
  {
    if n > 0 {
      PipeCountSplit(s[1..], n - 1);
      assert s[1..][n - 1..] == s[n..];
    }
  }

  /** The separator count loop of `parse_line`. */
  method CountPipes(s: string) returns (n: nat)
    ensures n == PipeCount(s)
  {
    n := 0;
    var i := 0;
    while i < |s|
      invariant 0 <= i <= |s|
      invariant n + PipeCount(s[i..]) == PipeCount(s)
    {
      assert s[i..][1..] == s[i + 1..];
      if s[i] == '|' {
        n := n + 1;
      }
      i := i + 1;
    }
  }

  // The date column

  /** A `%d` conversion (digits only): the number and what follows it. */
  datatype Scan = Scan(value: nat, rest: string)

  function ScanInt(s: string): (r: Option<Scan>)
    ensures r.Some? <==> (|s| > 0 && IsDigit(s[0]))
  {
    var e := DigitsEnd(s, 0);
    if e == 0 then None else Some(Scan(DigitsValue(s[..e]), s[e..]))
  }

  datatype YearMonth = YearMonth(year: int, month: int)

  /** The second conversion, `"%d/%d/%d"` into day, month and year, after a first number was read. */
  function SlashDate(a: Scan, year: int, month: int): YearMonth {
    if |a.rest| > 0 && a.rest[0] == '/' && ScanInt(a.rest[1..]).Some? then
      var b := ScanInt(a.rest[1..]).value;
      if |b.rest| > 0 && b.rest[0] == '/' && ScanInt(b.rest[1..]).Some? then YearMonth(ScanInt(b.rest[1..]).value.value, b.value)
      else YearMonth(year, b.value)
    else YearMonth(year, month)
  }

  /**
   * The date column: `"%d-%d"` into year and month; when that does not
   * convert both, `"%d/%d/%d"` into day, month and year. Each conversion
   * stores what it read before stopping, so a lone number is stored as the
   * year by the first and then re-read as the day by the second.
   */
  function ParseDate(tok: string, year: int, month: int): YearMonth {
    match ScanInt(tok)
    case None => YearMonth(year, month)
    case Some(a) =>
      if |a.rest| > 0 && a.rest[0] == '-' && ScanInt(a.rest[1..]).Some? then
        YearMonth(a.value, ScanInt(a.rest[1..]).value.value)
      else SlashDate(a, a.value, month)
  }

  /** `%d` reads the leading run of e digits and stops at the first non-digit. */
  lemma ScanIntAt(s: string, e: nat)
    requires 0 < e <= |s| && AllDigits(s[..e]) && (e < |s| ==> !IsDigit(s[e]))
    ensures ScanInt(s) == Some(Scan(DigitsValue(s[..e]), s[e..]))
  {
    forall m | 0 <= m < e ensures IsDigit(s[m]) {
      assert s[..e][m] == s[m];
    }
    DigitsEndAt(s, 0, e);
  }

  /** `%d` on the digits from i to j of t, stopping at a non-digit or the end. */
  lemma ScanIntFrom(t: string, i: nat, j: nat)
    requires i < j <= |t| && AllDigits(t[i..j]) && (j < |t| ==> !IsDigit(t[j]))
    ensures ScanInt(t[i..]) == Some(Scan(DigitsValue(t[i..j]), t[j..]))
  {
    var u := t[i..];
    assert u[..j - i] == t[i..j] && u[j - i..] == t[j..];
    ScanIntAt(u, j - i);
  }

  /**
   * An ISO date: digits t[..i], '-', digits t[i+1..j], then a non-digit or
   * nothing, gives the year and the month those digits denote.
   */
  lemma ParseDateIso(t: string, i: nat, j: nat, year: int, month: int)
    requires 0 < i && i + 1 < j <= |t| && t[i] == '-'
    requires AllDigits(t[..i]) && AllDigits(t[i + 1..j]) && (j < |t| ==> !IsDigit(t[j]))
    ensures ParseDate(t, year, month) == YearMonth(DigitsValue(t[..i]), DigitsValue(t[i + 1..j]))
  {
    assert t[0..] == t && t[0..i] == t[..i];
    ScanIntFrom(t, 0, i);
    assert t[i..][1..] == t[i + 1..];
    ScanIntFrom(t, i + 1, j);
  }

  /**
   * A day/month/year date: digits t[..i], '/', digits t[i+1..j], '/', digits
   * t[j+1..k], then a non-digit or nothing. The first conversion stops after
   * the day, and the second gives the year and the month.
   */
  lemma ParseDateSlashed(t: string, i: nat, j: nat, k: nat, year: int, month: int)
    requires 0 < i && i + 1 < j && j + 1 < k <= |t| && t[i] == '/' && t[j] == '/'
    requires AllDigits(t[..i]) && AllDigits(t[i + 1..j]) && AllDigits(t[j + 1..k])
    requires k < |t| ==> !IsDigit(t[k])
    ensures ParseDate(t, year, month) == YearMonth(DigitsValue(t[j + 1..k]), DigitsValue(t[i + 1..j]))
  {
    var a := Scan(DigitsValue(t[..i]), t[i..]);
    assert ScanInt(t) == Some(a) by {
      assert t[0..] == t && t[0..i] == t[..i];
      ScanIntFrom(t, 0, i);
    }
    var b := Scan(DigitsValue(t[i + 1..j]), t[j..]);
    assert ScanInt(a.rest[1..]) == Some(b) by {
      assert t[i..][1..] == t[i + 1..];
      ScanIntFrom(t, i + 1, j);
    }
    assert ScanInt(b.rest[1..]) == Some(Scan(DigitsValue(t[j + 1..k]), t[k..])) by {
      assert t[j..][1..] == t[j + 1..];
      ScanIntFrom(t, j + 1, k);
    }
    assert ParseDate(t, year, month) == SlashDate(a, a.value, month);
  }

  /** A lone number is stored as the year by the first conversion; the month is left as it was. */
  lemma ParseDateLoneNumber(t: string, year: int, month: int)
    requires t != [] && AllDigits(t)
    ensures ParseDate(t, year, month) == YearMonth(DigitsValue(t), month)
  {
    assert t[..|t|] == t && t[|t|..] == [];
    ScanIntAt(t, |t|);
  }

  /** Without a number nothing is stored. */
  lemma ParseDateNoNumber(year: int, month: int)
    ensures ParseDate("", year, month) == YearMonth(year, month)
    ensures ParseDate("--", year, month) == YearMonth(year, month)
  {
  }

  // parse_line

  /** `double val[SENSOR_COUNT]`. */
  type Readings = vs: seq<real> | |vs| == SensorCount
    witness [0.0, 0.0, 0.0, 0.0, 0.0, 0.0]

  /** `int prs[SENSOR_COUNT]`. */
  type Presence = ps: seq<bool> | |ps| == SensorCount
    witness [false, false, false, false, false, false]

  /** What `parse_line` leaves in its out-parameters. */
  datatype ParsedLine = ParsedLine(device: string, year: int, month: int, val: Readings, prs: Presence)

  /** The reading of sensor k: the token in column k + 4, decimal comma accepted, if it is a number. */
  function SensorReading(toks: seq<string>, k: Sensor): Option<real> {
    if k + 4 < |toks| then SimpleAtof(DotDecimal(toks[k + 4])) else None
  }

  /**
   * `parse_line` on a line and the incoming device, year and month: a line
   * with fewer than 11 separators leaves them untouched and reports no
   * sensor; otherwise token 1 is the device (truncated to 63 characters),
   * token 3 the date, and tokens 4 to 9 the six sensors, each present when
   * it reads as a number.
   */
  function ParseLine(line: string, device: string, year: int, month: int): ParsedLine {
    if PipeCount(line) < 11 then
      ParsedLine(device, year, month, [0.0, 0.0, 0.0, 0.0, 0.0, 0.0], [false, false, false, false, false, false])
    else
      var toks := Tokens(line);
      var date := if |toks| > 3 then ParseDate(toks[3], year, month) else YearMonth(year, month);
      ParsedLine(
        if |toks| > 1 then Truncate(toks[1]) else device,
        date.year, date.month,
        seq(SensorCount, k requires 0 <= k < SensorCount =>
          match SensorReading(toks, k) case Some(v) => v case None => 0.0),
        seq(SensorCount, k requires 0 <= k < SensorCount => SensorReading(toks, k).Some?))
  }

  /** A short line leaves the out-parameters as they were and reports nothing. */
  lemma ShortLineUntouched(line: string, device: string, year: int, month: int)
    requires PipeCount(line) < 11
    ensures var p := ParseLine(line, device, year, month);
      p.device == device && p.year == year && p.month == month &&
      forall k :: 0 <= k < SensorCount ==> !p.prs[k] && p.val[k] == 0.0
  {
  }

  /**
   * A sensor is reported exactly when its column exists and reads as a
   * number, with that number as its value; absent sensors read 0.
   */
  lemma SensorColumns(line: string, device: string, year: int, month: int, k: Sensor)
    requires PipeCount(line) >= 11
    ensures var p, toks := ParseLine(line, device, year, month), Tokens(line);
      (p.prs[k] <==> k + 4 < |toks| && SimpleAtof(DotDecimal(toks[k + 4])).Some?) &&
      (p.prs[k] ==> p.val[k] == SimpleAtof(DotDecimal(toks[k + 4])).value) &&
      (!p.prs[k] ==> p.val[k] == 0.0)
  {
  }

  /** The device a parsed line reports is empty or an incoming one, or fits in `KEY_MAX`. */
  lemma ParsedDeviceFits(line: string, device: string, year: int, month: int)
    requires |device| < KeyMax
    ensures |ParseLine(line, device, year, month).device| < KeyMax
  {
  }

  /** A sensor column: `comma_to_dot` on the token in place, then `simple_atof`. */
  method ReadSensor(tok: string) returns (ok: bool, v: real)
    ensures ok <==> SimpleAtof(DotDecimal(tok)).Some?
    ensures ok ==> v == SimpleAtof(DotDecimal(tok)).value
  {
    var buf := new char[|tok|](i requires 0 <= i < |tok| => tok[i]);
    assert buf[..] == tok;
    CommaToDot(buf);
    ok, v := SimpleAtofScan(buf[..]);
  }

  /** The value a sensor reports: its reading, or 0 when it has none. */
  function ValueOf(r: Option<real>): real {
    match r case Some(v) => v case None => 0.0
  }

  /** The sensor values once the columns before `col` are read. */
  function ValuesUpTo(toks: seq<string>, col: nat): Readings {
    seq(SensorCount, k requires 0 <= k < SensorCount => if k + 4 < col then ValueOf(SensorReading(toks, k)) else 0.0)
  }

  /** The sensor flags once the columns before `col` are read. */
  function PresentUpTo(toks: seq<string>, col: nat): Presence {
    seq(SensorCount, k requires 0 <= k < SensorCount => k + 4 < col && SensorReading(toks, k).Some?)
  }

  /** Reading column `col` (a sensor column) updates that sensor alone, and only when it reads as a number. */
  lemma ReadColumn(toks: seq<string>, col: nat)
    requires 4 <= col <= 9 && col < |toks|
    ensures var r := SensorReading(toks, col - 4);
      (r.Some? ==> ValuesUpTo(toks, col + 1) == ValuesUpTo(toks, col)[col - 4 := r.value] &&
                   PresentUpTo(toks, col + 1) == PresentUpTo(toks, col)[col - 4 := true]) &&
      (r.None? ==> ValuesUpTo(toks, col + 1) == ValuesUpTo(toks, col) &&
                   PresentUpTo(toks, col + 1) == PresentUpTo(toks, col))
  {
  }

  /** Any other column leaves the sensors as they were. */
  lemma OtherColumn(toks: seq<string>, col: nat)
    requires col < 4 || col > 9
    ensures ValuesUpTo(toks, col + 1) == ValuesUpTo(toks, col) && PresentUpTo(toks, col + 1) == PresentUpTo(toks, col)
  {
  }

  /** Past the last column every sensor is read. */
  lemma AllColumns(line: string, device: string, year: int, month: int)
    requires PipeCount(line) >= 11
    ensures var p, toks := ParseLine(line, device, year, month), Tokens(line);
      p.val == ValuesUpTo(toks, |toks|) && p.prs == PresentUpTo(toks, |toks|)
  {
  }

  /** `parse_line`: the separator count, then the `strtok` loop over the columns. */
  method ParseLineScan(line: string, device: string, year: int, month: int) returns (p: ParsedLine)
    ensures p == ParseLine(line, device, year, month)
  {
    var val: Readings := [0.0, 0.0, 0.0, 0.0, 0.0, 0.0];
    var prs: Presence := [false, false, false, false, false, false];
    var pipeCount := CountPipes(line);
    if pipeCount < 11 {
      return ParsedLine(device, year, month, val, prs);
    }
    var toks := Tokens(line);
    var dev, y, m := device, year, month;
    var col := 0;
    while col < |toks|
      invariant 0 <= col <= |toks|
      invariant dev == if col > 1 then Truncate(toks[1]) else device
      invariant YearMonth(y, m) == if col > 3 then ParseDate(toks[3], year, month) else YearMonth(year, month)
      invariant val == ValuesUpTo(toks, col) && prs == PresentUpTo(toks, col)
    {
      var tok := toks[col];
      if col == 1 {
        dev := Truncate(tok);
      } else if col == 3 {
        var date := ParseDate(tok, y, m);
        y, m := date.year, date.month;
      }
      if 4 <= col <= 9 {
        ReadColumn(toks, col);
        var ok, v := ReadSensor(tok);
        if ok {
          val := val[col - 4 := v];
          prs := prs[col - 4 := true];
        }
      } else {
        OtherColumn(toks, col);
      }
      col := col + 1;
    }
    AllColumns(line, device, year, month);
    p := ParsedLine(dev, y, m, val, prs);
  }
}
