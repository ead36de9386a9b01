/**
 * Validation of a user-submitted current-account movement: the rule table
 * and the extra check that debe and haber are not both zero.
 *
 * Field values arrive as the request holds them: absent (`None`) or a
 * string. `fecha` arrives already read as a day number, `None` standing
 * for a missing value or one that is not a date.
 */
module MovementRequest {
  import opened Common
  import opened CurrentAccount

  datatype Request = Request(
    fecha: Option<int>,
    concepto: Option<string>,
    detalle: Option<string>,
    debe: Option<string>,
    haber: Option<string>,
    documentoTipo: Option<string>,
    documentoId: Option<string>)

  /** The keys an error can be reported under. */
  datatype Field = Fecha | Concepto | Detalle | Debe | Haber | DocumentoTipo | DocumentoId | Movimiento

  const ConceptoMax: nat := 255
  const DetalleMax: nat := 1000
  const DocumentoTipoMax: nat := 50

  /** `required`: present and not blank after trimming. */
  predicate Required(v: Option<string>)
  {
    v.Some? && Trim(v.value) != []
  }

  // ---------------------------------------------------------------------
  // The amount pattern  ^\d+(\.\d{1,2})?$

  /** Where the integer part of an amount ends: before a '.' two or three places from the end. */
  function IntPartLength(b: string): (k: nat)
    ensures k <= |b|
    ensures k < |b| ==> b[k] == '.' && 1 <= |b| - k - 1 <= 2
  {
    if |b| >= 3 && b[|b| - 3] == '.' then |b| - 3
    else if |b| >= 2 && b[|b| - 2] == '.' then |b| - 2
    else |b|
  }

  predicate AmountBody(b: string)
  {
    var k := IntPartLength(b);
    k >= 1 && AllDigits(b[..k]) && (k == |b| || AllDigits(b[k + 1..]))
  }

  /** `regex:/^\d+(\.\d{1,2})?$/`; a match is also `numeric` and `min:0`. */
  predicate MatchesAmount(s: string)
  {
    AmountBody(StripFinalNewline(s))
  }

  /** The value of a matching amount, in cents. */
  function AmountCents(s: string): (c: nat)
    requires MatchesAmount(s)
  {
    var b := StripFinalNewline(s);
    var k := IntPartLength(b);
    var units := DigitsValue(b[..k]);
    var frac := if k == |b| then 0
                else if |b| - k - 1 == 1 then 10 * DigitValue(b[k + 1])
                else 10 * DigitValue(b[k + 1]) + DigitValue(b[k + 2]);
    100 * units + frac
  }

  /** An amount in its two-decimal form, e.g. 10050 as "100.50". */
  function FormatCents(c: nat): string
  {
    NatToString(c / 100) + "." + [DigitChar(c % 100 / 10), DigitChar(c % 10)]
  }

  /** Every amount in cents has a spelling the pattern accepts, and it reads back as the same amount. */
  lemma FormatCentsRoundTrip(c: nat)
    ensures MatchesAmount(FormatCents(c)) && AmountCents(FormatCents(c)) == c
  {
    FormatCentsShape(c);
    DigitsValueOfNatToString(c / 100);
    CentsSplit(c);
  }

  lemma FormatCentsShape(c: nat)
    ensures StripFinalNewline(FormatCents(c)) == FormatCents(c)
    ensures IntPartLength(FormatCents(c)) == |NatToString(c / 100)|
    ensures FormatCents(c)[..|NatToString(c / 100)|] == NatToString(c / 100)
    ensures FormatCents(c)[|NatToString(c / 100)| + 1..] == [DigitChar(c % 100 / 10), DigitChar(c % 10)]
  {
    var u := NatToString(c / 100);
    var b := FormatCents(c);
    assert b[|b| - 1] != '\n';
    assert b[|b| - 3] == '.';
    assert b[..|u|] == u;
    assert b[|u| + 1..] == [DigitChar(c % 100 / 10), DigitChar(c % 10)];
  }

  lemma CentsSplit(c: nat)
    ensures 100 * (c / 100) + 10 * DigitValue(DigitChar(c % 100 / 10)) + DigitValue(DigitChar(c % 10)) == c
  {
  }

  lemma AmountTwoDecimals()
    ensures MatchesAmount("100.50") && AmountCents("100.50") == 10050
  {
    assert "100.50"[..3] == "100";
    assert "100.50"[4..] == "50";
    assert DigitsValue("100") == 100 by {
      assert "100"[..2] == "10";
      assert "10"[..1] == "1";
      assert "1"[..0] == "";
    }
  }

  lemma AmountOneDecimal()
    ensures MatchesAmount("1.5") && AmountCents("1.5") == 150
  {
    assert "1.5"[..1] == "1";
    assert "1.5"[2..] == "5";
    assert "1"[..0] == "";
  }

  lemma AmountWhole()
    ensures MatchesAmount("7") && AmountCents("7") == 700
    ensures MatchesAmount("7\n")
  {
    assert "7"[..1] == "7";
    assert "7"[..0] == "";
    assert StripFinalNewline("7\n") == "7";
  }

  lemma AmountRefused()
    ensures !MatchesAmount("1.505") && !MatchesAmount("-1") && !MatchesAmount("1e3") && !MatchesAmount(".5")
  {
    assert IntPartLength("1.505") == 5;
    assert !IsDigit("1.505"[1]);
    assert !IsDigit("-1"[0]);
    assert !IsDigit("1e3"[1]);
    assert IntPartLength(".5") == 0;
  }

  // ---------------------------------------------------------------------
  // The other rules

  /** Laravel's `integer` rule (PHP's FILTER_VALIDATE_INT): optional sign, no leading zeros. */
  predicate IsIntegerString(s: string)
  {
    var d := if s != [] && (s[0] == '+' || s[0] == '-') then s[1..] else s;
    d != [] && AllDigits(d) && (d == "0" || d[0] != '0')
  }

  // ---------------------------------------------------------------------
  // `$this->debe == 0` under PHP 8 loose comparison

  /** Where the exponent of a numeric string starts: its first 'e' or 'E', or its end. */
  function ExponentStart(u: string): (k: nat)
    ensures k <= |u|
    ensures forall j :: 0 <= j < k ==> u[j] != 'e' && u[j] != 'E'
    ensures k < |u| ==> u[k] == 'e' || u[k] == 'E'
  {
    if u == [] || u[0] == 'e' || u[0] == 'E' then 0 else 1 + ExponentStart(u[1..])
  }

  /** PHP's exponent part: empty, or 'e'/'E', an optional sign and at least one digit. */
  predicate ValidExponent(x: string)
  {
    x == [] ||
      (var y := x[1..];
       var d := if y != [] && (y[0] == '+' || y[0] == '-') then y[1..] else y;
       (x[0] == 'e' || x[0] == 'E') && d != [] && AllDigits(d))
  }

  /** A mantissa (digits around at most one '.', at least one digit) whose digits are all '0'. */
  predicate ZeroMantissa(m: string)
  {
    && (forall i :: 0 <= i < |m| ==> m[i] == '0' || m[i] == '.')
    && (exists i :: 0 <= i < |m| && m[i] == '0')
    && (forall i, j :: 0 <= i < j < |m| && m[i] == '.' ==> m[j] != '.')
  }

  /** A trimmed numeric string without its sign: what is left once the whitespace around it and a leading '+' or '-' are set aside. */
  function UnsignedBody(s: string): (u: string)
    ensures |u| <= |s|
  {
    var t := SkipSpaceRight(SkipSpace(s));
    if t != [] && (t[0] == '+' || t[0] == '-') then t[1..] else t
  }

  /** An unsigned number worth zero: a zero mantissa, then a valid exponent or nothing. */
  predicate ZeroNumber(u: string)
  {
    var k := ExponentStart(u);
    ZeroMantissa(u[..k]) && ValidExponent(u[k..])
  }

  /**
   * A PHP 8 numeric string worth zero: whitespace around it, an optional
   * sign, a zero mantissa and an optional exponent. PHP 8 compares such a
   * string with `0` as a number; any other string compares with "0" as a
   * string, and "0" itself is numeric, so no other string equals `0`.
   */
  predicate PhpZeroString(s: string)
  {
    ZeroNumber(UnsignedBody(s))
  }

  /** `$this->debe == 0` under PHP 8 loose comparison: null, or a numeric string worth zero. */
  predicate LooselyZero(v: Option<string>)
  {
    v.None? || PhpZeroString(v.value)
  }

  /** An amount body split at `k`: digits, then optionally a '.' and one or two digits. */
  predicate SplitAmount(b: string, k: nat)
  {
    && 1 <= k <= |b|
    && (forall j :: 0 <= j < k ==> IsDigit(b[j]))
    && (k < |b| ==> b[k] == '.' && 2 <= |b| - k <= 3)
    && (forall j :: k < j < |b| ==> IsDigit(b[j]))
  }

  lemma SplitOfMatch(s: string)
    requires MatchesAmount(s)
    ensures SplitAmount(StripFinalNewline(s), IntPartLength(StripFinalNewline(s)))
  {
    var b := StripFinalNewline(s);
    var k := IntPartLength(b);
    forall j | 0 <= j < k ensures IsDigit(b[j]) {
      assert b[..k][j] == b[j];
    }
    forall j | k < j < |b| ensures IsDigit(b[j]) {
      assert b[k + 1..][j - k - 1] == b[j];
    }
  }

  /** A matching amount has no whitespace to skip once its final newline is set aside. */
  lemma SplitIsTrimmed(s: string, k: nat)
    requires SplitAmount(StripFinalNewline(s), k)
    ensures SkipSpaceRight(SkipSpace(s)) == StripFinalNewline(s)
  {
    var b := StripFinalNewline(s);
    assert IsDigit(b[|b| - 1]);
    assert s[0] == b[0] && IsDigit(b[0]);
    SkipSpaceNoOp(s);
    SkipSpaceRightNoOp(b);
    if s != b {
      assert s == b + "\n";
      assert s[..|s| - 1] == b;
      assert IsPhpSpace(s[|s| - 1]);
    } else {
      SkipSpaceRightNoOp(s);
    }
  }

  lemma SplitHasNoExponent(b: string, k: nat)
    requires SplitAmount(b, k)
    ensures ExponentStart(b) == |b|
  {
  }

  lemma SplitZeroMantissa(b: string, k: nat)
    requires SplitAmount(b, k)
    ensures ZeroMantissa(b) <==> forall j :: 0 <= j < |b| && j != k ==> b[j] == '0'
  {
    if forall j :: 0 <= j < |b| && j != k ==> b[j] == '0' {
      assert b[0] == '0';
      assert forall i :: 0 <= i < |b| && b[i] == '.' ==> i == k;
    }
  }

  /** A string that is a plain unsigned mantissa after trimming is zero exactly when that mantissa is. */
  lemma PlainPhpZero(s: string, b: string)
    requires SkipSpaceRight(SkipSpace(s)) == b && b != [] && IsDigit(b[0]) && ExponentStart(b) == |b|
    ensures PhpZeroString(s) <==> ZeroMantissa(b)
  {
    assert b[..|b|] == b && b[|b|..] == [];
  }

  lemma SplitCentsZero(s: string)
    requires MatchesAmount(s)
    ensures var b := StripFinalNewline(s);
      AmountCents(s) == 0 <==> forall j :: 0 <= j < |b| && j != IntPartLength(b) ==> b[j] == '0'
  {
    var b := StripFinalNewline(s);
    var k := IntPartLength(b);
    SplitOfMatch(s);
    DigitsValueZeroIff(b[..k]);
    assert (forall j :: 0 <= j < k ==> b[..k][j] == '0') <==> (forall j :: 0 <= j < k ==> b[j] == '0');
  }

  /** A matching amount is zero as PHP compares it exactly when it is zero cents. */
  lemma AmountZeroIff(s: string)
    requires MatchesAmount(s)
    ensures PhpZeroString(s) <==> AmountCents(s) == 0
  {
    var b := StripFinalNewline(s);
    var k := IntPartLength(b);
    SplitOfMatch(s);
    SplitIsTrimmed(s, k);
    SplitHasNoExponent(b, k);
    SplitZeroMantissa(b, k);
    PlainPhpZero(s, b);
    SplitCentsZero(s);
  }

  /** Every field with a failed rule, plus `movimiento` from the after-validation hook. */
  function Errors(r: Request): set<Field>
  {
    (if r.fecha.None? then {Fecha} else {})
    + (if !(Required(r.concepto) && |r.concepto.value| <= ConceptoMax) then {Concepto} else {})
    + (if r.detalle.Some? && |r.detalle.value| > DetalleMax then {Detalle} else {})
    + (if r.debe.None? || !MatchesAmount(r.debe.value) then {Debe} else {})
    + (if r.haber.None? || !MatchesAmount(r.haber.value) then {Haber} else {})
    + (if r.documentoTipo.Some? && |r.documentoTipo.value| > DocumentoTipoMax then {DocumentoTipo} else {})
    + (if r.documentoId.Some? && !IsIntegerString(r.documentoId.value) then {DocumentoId} else {})
    + (if LooselyZero(r.debe) && LooselyZero(r.haber) then {Movimiento} else {})
  }

  predicate Accepted(r: Request)
  {
    Errors(r) == {}
  }

  /** The validated data a controller hands to `createMovement`. */
  function Validated(r: Request): (input: MovementInput)
    requires Accepted(r)
    ensures input.debe >= 0 && input.haber >= 0
    ensures input.debe > 0 || input.haber > 0
    ensures |input.concepto| <= ConceptoMax && Trim(input.concepto) != []
    ensures input.detalle.Some? ==> |input.detalle.value| <= DetalleMax
    ensures input.documentoTipo.Some? ==> |input.documentoTipo.value| <= DocumentoTipoMax
  {
    assert Concepto !in Errors(r) && Movimiento !in Errors(r) && Debe !in Errors(r) && Haber !in Errors(r);
    assert Detalle !in Errors(r) && DocumentoTipo !in Errors(r);
    AmountZeroIff(r.debe.value);
    AmountZeroIff(r.haber.value);
    MovementInput(
      r.fecha.value, r.concepto.value, r.detalle,
      AmountCents(r.debe.value), AmountCents(r.haber.value),
      r.documentoTipo,
      if r.documentoId.Some? then Some(IntVal(r.documentoId.value)) else None)
  }

  /** The `movimiento` error is reported exactly when both amounts are zero (or missing). */
  lemma MovimientoErrorIffBothZero(r: Request)
    ensures Movimiento in Errors(r) <==> LooselyZero(r.debe) && LooselyZero(r.haber)
  {
  }

  /** A request with two well-formed zero amounts is refused only for `movimiento`. */
  lemma ZeroAmountsRefused(r: Request)
    requires r.debe == Some("0.00") && r.haber == Some("0")
    ensures !Accepted(r) && Movimiento in Errors(r)
  {
    ZeroLiteralsAreZero();
    MovimientoErrorIffBothZero(r);
  }

  lemma ZeroLiteralsAreZero()
    ensures LooselyZero(Some("0.00")) && LooselyZero(Some("0"))
  {
    ZeroCentsLiteral();
    ZeroWholeLiteral();
    AmountZeroIff("0.00");
    AmountZeroIff("0");
  }

  lemma ZeroCentsLiteral()
    ensures MatchesAmount("0.00") && AmountCents("0.00") == 0
  {
    assert StripFinalNewline("0.00") == "0.00";
    assert IntPartLength("0.00") == 1;
    assert "0.00"[..1] == "0" && "0.00"[2..] == "00";
    assert "0"[..0] == "";
  }

  lemma ZeroWholeLiteral()
    ensures MatchesAmount("0") && AmountCents("0") == 0
  {
    assert StripFinalNewline("0") == "0";
    assert IntPartLength("0") == 1;
    assert "0"[..1] == "0" && "0"[..0] == "";
  }

  /** A signed zero is zero to PHP although the pattern refuses it. */
  lemma MinusZeroIsZero()
    ensures PhpZeroString("-0")
  {
    SkipSpaceNoOp("-0");
    SkipSpaceRightNoOp("-0");
    assert UnsignedBody("-0") == "0" by { assert "-0"[1..] == "0"; }
    OneZeroIsZero();
  }

  lemma OneZeroIsZero()
    ensures ZeroNumber("0")
  {
    assert ExponentStart("0") == 1;
    assert "0"[..1] == "0" && "0"[1..] == [];
  }

  lemma PlusZeroFractionIsZero()
    ensures PhpZeroString("+0.0")
  {
    SkipSpaceNoOp("+0.0");
    SkipSpaceRightNoOp("+0.0");
    assert UnsignedBody("+0.0") == "0.0" by { assert "+0.0"[1..] == "0.0"; }
    assert ExponentStart("0.0") == 3;
    assert "0.0"[..3] == "0.0" && "0.0"[3..] == [];
  }

  /** Whitespace around a zero does not stop PHP 8 reading it as zero. */
  lemma SpacedZeroIsZero()
    ensures PhpZeroString(" 0 ")
  {
    SpacedZeroBody();
    OneZeroIsZero();
  }

  lemma SpacedZeroBody()
    ensures UnsignedBody(" 0 ") == "0"
  {
    SpacedZeroTrimmed();
  }

  lemma SpacedZeroTrimmed()
    ensures SkipSpaceRight(SkipSpace(" 0 ")) == "0"
  {
    SkipSpaceAround(' ', '0', ' ');
    assert [' ', '0', ' '] == " 0 " && ['0'] == "0";
  }

  /** Zero with an exponent is zero. */
  lemma ExponentZeroIsZero()
    ensures PhpZeroString("0e5")
  {
    SkipSpaceNoOp("0e5");
    SkipSpaceRightNoOp("0e5");
    assert UnsignedBody("0e5") == "0e5";
    assert ExponentStart("0e5") == 1;
    assert "0e5"[..1] == "0" && "0e5"[1..] == "e5" && "e5"[1..] == "5";
  }

  /** A bare fraction ".0" is zero. */
  lemma BareFractionIsZero()
    ensures PhpZeroString(".0")
  {
    SkipSpaceNoOp(".0");
    SkipSpaceRightNoOp(".0");
    assert UnsignedBody(".0") == ".0";
    assert ExponentStart(".0") == 2;
    assert ".0"[..2] == ".0" && ".0"[2..] == [];
  }

  /** A hexadecimal spelling is not a PHP 8 numeric string, so it is not zero. */
  lemma HexZeroNotZero()
    ensures !PhpZeroString("0x0")
  {
    SkipSpaceNoOp("0x0");
    SkipSpaceRightNoOp("0x0");
    assert UnsignedBody("0x0") == "0x0";
    assert ExponentStart("0x0") == 3;
    assert "0x0"[..3] == "0x0" && "0x0"[1] == 'x';
  }

  /** Neither the empty string nor a lone '.' is zero. */
  lemma EmptyAndDotNotZero()
    ensures !PhpZeroString("") && !PhpZeroString(".")
  {
    SkipSpaceNoOp("");
    SkipSpaceRightNoOp("");
    assert UnsignedBody("") == "";
    SkipSpaceNoOp(".");
    SkipSpaceRightNoOp(".");
    assert UnsignedBody(".") == ".";
    assert ExponentStart(".") == 1 && "."[..1] == ".";
  }

  /** A debe of "-0" fails the pattern, and with a zero haber it also raises `movimiento`. */
  lemma SignedZeroRaisesMovimiento(r: Request)
    requires r.debe == Some("-0") && r.haber == Some("0")
    ensures Debe in Errors(r) && Movimiento in Errors(r) && !Accepted(r)
  {
    MinusZeroIsZero();
    ZeroLiteralsAreZero();
    MinusZeroRefused();
    MovimientoErrorIffBothZero(r);
    assert Debe in Errors(r);
  }

  lemma MinusZeroRefused()
    ensures !MatchesAmount("-0")
  {
    assert StripFinalNewline("-0") == "-0";
    assert IntPartLength("-0") == 2;
    assert !IsDigit("-0"[..2][0]);
  }

  /** Every accepted movement, once created, makes the client's ledger pending. */
  lemma AcceptedMakesPending(ms: seq<Movement>, r: Request, id: nat, cid: nat)
    requires Accepted(r)
    ensures HasPendingMovements(ms + [Stamp(ms, NewMovement(id, cid, Validated(r)))], cid)
  {
    var m := Stamp(ms, NewMovement(id, cid, Validated(r)));
    HasPendingAppend(ms, m, cid);
  }
}
