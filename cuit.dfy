/**
 * The CUIT (Argentine tax id) in the three places that handle it: the
 * server-side validation rule, the browser-side helpers, and the test-data
 * generator. All three use the modulo-11 check digit over the first ten
 * digits with weights 5,4,3,2,7,6,5,4,3,2: with r the weighted sum mod 11,
 * the check digit is 0 when r = 0 and 11 - r otherwise, so r = 1 asks for
 * a "digit" 10 that no CUIT can carry.
 *
 * A JavaScript `NaN` is modelled as `None`.
 */
module Cuit {
  import opened Common

  const Weights: seq<nat> := [5, 4, 3, 2, 7, 6, 5, 4, 3, 2]

  // ---------------------------------------------------------------------
  // The check digit

  /** Σ digit_i × weight_i over a prefix of the first ten digits. */
  function WeightedSum(ds: string): (sum: nat)
    requires |ds| <= |Weights| && AllDigits(ds)
  {
    if ds == [] then 0
    else WeightedSum(ds[..|ds| - 1]) + DigitValue(ds[|ds| - 1]) * Weights[|ds| - 1]
  }

  /** The expected eleventh digit for a weighted sum. */
  function CheckDigit(sum: nat): (d: nat)
    ensures d <= 10
    ensures d == 10 <==> sum % 11 == 1
    ensures sum % 11 != 1 ==> (sum + d) % 11 == 0
  {
    var r := sum % 11;
    if r == 0 then 0 else 11 - r
  }

  /** Eleven digits whose last one is the check digit of the first ten. */
  predicate CheckDigitHolds(c: string)
  {
    |c| == 11 && AllDigits(c) && CheckDigit(WeightedSum(c[..10])) == DigitValue(c[10])
  }

  /** Ten digits with r = 1 have no valid completion. */
  lemma ResidueOneNeverAccepted(c: string)
    requires |c| == 11 && AllDigits(c) && WeightedSum(c[..10]) % 11 == 1
    ensures !CheckDigitHolds(c)
  {
  }

  // ---------------------------------------------------------------------
  // Character filters: `str_replace('-', '', $s)`, `s.replace(/-/g, '')`, `s.replace(/\D/g, '')`

  predicate NotDash(c: char) { c != '-' }

  /** The characters of `s` that satisfy `keep`, in order. */
  function Keep(s: string, keep: char -> bool): (r: string)
    ensures |r| <= |s|
    ensures forall i :: 0 <= i < |r| ==> keep(r[i])
  {
    if s == [] then []
    else Keep(s[..|s| - 1], keep) + (if keep(s[|s| - 1]) then [s[|s| - 1]] else [])
  }

  lemma {:induction false} KeepAppend(a: string, b: string, keep: char -> bool)
    ensures Keep(a + b, keep) == Keep(a, keep) + Keep(b, keep)
    decreases |b|
  {
    if b != [] {
      var b' := b[..|b| - 1];
      assert (a + b)[..|a + b| - 1] == a + b';
      KeepAppend(a, b', keep);
    } else {
      assert a + b == a;
    }
  }

  lemma {:induction false} KeepAll(s: string, keep: char -> bool)
    requires forall i :: 0 <= i < |s| ==> keep(s[i])
    ensures Keep(s, keep) == s
    decreases |s|
  {
    if s != [] {
      KeepAll(s[..|s| - 1], keep);
    }
  }

  /** A string of digits and dashes loses the same characters under both filters. */
  lemma {:induction false} DigitsOnlyIsDashless(s: string)
    requires AllDigits(Keep(s, NotDash))
    ensures Keep(s, IsDigit) == Keep(s, NotDash)
    decreases |s|
  {
    if s != [] {
      var init := s[..|s| - 1];
      var last := s[|s| - 1];
      var k := Keep(init, NotDash);
      assert Keep(s, NotDash) == k + (if NotDash(last) then [last] else []);
      assert AllDigits(k) by {
        forall i | 0 <= i < |k| ensures IsDigit(k[i]) {
          assert Keep(s, NotDash)[i] == k[i];
        }
      }
      if NotDash(last) {
        assert Keep(s, NotDash)[|k|] == last;
      }
      DigitsOnlyIsDashless(init);
    }
  }

  // ---------------------------------------------------------------------
  // The pattern  ^\d{2}-\d{8}-\d$

  /** The pattern read with a `$` that matches only at the end (JavaScript). */
  predicate CuitPattern(s: string)
  {
    |s| == 13 && AllDigits(s[..2]) && s[2] == '-' && AllDigits(s[3..11]) && s[11] == '-' && IsDigit(s[12])
  }

  /** The same pattern as PCRE reads it, where `$` also matches before a final newline. */
  predicate PhpCuitPattern(s: string)
  {
    CuitPattern(StripFinalNewline(s))
  }

  /** The eleven digits of a string in the pattern. */
  function CuitDigits(s: string): (c: string)
    requires CuitPattern(s)
    ensures |c| == 11 && AllDigits(c)
  {
    s[..2] + s[3..11] + [s[12]]
  }

  /** Removing the dashes of a string in the pattern leaves its eleven digits. */
  lemma DashlessOfPattern(s: string)
    requires CuitPattern(s)
    ensures Keep(s, NotDash) == CuitDigits(s)
  {
    assert s == s[..2] + "-" + s[3..11] + "-" + [s[12]];
    KeepAppend(s[..2] + "-" + s[3..11] + "-", [s[12]], NotDash);
    KeepAppend(s[..2] + "-" + s[3..11], "-", NotDash);
    KeepAppend(s[..2] + "-", s[3..11], NotDash);
    KeepAppend(s[..2], "-", NotDash);
    KeepAll(s[..2], NotDash);
    KeepAll(s[3..11], NotDash);
    KeepAll([s[12]], NotDash);
    assert Keep("-", NotDash) == [] by {
      assert "-"[..0] == [];
    }
  }

  /** With a trailing newline the dashless string has twelve characters. */
  lemma DashlessWithNewline(t: string)
    requires CuitPattern(t)
    ensures |Keep(t + "\n", NotDash)| == 12
  {
    DashlessOfPattern(t);
    KeepAppend(t, "\n", NotDash);
    KeepAll("\n", NotDash);
  }

  // ---------------------------------------------------------------------
  // ValidCuitFormat (server side)

  datatype CuitFailure =
    | BadFormat       // 'El formato del CUIT debe ser XX-XXXXXXXX-X'
    | BadLength       // 'El CUIT debe tener 11 dígitos'
    | BadCheckDigit   // 'El CUIT ingresado no es válido (dígito verificador incorrecto)'

  /** The sum loop over the first ten digits. */
  method SumWeighted(cuit: string) returns (suma: nat)
    requires |cuit| >= 10 && AllDigits(cuit[..10])
    ensures suma == WeightedSum(cuit[..10])
  {
    suma := 0;
    for i := 0 to 10
      invariant suma == WeightedSum(cuit[..i])
    {
      assert cuit[..i + 1][..i] == cuit[..i];
      assert cuit[..i + 1][i] == cuit[..10][i];
      suma := suma + DigitValue(cuit[i]) * Weights[i];
    }
  }

  /**
   * `ValidCuitFormat::validate`: the failure it reports, if any. It accepts
   * exactly the strings the browser-side format and checksum helpers both
   * accept, and reaches its length check only for a trailing newline.
   */
  method ValidCuitFormat(value: string) returns (failure: Option<CuitFailure>)
    ensures failure.None? <==> CuitPattern(value) && ValidateCuitChecksum(value)
    ensures failure == Some(BadFormat) <==> !PhpCuitPattern(value)
    ensures failure == Some(BadLength) <==> PhpCuitPattern(value) && !CuitPattern(value)
    ensures failure == Some(BadCheckDigit) <==> CuitPattern(value) && !CheckDigitHolds(CuitDigits(value))
  {
    if !PhpCuitPattern(value) {
      return Some(BadFormat);
    }
    var cuit := Keep(value, NotDash);
    if !CuitPattern(value) {
      DashlessWithNewline(StripFinalNewline(value));
    } else {
      DashlessOfPattern(value);
    }
    if |cuit| != 11 {
      return Some(BadLength);
    }
    var suma := SumWeighted(cuit);
    var digito := if suma % 11 == 0 then 0 else 11 - suma % 11;
    if digito != DigitValue(cuit[10]) {
      return Some(BadCheckDigit);
    }
    failure := None;
  }

  // ---------------------------------------------------------------------
  // validators.ts (browser side)

  /** `parseInt` of one character. */
  function ParseDigit(c: char): (r: Option<nat>)
    ensures r.Some? <==> IsDigit(c)
    ensures r.Some? ==> r.value == DigitValue(c)
  {
    if IsDigit(c) then Some(DigitValue(c)) else None
  }

  /** `validateCuitChecksum` as a predicate: the dashless string is eleven digits with the right check digit. */
  predicate ValidateCuitChecksum(s: string)
  {
    CheckDigitHolds(Keep(s, NotDash))
  }

  /** The loop of `validateCuitChecksum`, where a non-digit makes the sum `NaN` and every comparison false. */
  method CuitChecksum(cuit: string) returns (ok: bool)
    ensures ok <==> ValidateCuitChecksum(cuit)
  {
    var clean := Keep(cuit, NotDash);
    if |clean| != 11 {
      return false;
    }
    var suma: Option<nat> := Some(0);
    for i := 0 to 10
      invariant suma.Some? <==> AllDigits(clean[..i])
      invariant suma.Some? ==> suma.value == WeightedSum(clean[..i])
    {
      assert clean[..i + 1][..i] == clean[..i];
      assert clean[..i + 1][i] == clean[i];
      var d := ParseDigit(clean[i]);
      if suma.Some? && d.Some? {
        suma := Some(suma.value + d.value * Weights[i]);
      } else {
        if suma.Some? {
          assert !IsDigit(clean[..i + 1][i]);
        }
        suma := None;
      }
    }
    assert clean[..10] == clean[..10][..10];
    var last := ParseDigit(clean[10]);
    if suma.None? || last.None? {
      assert !AllDigits(clean) by {
        if suma.None? {
          assert !AllDigits(clean[..10]);
        } else {
          assert !IsDigit(clean[10]);
        }
      }
      return false;
    }
    assert AllDigits(clean) by {
      forall i | 0 <= i < 11 ensures IsDigit(clean[i]) {
        if i < 10 {
          assert clean[..10][i] == clean[i];
        }
      }
    }
    ok := CheckDigit(suma.value) == last.value;
  }

  /** The digits of `s`, dashed as `XX-XXXXXXXX-X` when there are exactly eleven, else `s` unchanged. */
  function FormatCuit(s: string): (r: string)
    ensures |Keep(s, IsDigit)| != 11 ==> r == s
  {
    var c := Keep(s, IsDigit);
    if |c| != 11 then s else Dashed(c)
  }

  /** `XX-XXXXXXXX-X` from eleven digits. */
  function Dashed(c: string): (r: string)
    requires |c| == 11 && AllDigits(c)
    ensures CuitPattern(r) && CuitDigits(r) == c
  {
    var r := c[..2] + "-" + c[2..10] + "-" + c[10..];
    assert r[..2] == c[..2] && r[3..11] == c[2..10] && r[12] == c[10];
    assert c == c[..2] + c[2..10] + [c[10]];
    r
  }

  /** The digits of a dashed string are the digits it was made from. */
  lemma DigitsOfDashed(c: string)
    requires |c| == 11 && AllDigits(c)
    ensures Keep(Dashed(c), IsDigit) == c
  {
    var p := c[..2] + "-" + c[2..10] + "-";
    KeepAppend(p, c[10..], IsDigit);
    KeepAppend(c[..2] + "-" + c[2..10], "-", IsDigit);
    KeepAppend(c[..2] + "-", c[2..10], IsDigit);
    KeepAppend(c[..2], "-", IsDigit);
    KeepAll(c[..2], IsDigit);
    KeepAll(c[2..10], IsDigit);
    KeepAll(c[10..], IsDigit);
    assert Keep("-", IsDigit) == [] by {
      assert "-"[..0] == [];
    }
    assert c == c[..2] + c[2..10] + c[10..];
  }

  /** Eleven digits come out in the pattern, with the same digits. */
  lemma FormatCuitShape(s: string)
    requires |Keep(s, IsDigit)| == 11
    ensures CuitPattern(FormatCuit(s))
    ensures CuitDigits(FormatCuit(s)) == Keep(s, IsDigit)
    ensures Keep(FormatCuit(s), IsDigit) == Keep(s, IsDigit)
  {
    var c := Keep(s, IsDigit);
    assert AllDigits(c);
    assert FormatCuit(s) == Dashed(c);
    DigitsOfDashed(c);
  }

  /** Formatting twice is formatting once. */
  lemma FormatCuitIdempotent(s: string)
    ensures FormatCuit(FormatCuit(s)) == FormatCuit(s)
  {
    if |Keep(s, IsDigit)| == 11 {
      FormatCuitShape(s);
    }
  }

  /** A string already in the pattern is left as it is. */
  lemma FormatCuitFixesPattern(s: string)
    requires CuitPattern(s)
    ensures FormatCuit(s) == s
  {
    assert s == s[..2] + "-" + s[3..11] + "-" + [s[12]];
    KeepAppend(s[..2] + "-" + s[3..11] + "-", [s[12]], IsDigit);
    KeepAppend(s[..2] + "-" + s[3..11], "-", IsDigit);
    KeepAppend(s[..2] + "-", s[3..11], IsDigit);
    KeepAppend(s[..2], "-", IsDigit);
    KeepAll(s[..2], IsDigit);
    KeepAll(s[3..11], IsDigit);
    KeepAll([s[12]], IsDigit);
    assert Keep("-", IsDigit) == [] by {
      assert "-"[..0] == [];
    }
    var c := Keep(s, IsDigit);
    assert c == s[..2] + s[3..11] + [s[12]];
    assert c[..2] == s[..2] && c[2..10] == s[3..11] && c[10..] == [s[12]];
  }

  /** Whatever passes the checksum alone formats into a CUIT the server rule accepts. */
  lemma ChecksumThenFormatAccepted(s: string)
    requires ValidateCuitChecksum(s)
    ensures CuitPattern(FormatCuit(s)) && ValidateCuitChecksum(FormatCuit(s))
  {
    DigitsOnlyIsDashless(s);
    FormatCuitShape(s);
    DashlessOfPattern(FormatCuit(s));
  }

  // ---------------------------------------------------------------------
  // validateEmail  ^[^\s@]+@[^\s@]+\.[^\s@]+$

  /** JavaScript's `\s`: the ASCII blanks, the Unicode space separators, the line separators and the BOM. */
  predicate IsJsSpace(c: char)
  {
    var n := c as int;
    (9 <= n <= 13) || n == 32 || n == 0xA0 || n == 0x1680 || (0x2000 <= n <= 0x200A)
    || n == 0x2028 || n == 0x2029 || n == 0x202F || n == 0x205F || n == 0x3000 || n == 0xFEFF
  }

  /** One `[^\s@]+` run. */
  predicate EmailPart(p: string)
  {
    p != [] && forall i :: 0 <= i < |p| ==> !IsJsSpace(p[i]) && p[i] != '@'
  }

  /** The regular expression's meaning: local part, `@`, a domain part, `.`, and a last part. */
  predicate EmailShape(s: string)
  {
    exists a, b :: 0 < a && a + 1 < b && b + 1 < |s| && s[a] == '@' && s[b] == '.'
      && EmailPart(s[..a]) && EmailPart(s[a + 1..b]) && EmailPart(s[b + 1..])
  }

  /** The position of the first `@`. */
  function FirstAt(s: string): (r: Option<nat>)
    ensures r.Some? ==> r.value < |s| && s[r.value] == '@' && forall i :: 0 <= i < r.value ==> s[i] != '@'
    ensures r.None? ==> forall i :: 0 <= i < |s| ==> s[i] != '@'
  {
    if s == [] then None
    else if s[0] == '@' then Some(0)
    else match FirstAt(s[1..])
      case None => None
      case Some(k) => Some(k + 1)
  }

  /** `validateEmail`: one `@`, not first, no blanks, and a `.` with something on both sides after it. */
  function ValidateEmail(s: string): (ok: bool)
    ensures ok <==> EmailShape(s)
  {
    var at := FirstAt(s);
    var ok := at.Some? && at.value > 0
      && (forall i :: 0 <= i < |s| ==> !IsJsSpace(s[i]))
      && (forall i :: at.value < i < |s| ==> s[i] != '@')
      && (exists j :: at.value + 1 < j < |s| - 1 && s[j] == '.');
    EmailShapeIff(s, at);
    ok
  }

  lemma EmailShapeIff(s: string, at: Option<nat>)
    requires at == FirstAt(s)
    ensures EmailShape(s) <==>
      at.Some? && at.value > 0
      && (forall i :: 0 <= i < |s| ==> !IsJsSpace(s[i]))
      && (forall i :: at.value < i < |s| ==> s[i] != '@')
      && (exists j :: at.value + 1 < j < |s| - 1 && s[j] == '.')
  {
    if at.Some? && at.value > 0
      && (forall i :: 0 <= i < |s| ==> !IsJsSpace(s[i]))
      && (forall i :: at.value < i < |s| ==> s[i] != '@')
      && (exists j :: at.value + 1 < j < |s| - 1 && s[j] == '.')
    {
      var a := at.value;
      var b :| a + 1 < b < |s| - 1 && s[b] == '.';
      assert EmailPart(s[..a]) by {
        forall i | 0 <= i < a ensures !IsJsSpace(s[..a][i]) && s[..a][i] != '@' {
          assert s[..a][i] == s[i];
        }
      }
      var domain := s[a + 1..b];
      assert EmailPart(domain) by {
        forall i | 0 <= i < |domain| ensures !IsJsSpace(domain[i]) && domain[i] != '@' {
          assert domain[i] == s[a + 1 + i];
        }
      }
      var top := s[b + 1..];
      assert EmailPart(top) by {
        forall i | 0 <= i < |top| ensures !IsJsSpace(top[i]) && top[i] != '@' {
          assert top[i] == s[b + 1 + i];
        }
      }
    }
    if EmailShape(s) {
      var a, b :| 0 < a && a + 1 < b && b + 1 < |s| && s[a] == '@' && s[b] == '.'
        && EmailPart(s[..a]) && EmailPart(s[a + 1..b]) && EmailPart(s[b + 1..]);
      EmailShapeFacts(s, a, b);
    }
  }

  lemma EmailShapeFacts(s: string, a: nat, b: nat)
    requires 0 < a && a + 1 < b && b + 1 < |s| && s[a] == '@' && s[b] == '.'
    requires EmailPart(s[..a]) && EmailPart(s[a + 1..b]) && EmailPart(s[b + 1..])
    ensures FirstAt(s) == Some(a)
    ensures forall i :: 0 <= i < |s| ==> !IsJsSpace(s[i])
    ensures forall i :: a < i < |s| ==> s[i] != '@'
  {
    forall i | 0 <= i < |s| ensures !IsJsSpace(s[i]) && (i != a ==> s[i] != '@') {
      if i < a {
        assert s[..a][i] == s[i];
      } else if a < i < b {
        assert s[a + 1..b][i - a - 1] == s[i];
      } else if b < i {
        assert s[b + 1..][i - b - 1] == s[i];
      }
    }
    var f := FirstAt(s);
    assert f.Some?;
    assert f.value == a;
  }

  lemma EmailAccepted()
    ensures ValidateEmail("ana@mail.com")
  {
    EmailShapeFacts("ana@mail.com", 3, 8);
    assert "ana@mail.com"[..3] == "ana";
    assert "ana@mail.com"[4..8] == "mail";
    assert "ana@mail.com"[9..] == "com";
  }

  lemma EmailWithoutDotRefused()
    ensures !ValidateEmail("ana@mail")
  {
    assert "ana@mail"[3] == '@';
  }

  lemma EmailWithoutLocalPartRefused()
    ensures !ValidateEmail("@mail.com")
  {
    assert FirstAt("@mail.com") == Some(0);
  }

  lemma EmailWithSpaceRefused()
    ensures !ValidateEmail("ana @mail.com")
  {
    assert IsJsSpace("ana @mail.com"[3]);
  }

  // ---------------------------------------------------------------------
  // ClientFactory::generateCuit

  lemma Pow10Values()
    ensures Pow10(1) == 10 && Pow10(2) == 100 && Pow10(7) == 10000000 && Pow10(8) == 100000000
  {
    assert Pow10(1) == 10;
    assert Pow10(2) == 100;
    assert Pow10(3) == 1000;
    assert Pow10(4) == 10000;
    assert Pow10(5) == 100000;
    assert Pow10(6) == 1000000;
    assert Pow10(7) == 10000000;
  }

  /**
   * `generateCuit` with its two random draws as parameters: tipo + "-" +
   * documento + "-" + check digit. The padding of the documento to eight
   * digits never adds anything, and the result is a valid CUIT exactly
   * when r ≠ 1; for r = 1 the suffix is "10" and the format is broken.
   */
  method GenerateCuit(tipo: int, numero: int) returns (cuit: string)
    requires 20 <= tipo <= 27 && 10000000 <= numero <= 99999999
    ensures |IntToString(tipo) + IntToString(numero)| == 10 && AllDigits(IntToString(tipo) + IntToString(numero))
    ensures var r := WeightedSum(IntToString(tipo) + IntToString(numero)) % 11;
            cuit == IntToString(tipo) + "-" + IntToString(numero) + "-" + IntToString(if r == 0 then 0 else 11 - r)
    ensures var r := WeightedSum(IntToString(tipo) + IntToString(numero)) % 11;
            (r != 1 ==> CuitPattern(cuit) && ValidateCuitChecksum(cuit)) && (r == 1 ==> !PhpCuitPattern(cuit))
  {
    Pow10Values();
    NatToStringExactLength(tipo, 2);
    NatToStringExactLength(numero, 8);
    var documento := PadLeft(IntToString(numero), 8, '0');
    assert documento == IntToString(numero);
    var cuitBase := IntToString(tipo) + documento;
    assert AllDigits(cuitBase[..10]) by {
      assert cuitBase[..10] == cuitBase;
    }
    var suma := SumWeighted(cuitBase);
    assert cuitBase[..10] == cuitBase;
    var resto := suma % 11;
    var digito := if resto == 0 then 0 else 11 - resto;
    cuit := IntToString(tipo) + "-" + documento + "-" + IntToString(digito);
    GeneratedShape(IntToString(tipo), documento, digito);
  }

  lemma GeneratedShape(t: string, d: string, digito: nat)
    requires |t| == 2 && |d| == 8 && AllDigits(t) && AllDigits(d) && digito <= 10
    requires digito < 10 ==> CheckDigit(WeightedSum(t + d)) == digito
    ensures digito < 10 ==>
      CuitPattern(t + "-" + d + "-" + NatToString(digito)) && ValidateCuitChecksum(t + "-" + d + "-" + NatToString(digito))
    ensures digito == 10 ==> !PhpCuitPattern(t + "-" + d + "-" + NatToString(digito))
  {
    var s := t + "-" + d + "-" + NatToString(digito);
    if digito < 10 {
      assert NatToString(digito) == [DigitChar(digito)];
      assert s[..2] == t && s[3..11] == d && s[12] == DigitChar(digito);
      DashlessOfPattern(s);
      assert CuitDigits(s) == t + d + [DigitChar(digito)];
      assert CuitDigits(s)[..10] == t + d;
    } else {
      assert NatToString(10) == "10";
      assert |s| == 14 && s[13] == '0';
    }
  }
}
