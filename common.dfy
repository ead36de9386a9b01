/**
 * Shared vocabulary of the treasury model: optional values and results,
 * decimal digit strings, the PHP and JavaScript string primitives the
 * source leans on (str_pad, intval, trim, String.replace), SQL `LIKE '%x%'`
 * as substring search, PHP truthiness of strings, integer sums and a
 * stable insertion sort used for the `ORDER BY` of read queries.
 */
module Common {

  datatype Option<T> = None | Some(value: T)

  datatype Result<T, E> = Ok(value: T) | Err(error: E)

  // ---------------------------------------------------------------------
  // Sums

  function Sum(xs: seq<int>): int
  {
    if xs == [] then 0 else Sum(xs[..|xs| - 1]) + xs[|xs| - 1]
  }

  lemma {:induction false} SumConcat(xs: seq<int>, ys: seq<int>)
    ensures Sum(xs + ys) == Sum(xs) + Sum(ys)
    decreases |ys|
  {
    var zs := xs + ys;
    if ys == [] {
      assert zs == xs;
    } else {
      assert zs[..|zs| - 1] == xs + ys[..|ys| - 1];
      assert zs[|zs| - 1] == ys[|ys| - 1];
      SumConcat(xs, ys[..|ys| - 1]);
    }
  }

  // ---------------------------------------------------------------------
  // Digits and decimal strings

  predicate IsDigit(c: char)
  {
    '0' <= c <= '9'
  }

  predicate AllDigits(s: string)
  {
    forall i :: 0 <= i < |s| ==> IsDigit(s[i])
  }

  function DigitChar(d: nat): (c: char)
    requires d < 10
    ensures IsDigit(c)
  {
    (48 + d) as char
  }

  function DigitValue(c: char): (d: nat)
    requires IsDigit(c)
    ensures d < 10 && DigitChar(d) == c
  {
    c as int - 48
  }

  function Pow10(k: nat): (p: nat)
    ensures p >= 1
  {
    if k == 0 then 1 else 10 * Pow10(k - 1)
  }

  /** The decimal representation of `n`, without leading zeros (PHP's int-to-string). */
  function NatToString(n: nat): (s: string)
    ensures |s| >= 1 && AllDigits(s)
    ensures n >= 10 ==> s[0] != '0'
  {
    if n < 10 then [DigitChar(n)] else NatToString(n / 10) + [DigitChar(n % 10)]
  }

  /** The value of a string of decimal digits, most significant first. */
  function DigitsValue(s: string): nat
    requires AllDigits(s)
  {
    if s == [] then 0 else DigitsValue(s[..|s| - 1]) * 10 + DigitValue(s[|s| - 1])
  }

  /** A digit string is worth zero exactly when every digit is '0'. */
  lemma {:induction false} DigitsValueZeroIff(s: string)
    requires AllDigits(s)
    ensures DigitsValue(s) == 0 <==> forall i :: 0 <= i < |s| ==> s[i] == '0'
  {
    if s != [] {
      var p := s[..|s| - 1];
      DigitsValueZeroIff(p);
      assert forall i :: 0 <= i < |p| ==> p[i] == s[i];
    }
  }

  lemma {:induction false} DigitsValueOfNatToString(n: nat)
    ensures DigitsValue(NatToString(n)) == n
  {
    if n >= 10 {
      var s := NatToString(n);
      assert s[..|s| - 1] == NatToString(n / 10);
      DigitsValueOfNatToString(n / 10);
    }
  }

  /** NatToString is injective: distinct numbers never print alike. */
  lemma NatToStringInjective(m: nat, n: nat)
    requires NatToString(m) == NatToString(n)
    ensures m == n
  {
    DigitsValueOfNatToString(m);
    DigitsValueOfNatToString(n);
  }

  lemma {:induction false} NatToStringLength(n: nat, k: nat)
    requires k >= 1
    ensures |NatToString(n)| <= k <==> n < Pow10(k)
    decreases n
  {
    if n >= 10 {
      if k == 1 {
        assert |NatToString(n)| == |NatToString(n / 10)| + 1;
      } else {
        NatToStringLength(n / 10, k - 1);
        assert n / 10 < Pow10(k - 1) <==> n < 10 * Pow10(k - 1);
      }
    } else {
      assert Pow10(k) == 10 * Pow10(k - 1);
    }
  }

  /** A number in [10^(k-1), 10^k) prints with exactly k digits. */
  lemma NatToStringExactLength(n: nat, k: nat)
    requires k >= 1 && Pow10(k - 1) <= n < Pow10(k)
    ensures |NatToString(n)| == k
  {
    NatToStringLength(n, k);
    if k > 1 {
      NatToStringLength(n, k - 1);
    } else {
      assert |NatToString(n)| >= 1;
    }
  }

  /** PHP's conversion of an int to a string: an optional `-` and the digits. */
  function IntToString(i: int): (s: string)
    ensures i >= 0 ==> s == NatToString(i)
    ensures i < 0 ==> s == "-" + NatToString(-i)
  {
    if i < 0 then "-" + NatToString(-i) else NatToString(i)
  }

  function Repeat(c: char, k: nat): (r: string)
    ensures |r| == k && forall i :: 0 <= i < k ==> r[i] == c
  {
    seq(k, _ => c)
  }

  /** `str_pad($s, $width, $c, STR_PAD_LEFT)`: pads on the left, never truncates. */
  function PadLeft(s: string, width: nat, c: char): (r: string)
    ensures |r| == (if |s| >= width then |s| else width)
    ensures r == Repeat(c, |r| - |s|) + s
  {
    if |s| >= width then s else Repeat(c, width - |s|) + s
  }

  lemma {:induction false} DigitsValueLeadingZeros(k: nat, s: string)
    requires AllDigits(s)
    ensures AllDigits(Repeat('0', k) + s)
    ensures DigitsValue(Repeat('0', k) + s) == DigitsValue(s)
    decreases |s|, k
  {
    var z := Repeat('0', k);
    assert AllDigits(z + s) by {
      forall i | 0 <= i < |z + s| ensures IsDigit((z + s)[i]) {
        if i < k { assert (z + s)[i] == '0'; } else { assert (z + s)[i] == s[i - k]; }
      }
    }
    if s != [] {
      assert (z + s)[..|z + s| - 1] == z + s[..|s| - 1];
      DigitsValueLeadingZeros(k, s[..|s| - 1]);
    } else if k > 0 {
      assert z + s == z;
      assert z[..|z| - 1] == Repeat('0', k - 1) == Repeat('0', k - 1) + s;
      assert z[|z| - 1] == '0';
      DigitsValueLeadingZeros(k - 1, s);
    }
  }

  /** Zero-padding a printed number keeps its value readable back. */
  lemma PaddedDigitsValue(n: nat, width: nat)
    ensures AllDigits(PadLeft(NatToString(n), width, '0'))
    ensures DigitsValue(PadLeft(NatToString(n), width, '0')) == n
  {
    var s := NatToString(n);
    DigitsValueLeadingZeros(|PadLeft(s, width, '0')| - |s|, s);
    DigitsValueOfNatToString(n);
  }

  // ---------------------------------------------------------------------
  // PHP intval on strings

  /** The whitespace PHP skips in front of a numeric string. */
  predicate IsPhpSpace(c: char)
  {
    c == ' ' || c == '\t' || c == '\n' || c == '\r' || c as int == 11 || c as int == 12
  }

  function SkipSpace(s: string): (t: string)
    ensures |t| <= |s| && t == s[|s| - |t|..]
    ensures t == [] || !IsPhpSpace(t[0])
  {
    if s != [] && IsPhpSpace(s[0]) then SkipSpace(s[1..]) else s
  }

  lemma SkipSpaceNoOp(s: string)
    requires s == [] || !IsPhpSpace(s[0])
    ensures SkipSpace(s) == s
  {
  }

  /** `s` without the PHP whitespace at its end. */
  function SkipSpaceRight(s: string): (t: string)
    ensures |t| <= |s| && t == s[..|t|]
    ensures t == [] || !IsPhpSpace(t[|t| - 1])
  {
    if s != [] && IsPhpSpace(s[|s| - 1]) then SkipSpaceRight(s[..|s| - 1]) else s
  }

  lemma SkipSpaceRightNoOp(s: string)
    requires s == [] || !IsPhpSpace(s[|s| - 1])
    ensures SkipSpaceRight(s) == s
  {
  }

  /** One whitespace character at each end of `c` is skipped. */
  lemma SkipSpaceAround(a: char, c: char, b: char)
    requires IsPhpSpace(a) && IsPhpSpace(b) && !IsPhpSpace(c)
    ensures SkipSpaceRight(SkipSpace([a, c, b])) == [c]
  {
    assert [a, c, b][1..] == [c, b];
    assert SkipSpace([c, b]) == [c, b];
    assert [c, b][..1] == [c];
    assert SkipSpaceRight([c]) == [c];
  }

  /** The longest prefix of `s` made of decimal digits. */
  function LeadingDigits(s: string): (p: string)
    ensures AllDigits(p) && |p| <= |s| && p == s[..|p|]
    ensures |p| < |s| ==> !IsDigit(s[|p|])
  {
    if s != [] && IsDigit(s[0]) then [s[0]] + LeadingDigits(s[1..]) else []
  }

  lemma LeadingDigitsOfDigits(s: string)
    requires AllDigits(s)
    ensures LeadingDigits(s) == s
  {
  }

  /**
   * `intval($s)` / `(int)$s` on the strings the services read back:
   * leading whitespace, an optional sign, then as many digits as there are;
   * no digits give 0. A leading number with a fraction or an exponent
   * (`"1e3"`, which PHP reads as 1000) is not modelled: the numbers read
   * back are generated as digits only.
   */
  function IntVal(s: string): int
  {
    var t := SkipSpace(s);
    if t != [] && t[0] == '-' then -(DigitsValue(LeadingDigits(t[1..])) as int)
    else if t != [] && t[0] == '+' then DigitsValue(LeadingDigits(t[1..]))
    else DigitsValue(LeadingDigits(t))
  }

  lemma IntValOfDigits(s: string)
    requires AllDigits(s)
    ensures IntVal(s) == DigitsValue(s)
  {
    assert s == [] || !IsPhpSpace(s[0]);
    assert SkipSpace(s) == s;
    LeadingDigitsOfDigits(s);
  }

  /** Reading back a zero-padded printed number gives the number. */
  lemma IntValOfPadded(n: nat, width: nat)
    ensures IntVal(PadLeft(NatToString(n), width, '0')) == n
  {
    PaddedDigitsValue(n, width);
    IntValOfDigits(PadLeft(NatToString(n), width, '0'));
  }

  // ---------------------------------------------------------------------
  // Substrings: SQL LIKE '%x%' and JavaScript String.prototype.replace

  predicate OccursAt(s: string, p: string, i: int)
  {
    0 <= i && i + |p| <= |s| && s[i..i + |p|] == p
  }

  /** `s LIKE '%p%'`, read as plain substring search. */
  predicate Contains(s: string, p: string)
  {
    exists i :: 0 <= i <= |s| && OccursAt(s, p, i)
  }

  /** The first position at which `p` occurs in `s`, if any. */
  function FirstIndex(s: string, p: string): (r: Option<nat>)
    ensures r.Some? ==> OccursAt(s, p, r.value) && forall j :: 0 <= j < r.value ==> !OccursAt(s, p, j)
    ensures r.None? ==> forall j :: 0 <= j <= |s| ==> !OccursAt(s, p, j)
    decreases |s|
  {
    if |p| > |s| then None
    else if s[..|p|] == p then Some(0)
    else
      OccursShift(s, p);
      match FirstIndex(s[1..], p)
      case None => None
      case Some(k) => Some(k + 1)
  }

  lemma ContainsFirstIndex(s: string, p: string)
    ensures Contains(s, p) <==> FirstIndex(s, p).Some?
  {
    if FirstIndex(s, p).Some? {
      assert OccursAt(s, p, FirstIndex(s, p).value);
    }
  }

  lemma OccursShift(s: string, p: string)
    requires s != []
    ensures forall j :: 1 <= j ==> (OccursAt(s, p, j) <==> OccursAt(s[1..], p, j - 1))
  {
    forall j | 1 <= j ensures OccursAt(s, p, j) <==> OccursAt(s[1..], p, j - 1) {
      if j + |p| <= |s| {
        assert s[1..][j - 1..j - 1 + |p|] == s[j..j + |p|];
      }
    }
  }

  /** `s.replace(p, r)` with a string pattern: only the first occurrence is replaced. */
  function ReplaceFirst(s: string, p: string, r: string): (t: string)
    ensures !Contains(s, p) ==> t == s
    ensures Contains(s, p) ==> exists i :: 0 <= i <= |s| && OccursAt(s, p, i) && (forall j :: 0 <= j < i ==> !OccursAt(s, p, j)) && t == s[..i] + r + s[i + |p|..]
  {
    ContainsFirstIndex(s, p);
    match FirstIndex(s, p)
    case None => s
    case Some(i) => s[..i] + r + s[i + |p|..]
  }

  // ---------------------------------------------------------------------
  // PHP trim and truthiness

  /** The characters PHP's trim() removes by default: " \t\n\r\0\x0B". */
  predicate IsTrimChar(c: char)
  {
    c == ' ' || c == '\t' || c == '\n' || c == '\r' || c as int == 0 || c as int == 11
  }

  function TrimLeft(s: string): (t: string)
    ensures |t| <= |s| && t == s[|s| - |t|..]
    ensures t == [] || !IsTrimChar(t[0])
  {
    if s != [] && IsTrimChar(s[0]) then TrimLeft(s[1..]) else s
  }

  function TrimRight(s: string): (t: string)
    ensures |t| <= |s| && t == s[..|t|]
    ensures t == [] || !IsTrimChar(t[|t| - 1])
  {
    if s != [] && IsTrimChar(s[|s| - 1]) then TrimRight(s[..|s| - 1]) else s
  }

  /** `trim($s)`: strips the trim characters from both ends, nothing else. */
  function Trim(s: string): (t: string)
    ensures t == [] || (!IsTrimChar(t[0]) && !IsTrimChar(t[|t| - 1]))
    ensures Contains(s, t)
  {
    var l := TrimLeft(s);
    var t := TrimRight(l);
    assert t != [] ==> t[0] == l[0];
    assert t == s[|s| - |l|..|s| - |l| + |t|];
    assert OccursAt(s, t, |s| - |l|);
    t
  }

  lemma TrimNoOp(s: string)
    requires s == [] || (!IsTrimChar(s[0]) && !IsTrimChar(s[|s| - 1]))
    ensures Trim(s) == s
  {
  }

  /** PHP `empty($s)` / `!$s` for a possibly-absent string: null, "" and "0" are falsy. */
  predicate PhpEmpty(s: Option<string>)
  {
    s.None? || s.value == "" || s.value == "0"
  }

  /** PCRE's `$` (without the `D` modifier) also matches just before a final newline. */
  function StripFinalNewline(s: string): (b: string)
    ensures b == s || s == b + "\n"
    ensures s != [] && s[|s| - 1] == '\n' ==> s == b + "\n"
  {
    if s != [] && s[|s| - 1] == '\n' then s[..|s| - 1] else s
  }

  // ---------------------------------------------------------------------
  // Stable insertion sort, the model of a read query's ORDER BY

  ghost predicate TotalPreorder<T(!new)>(le: (T, T) -> bool)
  {
    && (forall a, b :: le(a, b) || le(b, a))
    && (forall a, b, c :: le(a, b) && le(b, c) ==> le(a, c))
  }

  predicate SortedBy<T>(s: seq<T>, le: (T, T) -> bool)
  {
    forall i, j :: 0 <= i < j < |s| ==> le(s[i], s[j])
  }

  function Insert<T>(x: T, s: seq<T>, le: (T, T) -> bool): (r: seq<T>)
    ensures multiset(r) == multiset(s) + multiset{x}
  {
    if s == [] then [x]
    else if le(x, s[0]) then [x] + s
    else
      assert s == [s[0]] + s[1..];
      [s[0]] + Insert(x, s[1..], le)
  }

  function SortBy<T>(s: seq<T>, le: (T, T) -> bool): (r: seq<T>)
    ensures multiset(r) == multiset(s)
  {
    if s == [] then []
    else
      assert s == [s[0]] + s[1..];
      Insert(s[0], SortBy(s[1..], le), le)
  }

  lemma {:induction false} InsertSorted<T(!new)>(x: T, s: seq<T>, le: (T, T) -> bool)
    requires TotalPreorder(le) && SortedBy(s, le)
    ensures SortedBy(Insert(x, s, le), le)
    decreases |s|
  {
    if s != [] && !le(x, s[0]) {
      InsertSorted(x, s[1..], le);
      HeadBelowInsert(x, s, le);
      ConsSorted(s[0], Insert(x, s[1..], le), le);
    }
  }

  /** The head of a sorted sequence stays below everything once `x` is inserted after it. */
  lemma HeadBelowInsert<T(!new)>(x: T, s: seq<T>, le: (T, T) -> bool)
    requires TotalPreorder(le) && SortedBy(s, le) && s != [] && !le(x, s[0])
    ensures forall k :: 0 <= k < |Insert(x, s[1..], le)| ==> le(s[0], Insert(x, s[1..], le)[k])
  {
    var t := Insert(x, s[1..], le);
    forall k | 0 <= k < |t| ensures le(s[0], t[k]) {
      var y := t[k];
      assert y in multiset(t);
      if y != x {
        assert y in multiset(s[1..]);
        var j :| 0 <= j < |s[1..]| && s[1..][j] == y;
        assert s[j + 1] == y;
      }
    }
  }

  lemma ConsSorted<T>(h: T, t: seq<T>, le: (T, T) -> bool)
    requires SortedBy(t, le) && forall k :: 0 <= k < |t| ==> le(h, t[k])
    ensures SortedBy([h] + t, le)
  {
    var r := [h] + t;
    forall i, j | 0 <= i < j < |r| ensures le(r[i], r[j]) {
      if i == 0 { assert r[j] == t[j - 1]; } else { assert r[i] == t[i - 1] && r[j] == t[j - 1]; }
    }
  }

  lemma {:induction false} SortBySorted<T(!new)>(s: seq<T>, le: (T, T) -> bool)
    requires TotalPreorder(le)
    ensures SortedBy(SortBy(s, le), le)
  {
    if s != [] {
      SortBySorted(s[1..], le);
      InsertSorted(s[0], SortBy(s[1..], le), le);
    }
  }

  /**
   * The first k elements of a sorted sequence are taken from it, and every
   * occurrence left out sorts after each element taken.
   */
  lemma SortedPrefixIsTop<T>(s: seq<T>, k: nat, le: (T, T) -> bool)
    requires SortedBy(s, le) && k <= |s|
    ensures multiset(s[..k]) <= multiset(s)
    ensures forall m, x :: multiset(s[..k])[m] < multiset(s)[m] && x in s[..k] ==> le(x, m)
  {
    assert s == s[..k] + s[k..];
    forall m, x | multiset(s[..k])[m] < multiset(s)[m] && x in s[..k] ensures le(x, m) {
      assert m in multiset(s[k..]);
      var j :| 0 <= j < |s[k..]| && s[k..][j] == m;
      var i :| 0 <= i < k && s[..k][i] == x;
      assert s[i] == x && s[k + j] == m;
    }
  }

  /** `orderBy(...)->take(k)`: the first k elements in sorted order. */
  function TopBy<T(!new)>(s: seq<T>, k: nat, le: (T, T) -> bool): (r: seq<T>)
    requires TotalPreorder(le)
    ensures |r| == if k < |s| then k else |s|
    ensures SortedBy(r, le)
    ensures multiset(r) <= multiset(s)
    ensures forall m, x :: multiset(r)[m] < multiset(s)[m] && x in r ==> le(x, m)
  {
    var sorted := SortBy(s, le);
    SortBySorted(s, le);
    var n := if k < |sorted| then k else |sorted|;
    SortedPrefixIsTop(sorted, n, le);
    sorted[..n]
  }

  /** String order by code points; empty first, prefixes first. */
  predicate StrLe(a: string, b: string)
  {
    if a == [] then true
    else if b == [] then false
    else if a[0] != b[0] then a[0] < b[0]
    else StrLe(a[1..], b[1..])
  }

  lemma {:induction false} StrLeTotal(a: string, b: string)
    ensures StrLe(a, b) || StrLe(b, a)
  {
    if a != [] && b != [] && a[0] == b[0] { StrLeTotal(a[1..], b[1..]); }
  }

  lemma {:induction false} StrLeTransitive(a: string, b: string, c: string)
    requires StrLe(a, b) && StrLe(b, c)
    ensures StrLe(a, c)
  {
    if a != [] && b != [] && c != [] && a[0] == b[0] && b[0] == c[0] {
      StrLeTransitive(a[1..], b[1..], c[1..]);
    }
  }

  // ---------------------------------------------------------------------
  // Largest element of a finite set, the model of `latest('id')->first()`

  function MaxOf(s: set<nat>): (m: nat)
    requires s != {}
    ensures m in s && forall x :: x in s ==> x <= m
  {
    MaxExists(s);
    var m :| m in s && forall x :: x in s ==> x <= m;
    m
  }

  lemma {:induction false} MaxExists(s: set<nat>)
    requires s != {}
    ensures exists m :: m in s && forall x :: x in s ==> x <= m
  {
    var y :| y in s;
    if s != {y} {
      MaxExists(s - {y});
      var m :| m in s - {y} && forall x :: x in s - {y} ==> x <= m;
      var top := if y > m then y else m;
      forall x | x in s ensures x <= top {
        if x != y { assert x in s - {y}; }
      }
      assert top in s;
    } else {
      assert forall x :: x in s ==> x <= y;
    }
  }

  // ---------------------------------------------------------------------
  // Document numbers: a prefix and a zero-padded counter

  /** PHP 8 `substr($s, $k)` for `k >= 0`: the rest of the string, empty past its end. */
  function Substr(s: string, k: nat): (t: string)
    ensures k <= |s| ==> t == s[k..]
    ensures k > |s| ==> t == []
  {
    if k <= |s| then s[k..] else []
  }

  /** `$prefix . str_pad($n, $width, '0', STR_PAD_LEFT)`. */
  function FormatSerial(prefix: string, n: int, width: nat): (s: string)
    ensures |s| >= |prefix| + width && s[..|prefix|] == prefix
  {
    prefix + PadLeft(IntToString(n), width, '0')
  }

  /** Cutting the prefix off a formatted number and reading the rest back gives the counter. */
  lemma SerialRoundTrip(prefix: string, n: nat, width: nat)
    ensures Substr(FormatSerial(prefix, n, width), |prefix|) == PadLeft(NatToString(n), width, '0')
    ensures IntVal(Substr(FormatSerial(prefix, n, width), |prefix|)) == n
  {
    var s := FormatSerial(prefix, n, width);
    assert s[|prefix|..] == PadLeft(NatToString(n), width, '0');
    IntValOfPadded(n, width);
  }

  /** Distinct counters give distinct numbers under the same prefix. */
  lemma FormatSerialInjective(prefix: string, m: nat, n: nat, width: nat)
    requires FormatSerial(prefix, m, width) == FormatSerial(prefix, n, width)
    ensures m == n
  {
    SerialRoundTrip(prefix, m, width);
    SerialRoundTrip(prefix, n, width);
  }

  // ---------------------------------------------------------------------
  // Line items and their sums

  /** The amounts of a list of line items, in order. */
  function Amounts<T>(xs: seq<T>, amount: T -> int): (r: seq<int>)
    ensures |r| == |xs| && forall i :: 0 <= i < |xs| ==> r[i] == amount(xs[i])
  {
    seq(|xs|, i requires 0 <= i < |xs| => amount(xs[i]))
  }

  /** `foreach ($items as $item) { $total += $item['amount']; }` */
  method SumAmounts<T>(xs: seq<T>, amount: T -> int) returns (total: int)
    ensures total == Sum(Amounts(xs, amount))
  {
    total := 0;
    var i := 0;
    while i < |xs|
      invariant 0 <= i <= |xs|
      invariant total == Sum(Amounts(xs[..i], amount))
    {
      assert Amounts(xs[..i + 1], amount)[..i] == Amounts(xs[..i], amount);
      total := total + amount(xs[i]);
      i := i + 1;
    }
    assert xs[..i] == xs;
  }

  /** Deleting the element at position `j`; the others keep their order. */
  function RemoveAt<T>(s: seq<T>, j: nat): (r: seq<T>)
    requires j < |s|
    ensures |r| == |s| - 1
    ensures forall i :: 0 <= i < |r| ==> r[i] == if i < j then s[i] else s[i + 1]
  {
    s[..j] + s[j + 1..]
  }

  /** A child row: the id of the row that owns it, and its data. */
  datatype Row<T> = Row(owner: nat, item: T)

  /** The data of the rows owned by `owner`, in table order. */
  function ItemsOf<T>(rows: seq<Row<T>>, owner: nat): seq<T>
  {
    if rows == [] then []
    else ItemsOf(rows[..|rows| - 1], owner)
         + (if rows[|rows| - 1].owner == owner then [rows[|rows| - 1].item] else [])
  }

  /** `$parent->children()->delete()`: every row of `owner` removed, the others kept in order. */
  function DropOwner<T(!new)>(rows: seq<Row<T>>, owner: nat): (r: seq<Row<T>>)
    ensures forall x :: x in r <==> x in rows && x.owner != owner
  {
    if rows == [] then []
    else DropOwner(rows[..|rows| - 1], owner)
         + (if rows[|rows| - 1].owner == owner then [] else [rows[|rows| - 1]])
  }

  /** `foreach ($items as $item) { $parent->children()->create($item); }` */
  function RowsOf<T>(owner: nat, xs: seq<T>): (r: seq<Row<T>>)
    ensures |r| == |xs| && forall i :: 0 <= i < |xs| ==> r[i] == Row(owner, xs[i])
  {
    seq(|xs|, i requires 0 <= i < |xs| => Row(owner, xs[i]))
  }

  lemma {:induction false} ItemsOfAppend<T>(a: seq<Row<T>>, b: seq<Row<T>>, owner: nat)
    ensures ItemsOf(a + b, owner) == ItemsOf(a, owner) + ItemsOf(b, owner)
    decreases |b|
  {
    if b != [] {
      assert (a + b)[..|a + b| - 1] == a + b[..|b| - 1];
      ItemsOfAppend(a, b[..|b| - 1], owner);
    } else {
      assert a + b == a;
    }
  }

  /** The rows created for `owner` hold exactly the supplied items, and none of anyone else's. */
  lemma {:induction false} ItemsOfRowsOf<T>(owner: nat, xs: seq<T>, other: nat)
    ensures ItemsOf(RowsOf(owner, xs), other) == if other == owner then xs else []
    decreases |xs|
  {
    if xs != [] {
      assert RowsOf(owner, xs)[..|xs| - 1] == RowsOf(owner, xs[..|xs| - 1]);
      ItemsOfRowsOf(owner, xs[..|xs| - 1], other);
      if other == owner { assert xs == xs[..|xs| - 1] + [xs[|xs| - 1]]; }
    }
  }

  /** Deleting the children of `owner` leaves it none and every other owner its own. */
  lemma {:induction false} ItemsOfDropOwner<T(!new)>(rows: seq<Row<T>>, owner: nat, other: nat)
    ensures ItemsOf(DropOwner(rows, owner), other) == if other == owner then [] else ItemsOf(rows, other)
    decreases |rows|
  {
    if rows != [] {
      var init, last := rows[..|rows| - 1], rows[|rows| - 1];
      ItemsOfDropOwner(init, owner, other);
      ItemsOfAppend(DropOwner(init, owner), if last.owner == owner then [] else [last], other);
      assert ItemsOf([last], other) == (if last.owner == other then [last.item] else []) by {
        assert [last][..0] == [];
      }
      assert ItemsOf<T>([], other) == [];
    }
  }

  /**
   * Deleting the children of `owner` and creating rows from `xs` leaves
   * `owner` exactly the items `xs` and every other owner its own.
   */
  lemma ReplaceChildren<T(!new)>(rows: seq<Row<T>>, owner: nat, xs: seq<T>, other: nat)
    ensures ItemsOf(DropOwner(rows, owner) + RowsOf(owner, xs), other)
            == if other == owner then xs else ItemsOf(rows, other)
  {
    ItemsOfAppend(DropOwner(rows, owner), RowsOf(owner, xs), other);
    ItemsOfDropOwner(rows, owner, other);
    ItemsOfRowsOf(owner, xs, other);
  }

  /** Every child row names an owner id the parent table has already handed out. */
  ghost predicate OwnersBelow<T>(rows: seq<Row<T>>, nextId: nat)
  {
    forall k :: 0 <= k < |rows| ==> rows[k].owner < nextId
  }

  lemma {:induction false} NoRowsOfFresh<T>(rows: seq<Row<T>>, nextId: nat)
    requires OwnersBelow(rows, nextId)
    ensures ItemsOf(rows, nextId) == []
    decreases |rows|
  {
    if rows != [] {
      NoRowsOfFresh(rows[..|rows| - 1], nextId);
      assert rows[|rows| - 1].owner < nextId;
    }
  }

  /** Rows appended for a fresh id give it exactly the new items and leave every existing owner its own. */
  lemma AppendFreshRows<T>(rows: seq<Row<T>>, nextId: nat, xs: seq<T>, other: nat)
    requires OwnersBelow(rows, nextId) && other <= nextId
    ensures ItemsOf(rows + RowsOf(nextId, xs), other) == if other == nextId then xs else ItemsOf(rows, other)
    ensures OwnersBelow(rows + RowsOf(nextId, xs), nextId + 1)
  {
    if other == nextId { NoRowsOfFresh(rows, nextId); }
    ItemsOfAppend(rows, RowsOf(nextId, xs), other);
    ItemsOfRowsOf(nextId, xs, other);
    var r := rows + RowsOf(nextId, xs);
    forall k | 0 <= k < |r| ensures r[k].owner < nextId + 1 {
      if k < |rows| { assert r[k] == rows[k]; } else { assert r[k] == RowsOf(nextId, xs)[k - |rows|]; }
    }
  }

  /** Replacing the children of an existing owner keeps every owner below the counter. */
  lemma ReplaceKeepsOwnersBelow<T(!new)>(rows: seq<Row<T>>, owner: nat, xs: seq<T>, nextId: nat)
    requires OwnersBelow(rows, nextId) && owner < nextId
    ensures OwnersBelow(DropOwner(rows, owner) + RowsOf(owner, xs), nextId)
  {
    var r := DropOwner(rows, owner) + RowsOf(owner, xs);
    forall k | 0 <= k < |r| ensures r[k].owner < nextId {
      if k < |DropOwner(rows, owner)| { assert r[k] in DropOwner(rows, owner); }
    }
  }
}
