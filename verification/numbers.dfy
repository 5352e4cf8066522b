/** The JavaScript number parsers the components call, over exact decimals:
    `parseInt` (decimal, or hexadecimal after "0x") and `parseFloat` (a
    decimal prefix, kept as mantissa / 10^scale). Exponents and "Infinity"
    are not recognised by this model. */
module Numbers {
  import opened Values

  predicate IsDigit(c: char) { '0' <= c <= '9' }

  predicate AllDigits(s: string) {
    forall i :: 0 <= i < |s| ==> IsDigit(s[i])
  }

  predicate IsHexDigit(c: char) {
    IsDigit(c) || 'a' <= c <= 'f' || 'A' <= c <= 'F'
  }

  function HexVal(c: char): nat
    requires IsHexDigit(c)
  {
    if IsDigit(c) then c as int - '0' as int
    else if 'a' <= c <= 'f' then c as int - 'a' as int + 10
    else c as int - 'A' as int + 10
  }

  /** The value of a run of digits in base 10 or 16. */
  function DigitsValue(d: string, base: nat): nat
    requires forall i :: 0 <= i < |d| ==> IsHexDigit(d[i])
  {
    if d == [] then 0 else DigitsValue(d[..|d| - 1], base) * base + HexVal(d[|d| - 1])
  }

  /** Length of the longest prefix of `s` whose characters satisfy `ok`. */
  function PrefixLen(s: string, ok: char -> bool): (n: nat)
    ensures n <= |s|
    ensures forall i :: 0 <= i < n ==> ok(s[i])
    ensures n < |s| ==> !ok(s[n])
  {
    if s == [] || !ok(s[0]) then 0 else 1 + PrefixLen(s[1..], ok)
  }

  /** The characters that `parseInt` and `parseFloat` skip before a number
      (white space and line terminators of ECMAScript). */
  predicate IsJsSpace(c: char) {
    c == '\t' || c == '\n' || c == '\U{000B}' || c == '\U{000C}' || c == '\r' || c == ' '
    || c == '\U{00A0}' || c == '\U{1680}' || '\U{2000}' <= c <= '\U{200A}'
    || c == '\U{2028}' || c == '\U{2029}' || c == '\U{202F}' || c == '\U{205F}'
    || c == '\U{3000}' || c == '\U{FEFF}'
  }

  function SkipSpace(s: string): (t: string)
    ensures |t| <= |s| && t == s[|s| - |t|..]
    ensures |t| > 0 ==> !IsJsSpace(t[0])
  {
    s[PrefixLen(s, IsJsSpace)..]
  }

  /** A sign character, when there is one, and what follows it. */
  function Unsigned(t: string): string {
    if |t| > 0 && (t[0] == '-' || t[0] == '+') then t[1..] else t
  }

  function Negated(t: string): bool {
    |t| > 0 && t[0] == '-'
  }

  /** What is left after the white space and the sign is a suffix of the
      input; a plain numeral has neither. */
  lemma NumeralStart(s: string)
    ensures Unsigned(SkipSpace(s)) == s[|s| - |Unsigned(SkipSpace(s))|..]
    ensures s != "" && AllDigits(s) ==> SkipSpace(s) == s && Unsigned(s) == s && PrefixLen(s, IsDigit) == |s|
  {
    if s != "" && AllDigits(s) {
      assert PrefixLen(s, IsJsSpace) == 0;
      PrefixLenAll(s, IsDigit);
    }
  }

  /** `parseInt(s)` without a radix; None stands for NaN. */
  function ParseInt(s: string): (r: Option<int>)
    ensures (forall i :: 0 <= i < |s| ==> !IsDigit(s[i])) ==> r.None?
    ensures s != "" && AllDigits(s) ==> r == Some(DigitsValue(s, 10))
  {
    NumeralStart(s);
    var t := SkipSpace(s);
    match ParseMagnitude(Unsigned(t))
    case None => None
    case Some(m) => var v: int := m; Some(if Negated(t) then -v else v)
  }

  lemma PrefixLenDigits(u: string)
    ensures AllDigits(u) ==> PrefixLen(u, IsDigit) == |u| && u[..|u|] == u
  {
    if AllDigits(u) {
      PrefixLenAll(u, IsDigit);
    }
  }

  /** The digits `parseInt` reads after the sign: hexadecimal after "0x",
      decimal otherwise. */
  function ParseMagnitude(u: string): (r: Option<nat>)
    ensures (forall i :: 0 <= i < |u| ==> !IsDigit(u[i])) ==> r.None?
    ensures u != "" && AllDigits(u) ==> r == Some(DigitsValue(u, 10))
  {
    var hex := |u| >= 2 && u[0] == '0' && (u[1] == 'x' || u[1] == 'X');
    var body := if hex then u[2..] else u;
    var n := if hex then PrefixLen(body, IsHexDigit) else PrefixLen(body, IsDigit);
    PrefixLenDigits(u);
    if n == 0 then None
    else Some(DigitsValue(body[..n], if hex then 16 else 10))
  }

  /** A string that starts with neither space, sign nor digit is NaN. */
  lemma ParseIntNotNumeric(s: string)
    requires s == [] || (!IsJsSpace(s[0]) && s[0] != '-' && s[0] != '+' && !IsDigit(s[0]))
    ensures ParseInt(s) == None
  {
    assert PrefixLen(s, IsJsSpace) == 0;
    assert SkipSpace(s) == s;
  }

  /** A decimal number: mantissa / 10^scale. */
  datatype Decimal = Decimal(mantissa: int, scale: nat)

  function Pow10(k: nat): (p: nat)
    ensures p >= 1
  {
    if k == 0 then 1 else 10 * Pow10(k - 1)
  }

  /** `parseFloat(s)` on the decimal forms; None stands for NaN. */
  function ParseFloat(s: string): (r: Option<Decimal>)
    ensures (forall i :: 0 <= i < |s| ==> !IsDigit(s[i])) ==> r.None?
    ensures s != "" && AllDigits(s) ==> r == Some(Decimal(DigitsValue(s, 10), 0))
  {
    NumeralStart(s);
    var t := SkipSpace(s);
    match ParseUnsignedDecimal(Unsigned(t))
    case None => None
    case Some(d) => Some(if Negated(t) then Decimal(-d.mantissa, d.scale) else d)
  }

  /** The digits, and the fraction after a point, that `parseFloat` reads
      after the sign. */
  function ParseUnsignedDecimal(u: string): (r: Option<Decimal>)
    ensures (forall i :: 0 <= i < |u| ==> !IsDigit(u[i])) ==> r.None?
    ensures u != "" && AllDigits(u) ==> r == Some(Decimal(DigitsValue(u, 10), 0))
    ensures r.Some? ==> r.value.mantissa >= 0
  {
    var n := PrefixLen(u, IsDigit);
    var rest := u[n..];
    var frac := if |rest| > 0 && rest[0] == '.' then rest[1..][..PrefixLen(rest[1..], IsDigit)] else "";
    PrefixLenDigits(u);
    assert u[..n] + "" == u[..n];
    if n + |frac| == 0 then None
    else Some(Decimal(DigitsValue(u[..n] + frac, 10), |frac|))
  }

  /** A string without digits is not a number. */
  lemma ParseFloatWithoutDigits(s: string)
    requires forall i :: 0 <= i < |s| ==> !IsDigit(s[i])
    ensures ParseFloat(s) == None
  {
    var t := SkipSpace(s);
    var u := Unsigned(t);
    assert forall i :: 0 <= i < |u| ==> u[i] == s[|s| - |u| + i];
    assert PrefixLen(u, IsDigit) == 0;
    if |u| > 0 && u[0] == '.' {
      assert PrefixLen(u[1..], IsDigit) == 0;
    }
  }

  /** The decimal value is below the integer `t`. */
  predicate Below(d: Decimal, t: int) {
    d.mantissa < t * Pow10(d.scale)
  }

  function Abs(x: int): nat { if x < 0 then -x else x }

  /** |p - c| <= c / 5, compared exactly over a common denominator. */
  predicate WithinFifth(p: Decimal, c: Decimal) {
    var pn := p.mantissa * Pow10(c.scale);
    var cn := c.mantissa * Pow10(p.scale);
    5 * Abs(pn - cn) <= cn
  }

  /** The decimal numeral of `n`, as `String(n)` prints it. */
  function ShowNat(n: nat): (s: string)
    ensures |s| > 0 && AllDigits(s)
    ensures n >= 10 ==> s[0] != '0'
  {
    if n < 10 then [('0' as int + n) as char]
    else ShowNat(n / 10) + [('0' as int + n % 10) as char]
  }

  lemma {:induction false} ShowNatValue(n: nat)
    ensures forall i :: 0 <= i < |ShowNat(n)| ==> IsHexDigit(ShowNat(n)[i])
    ensures DigitsValue(ShowNat(n), 10) == n
  {
    if n >= 10 {
      ShowNatValue(n / 10);
      var s := ShowNat(n);
      assert s[..|s| - 1] == ShowNat(n / 10);
    }
  }

  /** A run that passes `ok`, followed by nothing or by a character that
      fails it, is the whole prefix `PrefixLen` measures. */
  lemma {:induction false} PrefixLenOf(a: string, rest: string, ok: char -> bool)
    requires forall i :: 0 <= i < |a| ==> ok(a[i])
    requires rest == [] || !ok(rest[0])
    ensures PrefixLen(a + rest, ok) == |a|
  {
    if a == [] {
      assert a + rest == rest;
    } else {
      assert (a + rest)[1..] == a[1..] + rest;
      PrefixLenOf(a[1..], rest, ok);
    }
  }

  lemma PrefixLenAll(s: string, ok: char -> bool)
    requires forall i :: 0 <= i < |s| ==> ok(s[i])
    ensures PrefixLen(s, ok) == |s|
  {
  }

  /** `parseInt(String(n)) == n` for every natural number. */
  lemma {:induction false} ParseIntShowNat(n: nat)
    ensures ParseInt(ShowNat(n)) == Some(n)
  {
    var s := ShowNat(n);
    assert PrefixLen(s, IsJsSpace) == 0;
    assert SkipSpace(s) == s;
    assert Unsigned(s) == s;
    PrefixLenAll(s, IsDigit);
    ShowNatValue(n);
    assert s[..|s|] == s;
  }

  /** `parseFloat(String(n)) == n` for every natural number. */
  lemma {:induction false} ParseFloatShowNat(n: nat)
    ensures ParseFloat(ShowNat(n)) == Some(Decimal(n, 0))
  {
    var s := ShowNat(n);
    assert PrefixLen(s, IsJsSpace) == 0;
    assert SkipSpace(s) == s;
    assert Unsigned(s) == s;
    PrefixLenAll(s, IsDigit);
    ShowNatValue(n);
    assert s[..|s|] + "" == s;
  }
}
