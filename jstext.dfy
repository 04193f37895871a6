/** JavaScript strings as sequences of UTF-16 code units, and the few
    String.prototype operations the application relies on. */
module JsText {

  /** One UTF-16 code unit, as `charCodeAt` returns it. */
  type CodeUnit = x: int | 0 <= x < 0x1_0000

  /** A JavaScript string: `length`, indexing and `split('')` all work on code units. */
  type JsString = seq<CodeUnit>

  datatype Option<+T> = None | Some(value: T)

  /** The code units `String.prototype.trim` removes: the WhiteSpace and
      LineTerminator code points of ECMA-262 that lie in the BMP. */
  predicate IsTrimmable(c: CodeUnit)
  {
    c == 0x09 || c == 0x0A || c == 0x0B || c == 0x0C || c == 0x0D || c == 0x20 ||
    c == 0xA0 || c == 0x1680 || (0x2000 <= c <= 0x200A) || c == 0x2028 ||
    c == 0x2029 || c == 0x202F || c == 0x205F || c == 0x3000 || c == 0xFEFF
  }

  /** `!s.trim()` in JavaScript: the string is empty or only whitespace. */
  predicate IsBlank(s: JsString)
  {
    forall i | 0 <= i < |s| :: IsTrimmable(s[i])
  }

  /** Number of leading whitespace code units. */
  function LeadingSpace(s: JsString): (n: nat)
    ensures n <= |s|
    ensures forall i | 0 <= i < n :: IsTrimmable(s[i])
    ensures n < |s| ==> !IsTrimmable(s[n])
  {
    if s != [] && IsTrimmable(s[0]) then 1 + LeadingSpace(s[1..]) else 0
  }

  /** Number of trailing whitespace code units. */
  function TrailingSpace(s: JsString): (n: nat)
    ensures n <= |s|
    ensures forall i | |s| - n <= i < |s| :: IsTrimmable(s[i])
    ensures n < |s| ==> !IsTrimmable(s[|s| - 1 - n])
  {
    if s != [] && IsTrimmable(s[|s| - 1]) then 1 + TrailingSpace(s[..|s| - 1]) else 0
  }

  /** `s.trim()`: the slice of `s` left after dropping whitespace at both ends. */
  function Trim(s: JsString): (r: JsString)
    ensures LeadingSpace(s) + |r| <= |s|
    ensures r == s[LeadingSpace(s)..LeadingSpace(s) + |r|]
    ensures forall i | 0 <= i < LeadingSpace(s) :: IsTrimmable(s[i])
    ensures forall i | LeadingSpace(s) + |r| <= i < |s| :: IsTrimmable(s[i])
    ensures r != [] ==> !IsTrimmable(r[0]) && !IsTrimmable(r[|r| - 1])
    ensures r == [] <==> IsBlank(s)
  {
    var t := s[LeadingSpace(s)..];
    t[..|t| - TrailingSpace(t)]
  }

  /** `toLowerCase` restricted to ASCII: 'A'..'Z' become 'a'..'z'. */
  function LowerUnit(c: CodeUnit): CodeUnit
  {
    if 'A' as int <= c <= 'Z' as int then c + 32 else c
  }

  /** `toUpperCase` restricted to ASCII: 'a'..'z' become 'A'..'Z'. */
  function UpperUnit(c: CodeUnit): CodeUnit
  {
    if 'a' as int <= c <= 'z' as int then c - 32 else c
  }

  function ToLowerAscii(s: JsString): (r: JsString)
    ensures |r| == |s|
    ensures forall i | 0 <= i < |s| :: r[i] == LowerUnit(s[i])
  {
    seq(|s|, i requires 0 <= i < |s| => LowerUnit(s[i]))
  }

  function ToUpperAscii(s: JsString): (r: JsString)
    ensures |r| == |s|
    ensures forall i | 0 <= i < |s| :: r[i] == UpperUnit(s[i])
  {
    seq(|s|, i requires 0 <= i < |s| => UpperUnit(s[i]))
  }

  /** A string literal of the model as code units; every literal used is in the BMP. */
  function Units(s: string): (r: JsString)
    requires forall i | 0 <= i < |s| :: s[i] as int < 0x1_0000
    ensures |r| == |s|
    ensures forall i | 0 <= i < |s| :: r[i] == s[i] as int
  {
    seq(|s|, i requires 0 <= i < |s| => s[i] as int)
  }

  /** `s.startsWith(p)`. */
  predicate StartsWith(s: JsString, p: JsString)
  {
    |p| <= |s| && s[..|p|] == p
  }

  /** The code unit of a decimal digit. */
  function DigitUnit(d: nat): CodeUnit
    requires d < 10
  {
    '0' as int + d
  }

  predicate IsDigitUnit(c: CodeUnit)
  {
    '0' as int <= c <= '9' as int
  }

  /** `n.toString()` for a non-negative integer. */
  function Decimal(n: nat): (r: JsString)
    ensures |r| >= 1
    ensures forall i | 0 <= i < |r| :: IsDigitUnit(r[i])
    ensures |r| > 1 ==> r[0] != '0' as int
  {
    if n < 10 then [DigitUnit(n)] else Decimal(n / 10) + [DigitUnit(n % 10)]
  }

  /** The value of a string of decimal digits, the inverse of `Decimal`. */
  function DecimalValue(s: JsString): nat
    requires forall i | 0 <= i < |s| :: IsDigitUnit(s[i])
  {
    if s == [] then 0
    else
      assert IsDigitUnit(s[|s| - 1]);
      10 * DecimalValue(s[..|s| - 1]) + (s[|s| - 1] - '0' as int)
  }

  /** Reading back what `Decimal` writes gives the number again. */
  lemma {:induction false} DecimalRoundTrip(n: nat)
    ensures DecimalValue(Decimal(n)) == n
  {
    if n >= 10 {
      var r := Decimal(n);
      assert r[..|r| - 1] == Decimal(n / 10);
      DecimalRoundTrip(n / 10);
    }
  }

  /** Different numbers print differently. */
  lemma DecimalInjective(m: nat, n: nat)
    requires Decimal(m) == Decimal(n)
    ensures m == n
  {
    DecimalRoundTrip(m);
    DecimalRoundTrip(n);
  }

  // ----- Strings drawn with Math.random -----

  /** Values `Math.random()` may return: reals in [0, 1). */
  predicate AreRandomValues(draws: seq<real>)
  {
    forall i | 0 <= i < |draws| :: 0.0 <= draws[i] < 1.0
  }

  /** `Math.floor(random * n)`. */
  function ScaledIndex(random: real, n: nat): int
  {
    (random * n as real).Floor
  }

  /** A value of `Math.random()` lies in [0, 1), so the index lies in [0, n). */
  lemma ScaledIndexInRange(random: real, n: nat)
    requires 0.0 <= random < 1.0 && n > 0
    ensures 0 <= ScaledIndex(random, n) < n
  {
    assert 0.0 <= random * n as real < n as real;
  }

  /** `s.charAt(i)`: the unit at `i`, or the empty string out of range. */
  function CharAt(s: JsString, i: int): (r: JsString)
    ensures |r| <= 1
    ensures 0 <= i < |s| ==> r == [s[i]]
    ensures !(0 <= i < |s|) ==> r == []
  {
    if 0 <= i < |s| then [s[i]] else []
  }

  /** The string the loop `result += chars.charAt(Math.floor(Math.random() * chars.length))`
      builds, one iteration per value in `draws`. */
  function DrawnString(chars: JsString, draws: seq<real>): (r: JsString)
    ensures |r| <= |draws|
    ensures chars == [] ==> r == []
  {
    if draws == [] then []
    else DrawnString(chars, draws[..|draws| - 1]) + CharAt(chars, ScaledIndex(draws[|draws| - 1], |chars|))
  }

  /** From a non-empty alphabet, each value drawn picks exactly one unit, the
      one at `Math.floor(value * chars.length)`. */
  lemma {:induction false} DrawnStringShape(chars: JsString, draws: seq<real>)
    requires |chars| > 0 && AreRandomValues(draws)
    ensures |DrawnString(chars, draws)| == |draws|
    ensures forall i | 0 <= i < |draws| ::
              0 <= ScaledIndex(draws[i], |chars|) < |chars| &&
              DrawnString(chars, draws)[i] == chars[ScaledIndex(draws[i], |chars|)]
  {
    if draws != [] {
      var init := draws[..|draws| - 1];
      var last := draws[|draws| - 1];
      assert AreRandomValues(init);
      DrawnStringShape(chars, init);
      ScaledIndexInRange(last, |chars|);
      var prior := DrawnString(chars, init);
      var r := DrawnString(chars, draws);
      assert r == prior + [chars[ScaledIndex(last, |chars|)]];
      forall i | 0 <= i < |draws|
        ensures 0 <= ScaledIndex(draws[i], |chars|) < |chars|
        ensures r[i] == chars[ScaledIndex(draws[i], |chars|)]
      {
        if i < |init| {
          assert draws[i] == init[i];
        }
      }
    }
  }

  /** A sequence is what comes before position `i`, its element there, and what follows. */
  lemma SplitAround<T>(s: seq<T>, i: nat)
    requires i < |s|
    ensures s == s[..i] + [s[i]] + s[i + 1..]
  {
  }
}
