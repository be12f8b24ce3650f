/** Values and helpers shared by every part of the model: Kotlin's nullable
    values, the `"anonymous"` user id, Kotlin's string ordering (which is how
    the SQL queries and `sortedByDescending { it.date }` compare dates), the
    32-bit `toInt()` conversion and Kotlin's truncating division. */
module Common {

  /** A Kotlin nullable value. */
  datatype Option<T> = None | Some(value: T) {
    /** Kotlin's elvis operator `this ?: default`. */
    function GetOr(default: T): T {
      match this
      case Some(v) => v
      case None => default
    }
  }

  /** The user id used when nobody is signed in. */
  const Anonymous: string := "anonymous"

  /** Map lookup with a default, Kotlin's `m[k] ?: d`. */
  function Get<K, V>(m: map<K, V>, k: K, d: V): V {
    if k in m then m[k] else d
  }

  // ---------------------------------------------------------------------
  // String order
  // ---------------------------------------------------------------------

  /** `a <= b` under Kotlin's `String.compareTo` and SQLite's default BINARY
      collation: character by character, a proper prefix first. Characters
      compare as code points, which is Kotlin's order for strings without
      supplementary characters (dates and package names are ASCII). */
  predicate StrLe(a: string, b: string)
    decreases |a|
  {
    if |a| == 0 then true
    else if |b| == 0 then false
    else if a[0] != b[0] then a[0] < b[0]
    else StrLe(a[1..], b[1..])
  }

  lemma {:induction false} StrLeReflexive(a: string)
    ensures StrLe(a, a)
    decreases |a|
  {
    if |a| > 0 { StrLeReflexive(a[1..]); }
  }

  lemma {:induction false} StrLeTotal(a: string, b: string)
    ensures StrLe(a, b) || StrLe(b, a)
    decreases |a|
  {
    if |a| > 0 && |b| > 0 && a[0] == b[0] { StrLeTotal(a[1..], b[1..]); }
  }

  lemma {:induction false} StrLeAntisymmetric(a: string, b: string)
    requires StrLe(a, b) && StrLe(b, a)
    ensures a == b
    decreases |a|
  {
    if |a| > 0 {
      StrLeAntisymmetric(a[1..], b[1..]);
      assert a == [a[0]] + a[1..] && b == [b[0]] + b[1..];
    }
  }

  lemma {:induction false} StrLeTransitive(a: string, b: string, c: string)
    requires StrLe(a, b) && StrLe(b, c)
    ensures StrLe(a, c)
    decreases |a|
  {
    if |a| > 0 && |b| > 0 && |c| > 0 && a[0] == b[0] && b[0] == c[0] {
      StrLeTransitive(a[1..], b[1..], c[1..]);
    }
  }

  /** Comparing two strings that share a first part of equal length: a
      difference in the first part decides, otherwise the rest decides. */
  lemma {:induction false} StrLeConcat(a1: string, a2: string, b1: string, b2: string)
    requires |a1| == |b1|
    ensures StrLe(a1 + a2, b1 + b2) == if a1 == b1 then StrLe(a2, b2) else StrLe(a1, b1)
    decreases |a1|
  {
    if |a1| > 0 {
      assert (a1 + a2)[0] == a1[0] && (b1 + b2)[0] == b1[0];
      assert (a1 + a2)[1..] == a1[1..] + a2 && (b1 + b2)[1..] == b1[1..] + b2;
      StrLeConcat(a1[1..], a2, b1[1..], b2);
      if a1[0] == b1[0] {
        assert a1 == b1 <==> a1[1..] == b1[1..] by {
          assert a1 == [a1[0]] + a1[1..] && b1 == [b1[0]] + b1[1..];
        }
      }
    } else {
      assert a1 + a2 == a2 && b1 + b2 == b2;
    }
  }

  // ---------------------------------------------------------------------
  // ISO 8601 calendar dates ("YYYY-MM-DD")
  // ---------------------------------------------------------------------

  predicate IsDigit(c: char) { '0' <= c <= '9' }

  function DigitValue(c: char): nat
    requires IsDigit(c)
  {
    c as int - '0' as int
  }

  predicate AllDigits(s: string) {
    forall i :: 0 <= i < |s| ==> IsDigit(s[i])
  }

  /** The decimal value of a string of digits. */
  function DecimalValue(s: string): nat
    requires AllDigits(s)
  {
    if |s| == 0 then 0 else DecimalValue(s[..|s| - 1]) * 10 + DigitValue(s[|s| - 1])
  }

  function Pow10(n: nat): (r: nat)
    ensures r >= 1
  {
    if n == 0 then 1 else 10 * Pow10(n - 1)
  }

  lemma {:induction false} DecimalValueBound(s: string)
    requires AllDigits(s)
    ensures DecimalValue(s) < Pow10(|s|)
    decreases |s|
  {
    if |s| > 0 { DecimalValueBound(s[..|s| - 1]); }
  }

  /** The leading digit weighs `10^(n-1)`. */
  lemma {:induction false} DecimalValueHead(s: string)
    requires AllDigits(s) && |s| > 0
    ensures DecimalValue(s) == DigitValue(s[0]) * Pow10(|s| - 1) + DecimalValue(s[1..])
    decreases |s|
  {
    if |s| > 1 {
      var init := s[..|s| - 1];
      DecimalValueHead(init);
      assert init[1..] == s[1..][..|s| - 2];
      assert s[1..][|s| - 2] == s[|s| - 1];
    } else {
      assert s[..0] == [] && s[1..] == [];
    }
  }

  /** Positional comparison: a leading digit decides unless it is equal. */
  lemma PositionalLe(da: nat, db: nat, x: nat, y: nat, p: nat)
    requires x < p && y < p
    ensures da * p + x <= db * p + y <==> da < db || (da == db && x <= y)
  {
    if da < db {
      assert da * p + x < (da + 1) * p;
      MulMonotone(da + 1, db, p);
    } else if db < da {
      assert db * p + y < (db + 1) * p;
      MulMonotone(db + 1, da, p);
    }
  }

  lemma MulMonotone(a: nat, b: nat, p: nat)
    requires a <= b
    ensures a * p <= b * p
  {
  }

  /** For digit strings of the same length the string order is the numeric
      order. */
  lemma {:induction false} DigitOrderIsNumericOrder(a: string, b: string)
    requires AllDigits(a) && AllDigits(b) && |a| == |b|
    ensures StrLe(a, b) <==> DecimalValue(a) <= DecimalValue(b)
    decreases |a|
  {
    if |a| > 0 {
      DecimalValueHead(a);
      DecimalValueHead(b);
      DecimalValueBound(a[1..]);
      DecimalValueBound(b[1..]);
      DigitOrderIsNumericOrder(a[1..], b[1..]);
      PositionalLe(DigitValue(a[0]), DigitValue(b[0]), DecimalValue(a[1..]), DecimalValue(b[1..]), Pow10(|a| - 1));
    }
  }

  /** Digit strings of the same length are equal exactly when their values are. */
  lemma DigitStringsEqual(a: string, b: string)
    requires AllDigits(a) && AllDigits(b) && |a| == |b|
    ensures a == b <==> DecimalValue(a) == DecimalValue(b)
  {
    if DecimalValue(a) == DecimalValue(b) {
      DigitOrderIsNumericOrder(a, b);
      DigitOrderIsNumericOrder(b, a);
      StrLeAntisymmetric(a, b);
    }
  }

  /** The extended calendar-date form of ISO 8601 ("YYYY-MM-DD"), the
      `SimpleDateFormat("yyyy-MM-dd")` output for four-digit years. */
  predicate IsIsoDate(s: string) {
    |s| == 10 && s[4] == '-' && s[7] == '-'
    && AllDigits(s[..4]) && AllDigits(s[5..7]) && AllDigits(s[8..])
  }

  function Year(s: string): nat requires IsIsoDate(s) { DecimalValue(s[..4]) }
  function Month(s: string): nat requires IsIsoDate(s) { DecimalValue(s[5..7]) }
  function Day(s: string): nat requires IsIsoDate(s) { DecimalValue(s[8..]) }

  /** Chronological order on (year, month, day). */
  predicate ChronoLe(y1: nat, m1: nat, d1: nat, y2: nat, m2: nat, d2: nat) {
    y1 < y2 || (y1 == y2 && (m1 < m2 || (m1 == m2 && d1 <= d2)))
  }

  /** Comparing ISO 8601 dates as strings, as the queries and sorts of the
      source do, orders them chronologically. */
  lemma IsoDateOrderIsChronological(a: string, b: string)
    requires IsIsoDate(a) && IsIsoDate(b)
    ensures StrLe(a, b) <==> ChronoLe(Year(a), Month(a), Day(a), Year(b), Month(b), Day(b))
  {
    assert a == a[..4] + (a[4..5] + (a[5..7] + (a[7..8] + a[8..])));
    assert b == b[..4] + (b[4..5] + (b[5..7] + (b[7..8] + b[8..])));
    assert a[4..5] == b[4..5] == "-" && a[7..8] == b[7..8] == "-";
    StrLeConcat(a[..4], a[4..5] + (a[5..7] + (a[7..8] + a[8..])), b[..4], b[4..5] + (b[5..7] + (b[7..8] + b[8..])));
    StrLeConcat(a[4..5], a[5..7] + (a[7..8] + a[8..]), b[4..5], b[5..7] + (b[7..8] + b[8..]));
    StrLeConcat(a[5..7], a[7..8] + a[8..], b[5..7], b[7..8] + b[8..]);
    StrLeConcat(a[7..8], a[8..], b[7..8], b[8..]);
    DigitOrderIsNumericOrder(a[..4], b[..4]);
    DigitOrderIsNumericOrder(a[5..7], b[5..7]);
    DigitOrderIsNumericOrder(a[8..], b[8..]);
    DigitStringsEqual(a[..4], b[..4]);
    DigitStringsEqual(a[5..7], b[5..7]);
  }

  // ---------------------------------------------------------------------
  // Integer conversions
  // ---------------------------------------------------------------------

  const TwoTo31: int := 0x8000_0000
  const TwoTo32: int := 0x1_0000_0000

  predicate IsInt32(x: int) { -TwoTo31 <= x < TwoTo31 }

  /** Kotlin's `Long.toInt()` / `Number.toInt()` on an integral value: keep
      the low 32 bits, read them as two's complement. */
  function ToInt32(x: int): (r: int)
    ensures IsInt32(r)
    ensures (x - r) % TwoTo32 == 0
  {
    (x + TwoTo31) % TwoTo32 - TwoTo31
  }

  lemma ToInt32Identity(x: int)
    requires IsInt32(x)
    ensures ToInt32(x) == x
  {
    assert 0 <= x + TwoTo31 < TwoTo32;
  }

  /** Kotlin's integer division, which rounds toward zero (Dafny's `/`
      is Euclidean). */
  function TruncDiv(a: int, b: int): (r: int)
    requires b > 0
    ensures a >= 0 ==> r == a / b
    ensures r > 0 ==> a >= b
    ensures r * b <= a || a < 0
  {
    if a >= 0 then a / b else -((-a) / b)
  }

  // ---------------------------------------------------------------------
  // Blank strings
  // ---------------------------------------------------------------------

  /** Kotlin's `Char.isWhitespace()`: Java whitespace or a Unicode space
      separator. */
  predicate IsWhitespace(c: char) {
    ('\U{0009}' <= c <= '\U{000D}') || ('\U{001C}' <= c <= '\U{0020}')
    || c == '\U{00A0}' || c == '\U{1680}' || ('\U{2000}' <= c <= '\U{200A}')
    || c == '\U{2028}' || c == '\U{2029}' || c == '\U{202F}' || c == '\U{205F}'
    || c == '\U{3000}'
  }

  /** Kotlin's `isBlank()`: empty or whitespace only. */
  predicate IsBlank(s: string) {
    forall i :: 0 <= i < |s| ==> IsWhitespace(s[i])
  }
}
