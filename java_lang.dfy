/**
 * The parts of java.lang the debug-attach code relies on, with Java's own
 * semantics: null as Option, exceptions as Result, 32-bit int arithmetic,
 * and the String methods indexOf, replace, trim and equalsIgnoreCase, plus
 * Integer.toString.
 */
module JavaLang {

  /** A Java reference that may be null. */
  datatype Option<+T> = None | Some(value: T)

  /** A computation that either returns a value or throws. */
  datatype Result<+T, +E> = Ok(value: T) | Err(error: E)

  // ---------------------------------------------------------------------
  // 32-bit int arithmetic
  // ---------------------------------------------------------------------

  const INT_MIN: int := -0x8000_0000
  const INT_MAX: int := 0x7fff_ffff
  const TWO_32: int := 0x1_0000_0000

  predicate IsInt32(x: int) {
    INT_MIN <= x <= INT_MAX
  }

  /** The int a Java expression yields for the mathematical value x (two's-complement wrap-around). */
  function Wrap32(x: int): (r: int)
    ensures IsInt32(r)
    ensures IsInt32(x) ==> r == x
    ensures exists k: int :: x == r + k * TWO_32
  {
    var m := (x - INT_MIN) % TWO_32;
    assert x == m + INT_MIN + ((x - INT_MIN) / TWO_32) * TWO_32;
    assert IsInt32(x) ==> (x - INT_MIN) / TWO_32 == 0;
    m + INT_MIN
  }

  /** Java's `a * b` on two ints. */
  function Mul32(a: int, b: int): (r: int)
    ensures IsInt32(r)
    ensures IsInt32(a * b) ==> r == a * b
  {
    Wrap32(a * b)
  }

  /** Two mathematical values that differ by a multiple of 2^32 wrap to the same int. */
  lemma {:induction false} WrapCongruent(x: int, y: int, k: int)
    requires x == y + k * TWO_32
    ensures Wrap32(x) == Wrap32(y)
  {
    var rx, ry := Wrap32(x), Wrap32(y);
    var kx :| x == rx + kx * TWO_32;
    var ky :| y == ry + ky * TWO_32;
    // rx - ry is a multiple of 2^32 strictly between -2^32 and 2^32
    assert rx - ry == (ky + k - kx) * TWO_32;
    assert ky + k - kx == 0;
  }

  /** `(p * 1000) * 4` evaluated in ints equals `p * 4000` evaluated in ints. */
  lemma {:induction false} MulMulWrap(p: int)
    ensures Mul32(Mul32(p, 1000), 4) == Wrap32(p * 4000)
  {
    var t := Mul32(p, 1000);
    var k :| p * 1000 == t + k * TWO_32;
    assert t * 4 == p * 4000 + (-4 * k) * TWO_32;
    WrapCongruent(t * 4, p * 4000, -4 * k);
  }

  // ---------------------------------------------------------------------
  // String.indexOf
  // ---------------------------------------------------------------------

  /** t occurs in s starting at position j. */
  predicate OccursAt(s: string, t: string, j: int) {
    0 <= j && j + |t| <= |s| && s[j..j + |t|] == t
  }

  function Max(a: int, b: int): int {
    if a < b then b else a
  }

  /**
   * `s.indexOf(t, from)` for a non-empty t: the first position at or after
   * from (a negative from counts as 0) where t occurs, or -1 when there is none.
   */
  function IndexOf(s: string, t: string, from: int): (r: int)
    requires |t| > 0
    ensures r == -1 || (Max(from, 0) <= r && OccursAt(s, t, r))
    ensures r == -1 ==> forall j :: Max(from, 0) <= j ==> !OccursAt(s, t, j)
    ensures r != -1 ==> forall j :: Max(from, 0) <= j < r ==> !OccursAt(s, t, j)
    decreases |s| - from
  {
    if from < 0 then IndexOf(s, t, 0)
    else if from + |t| > |s| then -1
    else if s[from..from + |t|] == t then from
    else IndexOf(s, t, from + 1)
  }

  // ---------------------------------------------------------------------
  // String.replace(CharSequence, CharSequence)
  // ---------------------------------------------------------------------

  /** `s.replace(t, r)`: every occurrence of t, scanned left to right without overlap, becomes r. */
  function Replace(s: string, t: string, r: string): string {
    if t == [] then ReplaceEmpty(s, r) else ReplaceNonEmpty(s, t, r)
  }

  /** With an empty target Java inserts r before every character and once at the end. */
  function ReplaceEmpty(s: string, r: string): string {
    if s == [] then r else r + [s[0]] + ReplaceEmpty(s[1..], r)
  }

  function ReplaceNonEmpty(s: string, t: string, r: string): string
    requires |t| > 0
  {
    if |s| < |t| then s
    else if s[..|t|] == t then r + ReplaceNonEmpty(s[|t|..], t, r)
    else [s[0]] + ReplaceNonEmpty(s[1..], t, r)
  }

  /** Replacing a target by itself changes nothing. */
  lemma {:induction false} ReplaceBySelf(s: string, t: string)
    ensures Replace(s, t, t) == s
  {
    if t == [] {
      ReplaceEmptyBySelf(s);
    } else if |s| >= |t| {
      if s[..|t|] == t {
        ReplaceBySelf(s[|t|..], t);
        assert s == s[..|t|] + s[|t|..];
      } else {
        ReplaceBySelf(s[1..], t);
        assert s == [s[0]] + s[1..];
      }
    }
  }

  lemma {:induction false} ReplaceEmptyBySelf(s: string)
    ensures ReplaceEmpty(s, []) == s
  {
    if s != [] {
      ReplaceEmptyBySelf(s[1..]);
      assert s == [s[0]] + s[1..];
    }
  }

  /**
   * When no occurrence of t starts inside the prefix x, the scan copies x,
   * replaces the t that follows it, and carries on with y.
   */
  lemma {:induction false} ReplaceAfterClearPrefix(x: string, t: string, y: string, r: string)
    requires |t| > 0
    requires forall j :: 0 <= j < |x| ==> !OccursAt(x + t + y, t, j)
    ensures Replace(x + t + y, t, r) == x + r + Replace(y, t, r)
  {
    var s := x + t + y;
    if x == [] {
      assert s[..|t|] == t;
      assert s[|t|..] == y;
    } else {
      var s' := x[1..] + t + y;
      assert s == [x[0]] + s';
      assert !OccursAt(s, t, 0);
      forall j | 0 <= j < |x[1..]| ensures !OccursAt(s', t, j) {
        OccursAfterFirst(x[0], s', t, j);
        assert !OccursAt(s, t, j + 1);
      }
      ReplaceAfterClearPrefix(x[1..], t, y, r);
      assert x == [x[0]] + x[1..];
    }
  }

  /** Dropping the first character shifts every occurrence one place to the left. */
  lemma OccursAfterFirst(c: char, s: string, t: string, j: nat)
    ensures OccursAt([c] + s, t, j + 1) <==> OccursAt(s, t, j)
  {
    if j + |t| <= |s| {
      assert ([c] + s)[j + 1..j + 1 + |t|] == s[j..j + |t|];
    }
  }

  // ---------------------------------------------------------------------
  // String.trim
  // ---------------------------------------------------------------------

  /** `s.trim()`: leading and trailing characters up to U+0020 removed. */
  function Trim(s: string): string {
    TrimEnd(TrimStart(s))
  }

  function TrimStart(s: string): string {
    if s != [] && s[0] <= ' ' then TrimStart(s[1..]) else s
  }

  function TrimEnd(s: string): string {
    if s != [] && s[|s| - 1] <= ' ' then TrimEnd(s[..|s| - 1]) else s
  }

  /** Every character of s is one that trim removes. */
  predicate IsBlank(s: string) {
    forall i :: 0 <= i < |s| ==> s[i] <= ' '
  }

  /** `s.trim().equals("")` exactly when s is blank. */
  lemma TrimEmptyIffBlank(s: string)
    ensures Trim(s) == [] <==> IsBlank(s)
  {
    TrimStartBlank(s);
    if !IsBlank(s) {
      TrimEndKeepsNonBlank(TrimStart(s));
    }
  }

  lemma {:induction false} TrimStartBlank(s: string)
    ensures TrimStart(s) == [] <==> IsBlank(s)
    ensures TrimStart(s) != [] ==> TrimStart(s)[0] > ' '
  {
    if s != [] && s[0] <= ' ' {
      TrimStartBlank(s[1..]);
      if IsBlank(s[1..]) {
        forall i | 0 <= i < |s| ensures s[i] <= ' ' {
          if i > 0 { assert s[i] == s[1..][i - 1]; }
        }
      } else {
        var i :| 0 <= i < |s[1..]| && s[1..][i] > ' ';
        assert s[i + 1] > ' ';
      }
    }
  }

  lemma {:induction false} TrimEndKeepsNonBlank(s: string)
    requires s != [] && s[0] > ' '
    ensures TrimEnd(s) != []
  {
    if s[|s| - 1] <= ' ' {
      assert |s| > 1;
      TrimEndKeepsNonBlank(s[..|s| - 1]);
    }
  }

  // ---------------------------------------------------------------------
  // String.equalsIgnoreCase (ASCII case mapping)
  // ---------------------------------------------------------------------

  function ToUpper(c: char): char {
    if 'a' <= c <= 'z' then (c as int - 32) as char else c
  }

  function ToLower(c: char): char {
    if 'A' <= c <= 'Z' then (c as int + 32) as char else c
  }

  /** The per-character test of String.regionMatches with ignoreCase set. */
  predicate CharEqualsIgnoreCase(a: char, b: char) {
    a == b || ToUpper(a) == ToUpper(b) || ToLower(ToUpper(a)) == ToLower(ToUpper(b))
  }

  /** `a.equalsIgnoreCase(b)` for a non-null b. */
  predicate EqualsIgnoreCase(a: string, b: string) {
    |a| == |b| && forall i :: 0 <= i < |a| ==> CharEqualsIgnoreCase(a[i], b[i])
  }

  function UpperCase(s: string): string {
    seq(|s|, i requires 0 <= i < |s| => ToUpper(s[i]))
  }

  lemma CharEqualsIgnoreCaseIffUpper(a: char, b: char)
    ensures CharEqualsIgnoreCase(a, b) <==> ToUpper(a) == ToUpper(b)
  {
  }

  /** equalsIgnoreCase holds exactly when both strings have the same upper-case form. */
  lemma EqualsIgnoreCaseIffSameUpper(a: string, b: string)
    ensures EqualsIgnoreCase(a, b) <==> UpperCase(a) == UpperCase(b)
  {
    if EqualsIgnoreCase(a, b) {
      forall i | 0 <= i < |a| ensures UpperCase(a)[i] == UpperCase(b)[i] {
        CharEqualsIgnoreCaseIffUpper(a[i], b[i]);
      }
    }
    if UpperCase(a) == UpperCase(b) {
      forall i | 0 <= i < |a| ensures CharEqualsIgnoreCase(a[i], b[i]) {
        assert UpperCase(a)[i] == UpperCase(b)[i];
      }
    }
  }

  // ---------------------------------------------------------------------
  // Integer.toString
  // ---------------------------------------------------------------------

  function DigitChar(d: nat): char
    requires d < 10
  {
    ('0' as int + d) as char
  }

  function DigitValue(c: char): int {
    c as int - '0' as int
  }

  /** Decimal digits of n, most significant first, without leading zeros. */
  function NatToDecimal(n: nat): string
    decreases n
  {
    if n < 10 then [DigitChar(n)] else NatToDecimal(n / 10) + [DigitChar(n % 10)]
  }

  /** `Integer.toString(n)`. */
  function IntToString(n: int): string {
    if n < 0 then "-" + NatToDecimal(-n) else NatToDecimal(n)
  }

  /** Reads a string of decimal digits back as a number. */
  function ParseDecimal(s: string): int {
    if s == [] then 0 else ParseDecimal(s[..|s| - 1]) * 10 + DigitValue(s[|s| - 1])
  }

  /** Integer.toString of a non-negative int is non-empty, all digits, and reads back as n. */
  lemma {:induction false} NatToDecimalRoundTrip(n: nat)
    ensures NatToDecimal(n) != []
    ensures forall i :: 0 <= i < |NatToDecimal(n)| ==> '0' <= NatToDecimal(n)[i] <= '9'
    ensures ParseDecimal(NatToDecimal(n)) == n
  {
    if n >= 10 {
      NatToDecimalRoundTrip(n / 10);
      var s := NatToDecimal(n);
      assert s[..|s| - 1] == NatToDecimal(n / 10);
    }
  }
}
