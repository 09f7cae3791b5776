/**
 * The few .NET base-library values and string primitives that the task
 * entity and its validator depend on: DateTime as a tick count, Guid as a
 * 128-bit number, char.IsWhiteSpace, string.IsNullOrWhiteSpace and
 * string.Length (which counts UTF-16 code units, not Unicode scalars).
 */
module SystemTypes {

  /** DateTime.MaxValue.Ticks. */
  const MaxTicks: int := 3155378975999999999

  /** A DateTime, as its tick count. Comparisons of DateTime compare ticks. */
  type Instant = t: int | 0 <= t <= MaxTicks

  /** default(DateTime), i.e. DateTime.MinValue. */
  const DefaultInstant: Instant := 0

  /** One day in ticks (TimeSpan.TicksPerDay). */
  const TicksPerDay: int := 864000000000

  /** A System.Guid, as the 128-bit number it encodes. */
  type Guid = g: int | 0 <= g < 0x1_0000_0000_0000_0000_0000_0000_0000_0000

  /**
   * char.IsWhiteSpace: the Unicode space, line and paragraph separators,
   * the control characters U+0009..U+000D, and U+0085.
   */
  predicate IsWhiteSpace(c: char)
    ensures IsWhiteSpace(c) ==> Utf16Units(c) == 1
    ensures c == ' ' ==> IsWhiteSpace(c)
  {
    ('\U{0009}' <= c <= '\U{000D}') || c == '\U{0020}' || c == '\U{0085}'
    || c == '\U{00A0}' || c == '\U{1680}' || ('\U{2000}' <= c <= '\U{200A}')
    || c == '\U{2028}' || c == '\U{2029}' || c == '\U{202F}' || c == '\U{205F}'
    || c == '\U{3000}'
  }

  /** string.IsNullOrWhiteSpace on a non-null string: no character is non-white. */
  predicate IsNullOrWhiteSpace(s: string)
    ensures s == [] ==> IsNullOrWhiteSpace(s)
    ensures s != [] && !IsWhiteSpace(s[0]) ==> !IsNullOrWhiteSpace(s)
  {
    forall i :: 0 <= i < |s| ==> IsWhiteSpace(s[i])
  }

  /** Number of UTF-16 code units a character needs. */
  function Utf16Units(c: char): (n: nat)
    ensures n == 1 || n == 2
    ensures n == 2 <==> c as int > 0xFFFF
  {
    if c as int > 0xFFFF then 2 else 1
  }

  /** string.Length: the number of UTF-16 code units of the string. */
  function Utf16Length(s: string): (n: nat)
    ensures |s| <= n <= 2 * |s|
    ensures n == 0 <==> s == []
  {
    if s == [] then 0 else Utf16Units(s[0]) + Utf16Length(s[1..])
  }

  /** The length of a concatenation is the sum of the lengths. */
  lemma {:induction false} Utf16LengthAppend(a: string, b: string)
    ensures Utf16Length(a + b) == Utf16Length(a) + Utf16Length(b)
  {
    if a == [] {
      assert a + b == b;
    } else {
      assert (a + b)[0] == a[0];
      assert (a + b)[1..] == a[1..] + b;
      Utf16LengthAppend(a[1..], b);
    }
  }

  /** A string of Basic Multilingual Plane characters has one code unit per character. */
  lemma {:induction false} Utf16LengthOfBmp(s: string)
    requires forall i :: 0 <= i < |s| ==> s[i] as int <= 0xFFFF
    ensures Utf16Length(s) == |s|
  {
    if s != [] {
      Utf16LengthOfBmp(s[1..]);
    }
  }

  /** A string of characters outside the Basic Multilingual Plane has two code units per character. */
  lemma {:induction false} Utf16LengthOfAstral(s: string)
    requires forall i :: 0 <= i < |s| ==> s[i] as int > 0xFFFF
    ensures Utf16Length(s) == 2 * |s|
  {
    if s != [] {
      Utf16LengthOfAstral(s[1..]);
    }
  }

  /** The empty string, and only strings of white space, are blank. */
  lemma BlankStrings(s: string, c: char)
    ensures IsNullOrWhiteSpace([])
    ensures IsNullOrWhiteSpace([c]) <==> IsWhiteSpace(c)
    ensures !IsWhiteSpace(c) ==> !IsNullOrWhiteSpace(s + [c])
  {
    if !IsWhiteSpace(c) {
      assert (s + [c])[|s|] == c;
    }
  }
}
