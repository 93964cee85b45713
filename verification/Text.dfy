/**
 Strings as the examples use them: the std::string searches, ASCII case folding,
 C-string truncation and decimal numerals.
 */
module Text {

  datatype Option<+T> = None | Some(value: T)

  /** A slice of a slice is a slice. */
  lemma SliceOfSlice<T>(s: seq<T>, a: nat, b: nat, c: nat, d: nat)
    requires a <= b <= |s| && c <= d <= b - a
    ensures s[a..b][c..d] == s[a + c..a + d]
  {
    forall k | 0 <= k < d - c ensures s[a..b][c..d][k] == s[a + c..a + d][k] {
      assert s[a..b][c + k] == s[a + c + k];
    }
  }

  lemma EmptyPrefix<T>(s: seq<T>)
    ensures [] + s == s
  {
  }

  lemma SeqAssociates<T>(a: seq<T>, b: seq<T>, c: seq<T>)
    ensures a + b + c == a + (b + c)
  {
  }

  /** `p` occurs in `s` at index `i`. */
  predicate OccursAt(s: string, p: string, i: nat) {
    i + |p| <= |s| && s[i..i + |p|] == p
  }

  /** The first occurrence of `p` at or after `from` (std::string::find). */
  function Find(s: string, p: string, from: nat): (r: Option<nat>)
    ensures r.Some? ==> from <= r.value && OccursAt(s, p, r.value)
    ensures r.Some? ==> forall j: nat | from <= j < r.value :: !OccursAt(s, p, j)
    ensures r.None? ==> forall j: nat | from <= j :: !OccursAt(s, p, j)
    decreases |s| - from
  {
    if from + |p| > |s| then None
    else if OccursAt(s, p, from) then Some(from)
    else if from == |s| then None
    else Find(s, p, from + 1)
  }

  /** The last occurrence of `p` that starts before `end` (std::string::rfind). */
  function FindLastBefore(s: string, p: string, end: nat): (r: Option<nat>)
    ensures r.Some? ==> r.value < end && OccursAt(s, p, r.value)
    ensures r.Some? ==> forall j: nat | r.value < j < end :: !OccursAt(s, p, j)
    ensures r.None? ==> forall j: nat | j < end :: !OccursAt(s, p, j)
  {
    if end == 0 then None
    else if OccursAt(s, p, end - 1) then Some(end - 1)
    else FindLastBefore(s, p, end - 1)
  }

  /** std::string::rfind over the whole string, for a non-empty pattern. */
  function FindLast(s: string, p: string): (r: Option<nat>)
    requires p != ""
    ensures r.Some? ==> OccursAt(s, p, r.value)
    ensures r.Some? ==> forall j: nat | r.value < j :: !OccursAt(s, p, j)
    ensures r.None? ==> forall j: nat :: !OccursAt(s, p, j)
  {
    FindLastBefore(s, p, |s|)
  }

  /** `s` begins with `p`: the code's `s.rfind(p, 0) == 0`. */
  predicate StartsWith(s: string, p: string) {
    |p| <= |s| && s[..|p|] == p
  }

  /** A one-character pattern occurs exactly where the character stands. */
  lemma CharOccurs(s: string, c: char, i: nat)
    ensures OccursAt(s, [c], i) <==> i < |s| && s[i] == c
  {
    if i < |s| {
      assert s[i..i + 1] == [s[i]];
    }
  }

  /** The first `c` at or after `from`, in terms of characters. */
  lemma FindCharAt(s: string, c: char, from: nat, i: nat)
    requires from <= i < |s| && s[i] == c && c !in s[from..i]
    ensures Find(s, [c], from) == Some(i)
  {
    CharOccurs(s, c, i);
    forall j: nat | from <= j < i ensures !OccursAt(s, [c], j) {
      CharOccurs(s, c, j);
      assert s[from..i][j - from] == s[j];
    }
  }

  /** No `c` at or after `from`. */
  lemma FindCharNone(s: string, c: char, from: nat)
    requires from <= |s| && c !in s[from..]
    ensures Find(s, [c], from) == None
  {
    forall j: nat | from <= j ensures !OccursAt(s, [c], j) {
      CharOccurs(s, c, j);
      if j < |s| {
        assert s[from..][j - from] == s[j];
      }
    }
  }

  /** The last `c` of `s` is the one with no `c` behind it. */
  lemma FindLastCharAt(s: string, c: char, i: nat)
    requires i < |s| && s[i] == c && c !in s[i + 1..]
    ensures FindLast(s, [c]) == Some(i)
  {
    CharOccurs(s, c, i);
    forall j: nat | i < j ensures !OccursAt(s, [c], j) {
      CharOccurs(s, c, j);
      if j < |s| {
        assert s[i + 1..][j - (i + 1)] == s[j];
      }
    }
  }

  // ------------------------------------------------------------------
  // Case folding
  // ------------------------------------------------------------------

  /** std::tolower in the "C" locale. */
  function LowerChar(c: char): char {
    if 'A' <= c <= 'Z' then (c as int + 32) as char else c
  }

  function ToLower(s: string): (r: string)
    ensures |r| == |s|
    ensures forall i | 0 <= i < |s| :: r[i] == LowerChar(s[i])
  {
    if s == "" then "" else [LowerChar(s[0])] + ToLower(s[1..])
  }

  /** The two strings are equal up to ASCII case. */
  predicate FoldEq(a: string, b: string) {
    ToLower(a) == ToLower(b)
  }

  lemma ToLowerIdempotent(s: string)
    ensures ToLower(ToLower(s)) == ToLower(s)
  {
  }

  /** Comparing character by character is comparing the folded strings. */
  lemma FoldEqPointwise(a: string, b: string)
    ensures FoldEq(a, b) <==>
            |a| == |b| && forall i | 0 <= i < |a| :: LowerChar(a[i]) == LowerChar(b[i])
  {
    if FoldEq(a, b) {
      assert |a| == |ToLower(a)| == |ToLower(b)| == |b|;
      forall i | 0 <= i < |a| ensures LowerChar(a[i]) == LowerChar(b[i]) {
        assert ToLower(a)[i] == ToLower(b)[i];
      }
    }
  }

  /** Equal, or the two cases of one ASCII letter, by their codes. */
  predicate SameLetter(c: char, d: char) {
    || c == d
    || (65 <= c as int <= 90 && d as int == c as int + 32)
    || (65 <= d as int <= 90 && c as int == d as int + 32)
  }

  /** Strings are equal up to case exactly when they are so character by character. */
  lemma FoldEqIff(a: string, b: string)
    ensures FoldEq(a, b) <==> |a| == |b| && forall i | 0 <= i < |a| :: SameLetter(a[i], b[i])
  {
    FoldEqPointwise(a, b);
    assert forall c: char, d: char :: LowerChar(c) == LowerChar(d) <==> SameLetter(c, d);
  }

  /** Folding leaves no capital, and changes nothing but capitals. */
  lemma FoldedIsLower(s: string)
    ensures forall i | 0 <= i < |s| ::
              && !(65 <= ToLower(s)[i] as int <= 90)
              && (if 65 <= s[i] as int <= 90 then ToLower(s)[i] as int == s[i] as int + 32 else ToLower(s)[i] == s[i])
  {
  }

  // ------------------------------------------------------------------
  // C strings
  // ------------------------------------------------------------------

  const NUL := '\0'

  /** What a reader of `s.c_str()` sees: everything before the first NUL. */
  function CStr(s: string): (r: string)
    ensures NUL !in r && r <= s
    ensures |r| < |s| ==> s[|r|] == NUL
    ensures NUL !in s ==> r == s
  {
    if s == "" || s[0] == NUL then "" else [s[0]] + CStr(s[1..])
  }

  /** The C string is the part in front of the first NUL. */
  lemma CStrIs(s: string, n: nat)
    requires n <= |s| && NUL !in s[..n] && (n < |s| ==> s[n] == NUL)
    ensures CStr(s) == s[..n]
  {
    assert forall i | 0 <= i < n :: s[..n][i] == s[i] != NUL;
    assert forall i | 0 <= i < |CStr(s)| :: s[i] == CStr(s)[i] != NUL;
  }

  // ------------------------------------------------------------------
  // Decimal numerals
  // ------------------------------------------------------------------

  predicate IsDigit(c: char) {
    '0' <= c <= '9'
  }

  /** A non-empty string of digits. */
  predicate IsNumeral(s: string) {
    s != "" && forall i | 0 <= i < |s| :: IsDigit(s[i])
  }

  function DigitValue(c: char): (r: nat)
    requires IsDigit(c)
    ensures r <= 9
  {
    c as int - '0' as int
  }

  function Digit(n: nat): (r: char)
    requires n <= 9
    ensures IsDigit(r) && DigitValue(r) == n
  {
    ('0' as int + n) as char
  }

  /** The number a numeral denotes; the empty string denotes 0. */
  function NumeralValue(s: string): nat
    requires forall i | 0 <= i < |s| :: IsDigit(s[i])
  {
    if s == "" then 0
    else 10 * NumeralValue(s[..|s| - 1]) + DigitValue(s[|s| - 1])
  }

  /** std::to_string of a non-negative number. */
  function Decimal(n: nat): (r: string)
    ensures IsNumeral(r)
  {
    if n < 10 then [Digit(n)] else Decimal(n / 10) + [Digit(n % 10)]
  }

  /** Printing a number and reading it back is the identity. */
  lemma {:induction false} DecimalRoundTrip(n: nat)
    ensures NumeralValue(Decimal(n)) == n
  {
    if n < 10 {
      assert Decimal(n)[..0] == "";
    } else {
      DecimalRoundTrip(n / 10);
      assert Decimal(n)[..|Decimal(n)| - 1] == Decimal(n / 10);
    }
  }
}
