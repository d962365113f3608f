/** String and number helpers with the semantics of the Rust standard-library
    calls the program relies on: `u32::to_string`, `str::parse::<u32/u64>`,
    `str::split(char)`, `str::trim`, `str::trim_start_matches`,
    `str::lines().next()` and `Iterator::nth`. */
module Text {
  import opened Wrappers

  const U32_LIMIT: nat := 0x1_0000_0000
  const U64_LIMIT: nat := 0x1_0000_0000_0000_0000

  /** Rust `u32` and `u64` values. */
  type U32 = n: nat | n < 0x1_0000_0000
  type U64 = n: nat | n < 0x1_0000_0000_0000_0000

  // ---------------------------------------------------------------------------
  // Decimal numerals

  predicate IsDigit(c: char) {
    '0' <= c <= '9'
  }

  predicate AllDigits(s: string) {
    forall i :: 0 <= i < |s| ==> IsDigit(s[i])
  }

  function DigitChar(d: nat): (c: char)
    requires d < 10
    ensures IsDigit(c) && c as int - '0' as int == d
  {
    ('0' as int + d) as char
  }

  /** The number a non-empty run of decimal digits denotes (leading zeros allowed). */
  function ValueOf(s: string): nat
    requires AllDigits(s)
    decreases |s|
  {
    if s == [] then 0 else 10 * ValueOf(s[..|s| - 1]) + (s[|s| - 1] as int - '0' as int)
  }

  /** `n.to_string()`: the shortest decimal numeral of `n`. */
  function ToDecimal(n: nat): (s: string)
    ensures 0 < |s| && AllDigits(s)
    ensures n < 10 <==> |s| == 1
    decreases n
  {
    if n < 10 then [DigitChar(n)] else ToDecimal(n / 10) + [DigitChar(n % 10)]
  }

  lemma {:induction false} ValueOfToDecimal(n: nat)
    ensures ValueOf(ToDecimal(n)) == n
    decreases n
  {
    if n >= 10 {
      var s := ToDecimal(n / 10);
      ValueOfToDecimal(n / 10);
      assert ToDecimal(n) == s + [DigitChar(n % 10)];
      assert (s + [DigitChar(n % 10)])[..|s|] == s;
    }
  }

  /** Rust's `str::parse` for an unsigned integer type whose values lie below
      `limit`: an optional '+', then at least one ASCII digit, and a value in
      range; anything else (empty text, a sign alone, '-', spaces, overflow) is
      an error. */
  function ParseUnsigned(s: string, limit: nat): (r: Option<nat>)
    ensures r.Some? ==> r.value < limit
    ensures r.Some? ==> 0 < |s| && (IsDigit(s[0]) || s[0] == '+')
  {
    var digits := if 0 < |s| && s[0] == '+' then s[1..] else s;
    if 0 < |digits| && AllDigits(digits) && ValueOf(digits) < limit
    then Some(ValueOf(digits))
    else None
  }

  /** Parsing inverts printing for every value of the type. */
  lemma ParseUnsignedToDecimal(n: nat, limit: nat)
    requires n < limit
    ensures ParseUnsigned(ToDecimal(n), limit) == Some(n)
  {
    ValueOfToDecimal(n);
  }

  // ---------------------------------------------------------------------------
  // Splitting and joining on one separator character

  /** `s.split(sep)`: the maximal separator-free pieces, in order; the empty
      text yields one empty piece. */
  function Split(s: string, sep: char): (parts: seq<string>)
    ensures 0 < |parts|
    ensures forall i :: 0 <= i < |parts| ==> sep !in parts[i]
    decreases |s|
  {
    if s == [] then [""]
    else
      var rest := Split(s[1..], sep);
      if s[0] == sep then [""] + rest else [[s[0]] + rest[0]] + rest[1..]
  }

  /** Concatenation of the pieces with `sep` between neighbours. */
  function Join(parts: seq<string>, sep: char): string
    requires 0 < |parts|
    decreases |parts|
  {
    if |parts| == 1 then parts[0] else parts[0] + [sep] + Join(parts[1..], sep)
  }

  /** Splitting loses nothing: joining the pieces gives the text back. */
  lemma {:induction false} JoinSplit(s: string, sep: char)
    ensures Join(Split(s, sep), sep) == s
    decreases |s|
  {
    if s != [] {
      var rest := Split(s[1..], sep);
      JoinSplit(s[1..], sep);
      if s[0] == sep {
        assert ([""] + rest)[1..] == rest;
      } else if |rest| > 1 {
        assert ([[s[0]] + rest[0]] + rest[1..])[1..] == rest[1..];
      }
    }
  }

  lemma {:induction false} SplitSeparatorFree(a: string, sep: char)
    requires sep !in a
    ensures Split(a, sep) == [a]
    decreases |a|
  {
    if a != [] {
      SplitSeparatorFree(a[1..], sep);
      assert [a[0]] + a[1..] == a;
    }
  }

  /** A separator-free head becomes the first piece. */
  lemma {:induction false} SplitAfterPiece(a: string, sep: char, b: string)
    requires sep !in a
    ensures Split(a + [sep] + b, sep) == [a] + Split(b, sep)
    decreases |a|
  {
    if a == [] {
      assert a + [sep] + b == [sep] + b;
      assert ([sep] + b)[1..] == b;
    } else {
      SplitAfterPiece(a[1..], sep, b);
      assert (a + [sep] + b)[1..] == a[1..] + [sep] + b;
      assert [a[0]] + a[1..] == a;
    }
  }

  /** Splitting undoes joining separator-free pieces. */
  lemma {:induction false} SplitJoin(parts: seq<string>, sep: char)
    requires 0 < |parts| && forall i :: 0 <= i < |parts| ==> sep !in parts[i]
    ensures Split(Join(parts, sep), sep) == parts
    decreases |parts|
  {
    if |parts| == 1 {
      SplitSeparatorFree(parts[0], sep);
    } else {
      SplitJoin(parts[1..], sep);
      SplitAfterPiece(parts[0], sep, Join(parts[1..], sep));
      assert [parts[0]] + parts[1..] == parts;
    }
  }

  /** A character found neither in the pieces nor as the separator is not in their join. */
  lemma {:induction false} JoinAvoids(parts: seq<string>, sep: char, c: char)
    requires 0 < |parts| && c != sep && forall k :: 0 <= k < |parts| ==> c !in parts[k]
    ensures c !in Join(parts, sep)
    decreases |parts|
  {
    if |parts| > 1 {
      assert forall k :: 0 <= k < |parts| - 1 ==> parts[1..][k] == parts[k + 1];
      JoinAvoids(parts[1..], sep, c);
    }
  }

  /** `iter.nth(n).unwrap_or("")`. */
  function NthOrEmpty(parts: seq<string>, n: nat): string {
    if n < |parts| then parts[n] else ""
  }

  // ---------------------------------------------------------------------------
  // Trimming

  /** Unicode White_Space, the set `char::is_whitespace` (and so `str::trim`) uses. */
  predicate IsWhitespace(c: char) {
    || '\t' <= c <= '\r'
    || c == ' '
    || c == '\U{0085}'
    || c == '\U{00A0}'
    || c == '\U{1680}'
    || '\U{2000}' <= c <= '\U{200A}'
    || c == '\U{2028}'
    || c == '\U{2029}'
    || c == '\U{202F}'
    || c == '\U{205F}'
    || c == '\U{3000}'
  }

  /** Length of the whitespace run at the front of `s`. */
  function LeadingWhitespace(s: string): (k: nat)
    ensures k <= |s|
    ensures forall i :: 0 <= i < k ==> IsWhitespace(s[i])
    ensures k < |s| ==> !IsWhitespace(s[k])
    decreases |s|
  {
    if s == [] || !IsWhitespace(s[0]) then 0 else 1 + LeadingWhitespace(s[1..])
  }

  /** Length of the whitespace run at the back of `s`. */
  function TrailingWhitespace(s: string): (k: nat)
    ensures k <= |s|
    ensures forall i :: |s| - k <= i < |s| ==> IsWhitespace(s[i])
    ensures k < |s| ==> !IsWhitespace(s[|s| - 1 - k])
    decreases |s|
  {
    if s == [] || !IsWhitespace(s[|s| - 1]) then 0 else 1 + TrailingWhitespace(s[..|s| - 1])
  }

  /** `s.trim()`: `s` without its leading and trailing whitespace. */
  function Trim(s: string): (r: string)
    ensures |r| <= |s|
    ensures |r| > 0 ==> !IsWhitespace(r[0]) && !IsWhitespace(r[|r| - 1])
  {
    var a := LeadingWhitespace(s);
    var rest := s[a..];
    var b := |rest| - TrailingWhitespace(rest);
    rest[..b]
  }

  /** Trimming removes only whitespace, and only from the ends. */
  lemma TrimIsSlice(s: string)
    ensures exists i, j :: 0 <= i <= j <= |s| && Trim(s) == s[i..j]
              && (forall k :: 0 <= k < i ==> IsWhitespace(s[k]))
              && (forall k :: j <= k < |s| ==> IsWhitespace(s[k]))
  {
    var a := LeadingWhitespace(s);
    var rest := s[a..];
    var b := |rest| - TrailingWhitespace(rest);
    assert rest[..b] == s[a..a + b];
    assert forall k :: a + b <= k < |s| ==> s[k] == rest[k - a];
  }

  /** Text without whitespace at either end is its own trim. */
  lemma TrimNoop(s: string)
    requires |s| > 0 ==> !IsWhitespace(s[0]) && !IsWhitespace(s[|s| - 1])
    ensures Trim(s) == s
  {
    assert s[0..] == s;
  }

  // ---------------------------------------------------------------------------
  // Prefixes and lines

  predicate StartsWith(s: string, prefix: string) {
    |prefix| <= |s| && s[..|prefix|] == prefix
  }

  /** `s.trim_start_matches(p)`: strip `p` from the front as many times as it occurs there. */
  function TrimStartMatches(s: string, p: string): (r: string)
    ensures |r| <= |s| && r == s[|s| - |r|..]
    ensures 0 < |p| ==> !StartsWith(r, p)
    decreases |s|
  {
    if |p| == 0 || !StartsWith(s, p) then s else TrimStartMatches(s[|p|..], p)
  }

  /** Position of the first '\n', or |s| when there is none. */
  function LineEnd(s: string): (k: nat)
    ensures k <= |s| && '\n' !in s[..k]
    ensures k < |s| ==> s[k] == '\n'
    decreases |s|
  {
    if s == [] || s[0] == '\n' then 0 else 1 + LineEnd(s[1..])
  }

  /** `s.lines().next().unwrap_or("")`: the text before the first "\n", without
      a '\r' that immediately precedes that "\n". */
  function FirstLine(s: string): (l: string)
    ensures '\n' !in l && StartsWith(s, l)
    ensures '\n' !in s ==> l == s
  {
    var k := LineEnd(s);
    var m := if k < |s| && 0 < k && s[k - 1] == '\r' then k - 1 else k;
    assert s[..m] == s[..k][..m];
    s[..m]
  }

  lemma {:induction false} LineEndAfter(a: string, b: string)
    requires '\n' !in a
    ensures LineEnd(a + b) == |a| + LineEnd(b)
    decreases |a|
  {
    if a != [] {
      assert a[0] in a;
      assert forall c :: c in a[1..] ==> c in a;
      LineEndAfter(a[1..], b);
      assert (a + b)[0] == a[0] && (a + b)[1..] == a[1..] + b;
      assert LineEnd(a + b) == 1 + LineEnd(a[1..] + b);
    } else {
      assert a + b == b;
    }
  }

  /** A first line that begins with a newline-free piece followed by a space
      keeps that piece and the space; `y` is the rest of the line. */
  lemma FirstLineKeepsPrefix(a: string, b: string) returns (y: string)
    requires '\n' !in a
    ensures FirstLine(a + [' '] + b) == a + [' '] + y
  {
    var s := a + [' '] + b;
    LineEndAfter(a + [' '], b);
    var k := LineEnd(s);
    var m := if k < |s| && 0 < k && s[k - 1] == '\r' then k - 1 else k;
    assert |a| + 1 <= m;
    y := s[|a| + 1..m];
    assert s[..m] == a + [' '] + y;
  }
}
