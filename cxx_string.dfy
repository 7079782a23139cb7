/**
 * The parts of std::string and <string> the C++ reader and the example
 * drivers rely on: find with npos, substr, std::stoll / std::stoull, and
 * operator< (the order of a std::map keyed by strings). Characters stand for
 * the bytes of the file, so their codes are those bytes.
 */
module CxxString {
  import opened Wrappers
  import opened Bytes
  import opened Decimal

  /** std::string::npos, the largest size_t. */
  const NPOS: nat := TWO_64 - 1

  const INT64_MIN: int := -0x8000_0000_0000_0000
  const INT64_MAX: int := 0x7FFF_FFFF_FFFF_FFFF

  /** A size_t result of an arithmetic expression: wrapped modulo 2^64. */
  function Wrap(x: int): (r: nat)
    ensures r < TWO_64
    ensures 0 <= x < TWO_64 ==> r == x
  {
    x % TWO_64
  }

  /** `p + 1` for a position that may be npos: npos + 1 wraps to 0. */
  function Succ(p: nat): (r: nat)
    requires p <= NPOS
    ensures p < NPOS ==> r == p + 1
    ensures p == NPOS ==> r == 0
  {
    Wrap(p + 1)
  }

  /** std::string::find(c, from): the first index at or after `from` holding c, or npos. */
  function Find(s: string, c: char, from: nat): (r: nat)
    requires |s| < NPOS
    ensures r == NPOS || (from <= r < |s| && s[r] == c)
    decreases |s| - from
  {
    if from >= |s| then NPOS else if s[from] == c then from else Find(s, c, from + 1)
  }

  /** No earlier index holds the character find() looks for. */
  lemma {:induction false} FindFirst(s: string, c: char, from: nat, i: nat)
    requires |s| < NPOS
    requires from <= i < |s| && i < Find(s, c, from)
    ensures s[i] != c
    decreases |s| - from
  {
    if s[from] != c && from < i {
      FindFirst(s, c, from + 1, i);
    }
  }

  /** find(c, from) reports the first index at or after `from` holding c. */
  lemma {:induction false} FindAt(s: string, c: char, from: nat, j: nat)
    requires |s| < NPOS && from <= j < |s| && s[j] == c
    requires forall t :: from <= t < j ==> s[t] != c
    ensures Find(s, c, from) == j
    decreases j - from
  {
    if from < j {
      FindAt(s, c, from + 1, j);
    }
  }

  /** find(c, from) is npos exactly when no index at or after `from` holds c. */
  lemma {:induction false} FindNone(s: string, c: char, from: nat)
    requires |s| < NPOS
    ensures Find(s, c, from) == NPOS <==> forall t :: from <= t < |s| ==> s[t] != c
    decreases |s| - from
  {
    if from < |s| {
      FindNone(s, c, from + 1);
    }
  }

  /** std::string::find(pat, from) for a non-empty pattern. */
  function FindStr(s: string, pat: string, from: nat): (r: nat)
    requires |s| < NPOS && pat != []
    ensures r == NPOS || (from <= r && r + |pat| <= |s|)
    decreases |s| - from
  {
    if from + |pat| > |s| then NPOS
    else if s[from .. from + |pat|] == pat then from
    else FindStr(s, pat, from + 1)
  }

  /** Where find() reports a position, the pattern occurs there. */
  lemma {:induction false} FindStrMatches(s: string, pat: string, from: nat)
    requires |s| < NPOS && pat != []
    requires FindStr(s, pat, from) != NPOS
    ensures s[FindStr(s, pat, from) .. FindStr(s, pat, from) + |pat|] == pat
    decreases |s| - from
  {
    if s[from .. from + |pat|] != pat {
      FindStrMatches(s, pat, from + 1);
    }
  }

  /** A pattern that occurs at or after `from` is found. */
  lemma {:induction false} FindStrFinds(s: string, pat: string, from: nat, i: nat)
    requires |s| < NPOS && pat != []
    requires from <= i && i + |pat| <= |s| && s[i .. i + |pat|] == pat
    ensures FindStr(s, pat, from) != NPOS && FindStr(s, pat, from) <= i
    decreases |s| - from
  {
    if s[from .. from + |pat|] != pat {
      FindStrFinds(s, pat, from + 1, i);
    }
  }

  /** The pattern occurs in s starting at index i. */
  predicate OccursAt(s: string, pat: string, i: nat)
  {
    i + |pat| <= |s| && s[i .. i + |pat|] == pat
  }

  /** find(pat) reports the first occurrence of the pattern. */
  lemma FindStrFirst(s: string, pat: string, p: nat)
    requires |s| < NPOS && pat != []
    requires OccursAt(s, pat, p)
    requires forall i: nat :: i < p ==> !OccursAt(s, pat, i)
    ensures FindStr(s, pat, 0) == p
  {
    FindStrFinds(s, pat, 0, p);
    FindStrMatches(s, pat, 0);
    assert OccursAt(s, pat, FindStr(s, pat, 0));
  }

  /** find(pat) is npos exactly when the pattern occurs nowhere. */
  lemma FindStrNone(s: string, pat: string)
    requires |s| < NPOS && pat != []
    ensures FindStr(s, pat, 0) == NPOS <==> forall i: nat :: !OccursAt(s, pat, i)
  {
    if FindStr(s, pat, 0) != NPOS {
      FindStrMatches(s, pat, 0);
      assert OccursAt(s, pat, FindStr(s, pat, 0));
    } else {
      forall i: nat
        ensures !OccursAt(s, pat, i)
      {
        if OccursAt(s, pat, i) {
          FindStrFinds(s, pat, 0, i);
        }
      }
    }
  }

  /** std::string::substr(pos, count) with pos <= size(): at most `count` characters from pos on. */
  function Substr(s: string, pos: nat, count: nat): (t: string)
    requires pos <= |s|
    ensures |t| == if count <= |s| - pos then count else |s| - pos
    ensures t == s[pos .. pos + |t|]
  {
    if count <= |s| - pos then s[pos .. pos + count] else s[pos..]
  }

  /** The separators the two erase calls strip: space and tab. */
  predicate IsBlank(c: char) { c == ' ' || c == '\t' }

  function TrimFront(s: string): (t: string)
    ensures |t| <= |s|
    ensures t == [] || !IsBlank(t[0])
  {
    if s != [] && IsBlank(s[0]) then TrimFront(s[1..]) else s
  }

  /** TrimFront removes a prefix of blanks and nothing else. */
  lemma {:induction false} TrimFrontDrops(s: string)
    ensures TrimFront(s) == s[|s| - |TrimFront(s)|..]
    ensures forall i :: 0 <= i < |s| - |TrimFront(s)| ==> IsBlank(s[i])
  {
    if s != [] && IsBlank(s[0]) {
      TrimFrontDrops(s[1..]);
      assert s[1..][|s| - 1 - |TrimFront(s)|..] == s[|s| - |TrimFront(s)|..];
    }
  }

  function TrimBack(s: string): (t: string)
    ensures |t| <= |s|
    ensures t == [] || !IsBlank(t[|t| - 1])
  {
    if s != [] && IsBlank(s[|s| - 1]) then TrimBack(s[..|s| - 1]) else s
  }

  /** TrimBack removes a suffix of blanks and nothing else. */
  lemma {:induction false} TrimBackDrops(s: string)
    ensures TrimBack(s) == s[..|TrimBack(s)|]
    ensures forall i :: |TrimBack(s)| <= i < |s| ==> IsBlank(s[i])
  {
    if s != [] && IsBlank(s[|s| - 1]) {
      TrimBackDrops(s[..|s| - 1]);
      assert s[..|s| - 1][..|TrimBack(s)|] == s[..|TrimBack(s)|];
    }
  }

  /**
   * item.erase(0, item.find_first_not_of(" \t")) then
   * item.erase(item.find_last_not_of(" \t") + 1): both ends stripped of blanks.
   */
  function Trim(s: string): (t: string)
  {
    TrimBack(TrimFront(s))
  }

  /** A string with no blank at either end is left as it is. */
  lemma TrimUnchanged(s: string)
    requires s == [] || (!IsBlank(s[0]) && !IsBlank(s[|s| - 1]))
    ensures Trim(s) == s
  {
  }

  /** The white space std::strtoll skips (isspace in the "C" locale). */
  predicate IsSpace(c: char)
  {
    c == ' ' || c == '\t' || c == '\n' || c == '\r' || c as int == 11 || c as int == 12
  }

  function DropSpaces(s: string): (t: string)
    ensures |t| <= |s| && t == s[|s| - |t|..]
    ensures t == [] || !IsSpace(t[0])
  {
    if s != [] && IsSpace(s[0]) then
      var t := DropSpaces(s[1..]);
      assert s[1..][|s| - 1 - |t|..] == s[|s| - |t|..];
      t
    else s
  }

  /** The longest run of decimal digits at the start of `s`. */
  function DigitRun(s: string): (d: string)
    ensures AllDigits(d) && |d| <= |s| && d == s[..|d|]
    ensures |d| < |s| ==> !IsDigit(s[|d|])
  {
    if s != [] && IsDigit(s[0]) then
      var rest := DigitRun(s[1..]);
      assert [s[0]] + s[1..][..|rest|] == s[..|rest| + 1];
      [s[0]] + rest
    else []
  }

  /** What strtoll/strtoull read in base 10: skipped white space, an optional sign, the longest digit run. */
  function Numeral(s: string): (r: (bool, string))
    ensures AllDigits(r.1)
  {
    var t := DropSpaces(s);
    if t != [] && (t[0] == '-' || t[0] == '+') then (t[0] == '-', DigitRun(t[1..])) else (false, DigitRun(t))
  }

  /** The exceptions of std::stoll / std::stoull. */
  datatype ConversionError = InvalidArgument | OutOfRange

  /**
   * std::stoll: invalid_argument when no digits can be read, out_of_range
   * outside int64_t; characters after the digits are ignored.
   */
  function Stoll(s: string): (r: Result<int, ConversionError>)
    ensures r.Ok? ==> INT64_MIN <= r.value <= INT64_MAX
    ensures r == Err(InvalidArgument) <==> Numeral(s).1 == []
  {
    var (negative, digits) := Numeral(s);
    if digits == [] then Err(InvalidArgument)
    else
      var v: int := if negative then 0 - DigitsValue(digits) else DigitsValue(digits);
      if v < INT64_MIN || v > INT64_MAX then Err(OutOfRange) else Ok(v)
  }

  /**
   * std::stoull: like stoll, but the magnitude must fit 64 bits and a leading
   * '-' negates it modulo 2^64 ("-1" reads as 2^64 - 1).
   */
  function Stoull(s: string): (r: Result<nat, ConversionError>)
    ensures r.Ok? ==> r.value < TWO_64
    ensures r == Err(InvalidArgument) <==> Numeral(s).1 == []
  {
    var (negative, digits) := Numeral(s);
    if digits == [] then Err(InvalidArgument)
    else if DigitsValue(digits) >= TWO_64 then Err(OutOfRange)
    else
      var m: int := DigitsValue(digits);
      Ok(Wrap(if negative then -m else m))
  }

  lemma {:induction false} DigitRunAll(s: string)
    requires AllDigits(s)
    ensures DigitRun(s) == s
  {
    if s != [] {
      DigitRunAll(s[1..]);
    }
  }

  /** A digit string, with or without a leading minus sign, is read whole. */
  lemma NumeralOfDigits(d: string)
    requires d != [] && AllDigits(d)
    ensures Numeral(d) == (false, d)
  {
    DigitRunAll(d);
    assert !IsSpace(d[0]);
  }

  lemma NumeralOfNegative(d: string)
    requires d != [] && AllDigits(d)
    ensures Numeral("-" + d) == (true, d)
  {
    var m := "-" + d;
    assert !IsSpace(m[0]);
    assert DropSpaces(m) == m;
    assert m[1..] == d;
    DigitRunAll(d);
  }

  /** A number printed in decimal (Python's str(int)) reads back through stoll when it fits int64_t. */
  lemma StollRoundTrip(n: int)
    requires INT64_MIN <= n <= INT64_MAX
    ensures Stoll(IntString(n)) == Ok(n)
  {
    if n < 0 {
      var d := NatDigits(-n);
      assert IntString(n) == "-" + d;
      NumeralOfNegative(d);
      DigitsRoundTrip(-n);
      StollOf(IntString(n), true, d);
    } else {
      var d := NatDigits(n);
      assert IntString(n) == d;
      NumeralOfDigits(d);
      DigitsRoundTrip(n);
      StollOf(IntString(n), false, d);
    }
  }

  /** stoll of a string whose numeral is read as `d`, with or without a minus sign. */
  lemma StollOf(s: string, negative: bool, d: string)
    requires Numeral(s) == (negative, d) && d != []
    requires INT64_MIN <= (if negative then 0 - DigitsValue(d) as int else DigitsValue(d)) <= INT64_MAX
    ensures Stoll(s) == Ok(if negative then 0 - DigitsValue(d) as int else DigitsValue(d))
  {
  }

  /** A natural number printed in decimal reads back through stoull when it fits 64 bits. */
  lemma StoullRoundTrip(n: nat)
    requires n < TWO_64
    ensures Stoull(NatDigits(n)) == Ok(n)
  {
    NumeralOfDigits(NatDigits(n));
    DigitsRoundTrip(n);
  }

  /**
   * std::string's operator<: lexicographic by character code (char_traits
   * compares as unsigned char), a proper prefix first.
   */
  predicate Less(a: string, b: string)
  {
    if a == [] then b != []
    else b != [] && (a[0] < b[0] || (a[0] == b[0] && Less(a[1..], b[1..])))
  }

  lemma {:induction false} LessIrreflexive(a: string)
    ensures !Less(a, a)
  {
    if a != [] {
      LessIrreflexive(a[1..]);
    }
  }

  lemma {:induction false} LessTransitive(a: string, b: string, c: string)
    requires Less(a, b) && Less(b, c)
    ensures Less(a, c)
  {
    if a != [] && a[0] == b[0] && b[0] == c[0] {
      LessTransitive(a[1..], b[1..], c[1..]);
    }
  }

  /** Any two different strings are ordered one way or the other. */
  lemma {:induction false} LessTotal(a: string, b: string)
    requires a != b
    ensures Less(a, b) || Less(b, a)
  {
    if a != [] && b != [] && a[0] == b[0] {
      assert a == [a[0]] + a[1..] && b == [b[0]] + b[1..];
      LessTotal(a[1..], b[1..]);
    }
  }
}
