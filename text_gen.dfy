/**
 * The string helpers of the greedy text generation driver
 * (examples/text_gen.cpp): the config.json integer scanner with a fallback
 * value, the quoting of the tokenizer path, the byte-level tokenizer
 * fallback, and the rule that ends generation.
 */
module TextGen {
  import opened Wrappers
  import opened Bytes
  import opened Decimal
  import opened CxxString

  // ---------------------------------------------------------------------
  // parse_int_field: find "key", then ':', skip blanks, read [0-9-]*
  // ---------------------------------------------------------------------

  /** The pattern the scanner searches for: the key between double quotes. */
  function Quoted(key: string): (q: string)
    ensures |q| == |key| + 2 && q[0] == '"' && q[|q| - 1] == '"' && q[1 .. |q| - 1] == key
  {
    "\"" + key + "\""
  }

  /** The characters the number-reading loop accepts: decimal digits and '-'. */
  predicate IsRunChar(c: char)
  {
    IsDigit(c) || c == '-'
  }

  /** Where the blank-skipping loop stops when it starts at i. */
  function SkipBlanks(s: string, i: nat): (r: nat)
    requires i <= |s|
    ensures i <= r <= |s|
    ensures forall t :: i <= t < r ==> IsBlank(s[t])
    ensures r == |s| || !IsBlank(s[r])
    decreases |s| - i
  {
    if i < |s| && IsBlank(s[i]) then SkipBlanks(s, i + 1) else i
  }

  /** Where the number-reading loop stops when it starts at i. */
  function RunEnd(s: string, i: nat): (r: nat)
    requires i <= |s|
    ensures i <= r <= |s|
    ensures forall t :: i <= t < r ==> IsRunChar(s[t])
    ensures r == |s| || !IsRunChar(s[r])
    decreases |s| - i
  {
    if i < |s| && IsRunChar(s[i]) then RunEnd(s, i + 1) else i
  }

  /** What the scanner finds: no quoted key, no ':' after it, or the (possibly empty) run after the colon. */
  datatype Field = NoKey | NoColon | Run(text: string)

  /**
   * The scan shared by both drivers: the first occurrence of the quoted key,
   * the first ':' at or after it, the blanks after the colon skipped, then
   * the longest run of digits and '-'.
   */
  function ScanField(content: string, key: string): (f: Field)
    requires |content| < NPOS
  {
    var pos := FindStr(content, Quoted(key), 0);
    if pos == NPOS then NoKey
    else
      var colon := Find(content, ':', pos);
      if colon == NPOS then NoColon
      else Run(RunAfter(content, colon))
  }

  /** The run read after the colon at index colon: blanks skipped, then digits and '-'. */
  function RunAfter(content: string, colon: nat): string
    requires colon < |content|
  {
    var start := SkipBlanks(content, colon + 1);
    content[start .. RunEnd(content, start)]
  }

  /**
   * text_gen's parse_int_field: the value stoll reads from the run, and the
   * fallback when the key or the colon is missing, the run is empty, or stoll
   * throws (every exception is caught).
   */
  function FieldOr(content: string, key: string, fallback: int): int
    requires |content| < NPOS
  {
    match ScanField(content, key)
    case Run(run) =>
      if run == [] then fallback
      else if Stoll(run).Ok? then Stoll(run).value
      else fallback
    case _ => fallback
  }

  /** The scanner with its two cursor loops, as the driver runs it. */
  method ParseIntField(content: string, key: string, fallback: int) returns (v: int)
    requires |content| < NPOS
    ensures v == FieldOr(content, key, fallback)
  {
    var k := Quoted(key);
    var pos := FindStr(content, k, 0);
    if pos == NPOS {
      return fallback;
    }
    var colon := Find(content, ':', pos);
    if colon == NPOS {
      return fallback;
    }
    assert ScanField(content, key) == Run(RunAfter(content, colon));
    var start := colon + 1;
    while start < |content| && IsBlank(content[start])
      invariant colon + 1 <= start <= |content|
      invariant SkipBlanks(content, start) == SkipBlanks(content, colon + 1)
      decreases |content| - start
    {
      start := start + 1;
    }
    var end := start;
    while end < |content| && IsRunChar(content[end])
      invariant start <= end <= |content|
      invariant RunEnd(content, end) == RunEnd(content, start)
      decreases |content| - end
    {
      end := end + 1;
    }
    assert SkipBlanks(content, colon + 1) == start;
    assert RunAfter(content, colon) == content[start .. end];
    if start == end {
      return fallback;
    }
    var run := Substr(content, start, end - start);
    assert run == content[start .. end];
    var r := Stoll(run);
    if r.Ok? {
      v := r.value;
    } else {
      v := fallback;
    }
  }

  /** The scan reports NoKey exactly when the quoted key occurs nowhere in the text. */
  lemma NoKeyIffAbsent(content: string, key: string)
    requires |content| < NPOS
    ensures ScanField(content, key).NoKey? <==> forall i: nat :: !OccursAt(content, Quoted(key), i)
  {
    FindStrNone(content, Quoted(key));
  }

  /** Without the quoted key the scanner returns the fallback. */
  lemma AbsentKeyFallback(content: string, key: string, fallback: int)
    requires |content| < NPOS
    requires forall i: nat :: !OccursAt(content, Quoted(key), i)
    ensures FieldOr(content, key, fallback) == fallback
  {
    NoKeyIffAbsent(content, key);
  }

  /** With the first occurrence of the quoted key at p, the scan reports NoColon exactly when no ':' follows p. */
  lemma NoColonIffNone(content: string, key: string, p: nat)
    requires |content| < NPOS && OccursAt(content, Quoted(key), p)
    requires forall i: nat :: i < p ==> !OccursAt(content, Quoted(key), i)
    ensures ScanField(content, key).NoColon? <==> forall t :: p <= t < |content| ==> content[t] != ':'
  {
    FindStrFirst(content, Quoted(key), p);
    FindNone(content, ':', p);
  }

  /** With the first occurrence of the quoted key at p and the first ':' after it at c, the scan reads after c. */
  lemma ReadsAfterColon(content: string, key: string, p: nat, c: nat)
    requires |content| < NPOS && OccursAt(content, Quoted(key), p)
    requires forall i: nat :: i < p ==> !OccursAt(content, Quoted(key), i)
    requires p <= c < |content| && content[c] == ':'
    requires forall t :: p <= t < c ==> content[t] != ':'
    ensures ScanField(content, key) == Run(RunAfter(content, c))
  {
    FindStrFirst(content, Quoted(key), p);
    FindAt(content, ':', p, c);
  }

  /**
   * A key written as `"key": n`, with n an int64_t printed in decimal and
   * followed by a character that ends the run, is read back as n (the key
   * holds no ':' and occurs nowhere earlier).
   */
  lemma PrintedFieldReads(pre: string, key: string, n: int, rest: string, fallback: int)
    requires INT64_MIN <= n <= INT64_MAX
    requires forall t :: 0 <= t < |key| ==> key[t] != ':'
    requires rest == [] || !IsRunChar(rest[0])
    requires |pre + Quoted(key) + ": " + IntString(n) + rest| < NPOS
    requires forall i: nat :: i < |pre| ==> !OccursAt(pre + Quoted(key) + ": " + IntString(n) + rest, Quoted(key), i)
    ensures ScanField(pre + Quoted(key) + ": " + IntString(n) + rest, key) == Run(IntString(n))
    ensures FieldOr(pre + Quoted(key) + ": " + IntString(n) + rest, key, fallback) == n
  {
    var q, num := Quoted(key), IntString(n);
    var s := pre + q + ": " + num + rest;
    var p, c := |pre|, |pre| + |q|;
    PrintedLayout(pre, key, num, rest, s);
    ReadsAfterColon(s, key, p, c);
    RunAfterPrinted(s[c..], n, rest);
    ShiftRunAfter(s, c);
    StollRoundTrip(n);
  }

  /** Where the quoted key and the colon sit in `pre "key": num rest`. */
  lemma PrintedLayout(pre: string, key: string, num: string, rest: string, s: string)
    requires s == pre + Quoted(key) + ": " + num + rest
    requires forall t :: 0 <= t < |key| ==> key[t] != ':'
    ensures |pre| + |Quoted(key)| < |s| && s[|pre| + |Quoted(key)|] == ':'
    ensures OccursAt(s, Quoted(key), |pre|)
    ensures forall t :: |pre| <= t < |pre| + |Quoted(key)| ==> s[t] != ':'
    ensures s[|pre| + |Quoted(key)| ..] == ": " + num + rest
  {
    var q := Quoted(key);
    var p, c := |pre|, |pre| + |q|;
    assert s == (pre + q) + (": " + num + rest);
    assert s[p .. c] == q;
    forall t | p <= t < c
      ensures s[t] != ':'
    {
      assert s[t] == q[t - p];
    }
  }

  /** The run after `: ` followed by a printed integer is that integer's spelling. */
  lemma RunAfterPrinted(t: string, n: int, rest: string)
    requires t == ": " + IntString(n) + rest
    requires rest == [] || !IsRunChar(rest[0])
    ensures RunAfter(t, 0) == IntString(n)
  {
    var num := IntString(n);
    assert t[1] == ' ' && t[2] == num[0];
    assert !IsBlank(num[0]) by {
      if n < 0 { assert num[0] == '-'; } else { assert IsDigit(num[0]); }
    }
    assert SkipBlanks(t, 2) == 2;
    var e := 2 + |num|;
    forall i | 2 <= i < e
      ensures IsRunChar(t[i])
    {
      assert t[i] == num[i - 2];
      if n < 0 && i > 2 {
        assert num[i - 2] == NatDigits(-n)[i - 3];
      }
    }
    assert e == |t| || t[e] == rest[0];
    RunEndAt(t, 2, e);
    assert t[2 .. e] == num;
  }

  /** The scan after a colon depends only on the text from the colon on. */
  lemma ShiftRunAfter(s: string, c: nat)
    requires c < |s|
    ensures RunAfter(s, c) == RunAfter(s[c..], 0)
  {
    var t := s[c..];
    ShiftSkipBlanks(s, c, c + 1);
    var start := SkipBlanks(s, c + 1);
    ShiftRunEnd(s, c, start);
    assert s[start .. RunEnd(s, start)] == t[start - c .. RunEnd(t, start - c)];
  }

  lemma {:induction false} ShiftSkipBlanks(s: string, c: nat, i: nat)
    requires c <= i <= |s|
    ensures SkipBlanks(s, i) == c + SkipBlanks(s[c..], i - c)
    decreases |s| - i
  {
    if i < |s| && IsBlank(s[i]) {
      ShiftSkipBlanks(s, c, i + 1);
    }
  }

  lemma {:induction false} ShiftRunEnd(s: string, c: nat, i: nat)
    requires c <= i <= |s|
    ensures RunEnd(s, i) == c + RunEnd(s[c..], i - c)
    decreases |s| - i
  {
    if i < |s| && IsRunChar(s[i]) {
      ShiftRunEnd(s, c, i + 1);
    }
  }

  /** The run loop started at i stops at e when [i, e) is all run characters and e ends the run. */
  lemma {:induction false} RunEndAt(s: string, i: nat, e: nat)
    requires i <= e <= |s|
    requires forall t :: i <= t < e ==> IsRunChar(s[t])
    requires e == |s| || !IsRunChar(s[e])
    ensures RunEnd(s, i) == e
    decreases e - i
  {
    if i < e {
      RunEndAt(s, i + 1, e);
    }
  }

  // ---------------------------------------------------------------------
  // Tokenizer::escape_quotes
  // ---------------------------------------------------------------------

  /** What escape_quotes writes for one character: a backslash before a double quote. */
  function EscapeChar(c: char): (t: string)
  {
    if c == '"' then ['\\', '"'] else [c]
  }

  /** The escaped string, character by character. */
  function Escaped(s: string): (t: string)
  {
    if s == [] then [] else EscapeChar(s[0]) + Escaped(s[1..])
  }

  /** The number of double quotes in s. */
  function QuoteCount(s: string): (n: nat)
    ensures n <= |s|
  {
    if s == [] then 0 else (if s[0] == '"' then 1 else 0) + QuoteCount(s[1..])
  }

  /** Removes every backslash that directly precedes a double quote. */
  function Unescaped(t: string): (s: string)
  {
    if |t| >= 2 && t[0] == '\\' && t[1] == '"' then ['"'] + Unescaped(t[2..])
    else if t == [] then []
    else [t[0]] + Unescaped(t[1..])
  }

  /** Escaping distributes over concatenation. */
  lemma {:induction false} EscapedAppend(a: string, b: string)
    ensures Escaped(a + b) == Escaped(a) + Escaped(b)
  {
    if a != [] {
      assert (a + b)[0] == a[0];
      assert (a + b)[1..] == a[1..] + b;
      EscapedAppend(a[1..], b);
      assert Escaped(a + b) == EscapeChar(a[0]) + Escaped(a[1..] + b);
    } else {
      assert a + b == b;
    }
  }

  /** The output grows by one backslash per double quote. */
  lemma {:induction false} EscapedLength(s: string)
    ensures |Escaped(s)| == |s| + QuoteCount(s)
  {
    if s != [] {
      EscapedLength(s[1..]);
    }
  }

  /** An escaped string never starts with a bare double quote. */
  lemma EscapedHead(s: string)
    ensures Escaped(s) == [] || Escaped(s)[0] != '"'
  {
  }

  /** Deleting the inserted backslashes gives the input back. */
  lemma {:induction false} UnescapeEscaped(s: string)
    ensures Unescaped(Escaped(s)) == s
  {
    if s != [] {
      var rest := Escaped(s[1..]);
      UnescapeEscaped(s[1..]);
      if s[0] == '"' {
        assert Escaped(s) == ['\\', '"'] + rest;
        assert Escaped(s)[2..] == rest;
      } else {
        assert Escaped(s) == [s[0]] + rest;
        EscapedHead(s[1..]);
        assert Escaped(s)[1..] == rest;
      }
    }
  }

  /** Every double quote of the output is preceded by a backslash. */
  lemma {:induction false} EscapedQuotesPreceded(s: string, i: nat)
    requires i < |Escaped(s)| && Escaped(s)[i] == '"'
    ensures i > 0 && Escaped(s)[i - 1] == '\\'
  {
    var e, r := EscapeChar(s[0]), Escaped(s[1..]);
    assert Escaped(s) == e + r;
    EscapedHead(s[1..]);
    if i > |e| {
      EscapedQuotesPreceded(s[1..], i - |e|);
    } else if i == |e| {
      assert false;
    }
  }

  /** escape_quotes: a loop appending each character, preceded by '\' when it is a double quote. */
  method EscapeQuotes(s: string) returns (out: string)
    ensures out == Escaped(s)
  {
    out := [];
    for i := 0 to |s|
      invariant out == Escaped(s[..i])
    {
      if s[i] == '"' {
        out := out + ['\\'];
      }
      out := out + [s[i]];
      EscapedAppend(s[..i], [s[i]]);
      assert s[..i + 1] == s[..i] + [s[i]];
    }
    assert s[..|s|] == s;
  }

  // ---------------------------------------------------------------------
  // the byte-level tokenizer fallback
  // ---------------------------------------------------------------------

  /** The fallback encoding: one id per byte of the text, the byte's value. */
  function ByteIds(text: seq<byte>): (ids: seq<int>)
  {
    if text == [] then [] else ByteIds(text[..|text| - 1]) + [text[|text| - 1] as int]
  }

  /**
   * The low byte of a 64-bit id, `static_cast<unsigned char>`: the value
   * modulo 256 of its two's complement, so -1 gives 255.
   */
  function LowByte(id: int): (b: byte)
    ensures (id - b) % 256 == 0
    ensures 0 <= id < 256 ==> b == id
  {
    id % 256
  }

  /** The fallback decoding: the low byte of each id. */
  function LowBytes(ids: seq<int>): (text: seq<byte>)
  {
    if ids == [] then [] else LowBytes(ids[..|ids| - 1]) + [LowByte(ids[|ids| - 1])]
  }

  lemma {:induction false} ByteIdsAt(text: seq<byte>)
    ensures |ByteIds(text)| == |text|
    ensures forall i :: 0 <= i < |text| ==> ByteIds(text)[i] == text[i] as int && 0 <= ByteIds(text)[i] < 256
  {
    if text != [] {
      ByteIdsAt(text[..|text| - 1]);
    }
  }

  lemma {:induction false} LowBytesAt(ids: seq<int>)
    ensures |LowBytes(ids)| == |ids|
    ensures forall i :: 0 <= i < |ids| ==> LowBytes(ids)[i] == LowByte(ids[i])
  {
    if ids != [] {
      LowBytesAt(ids[..|ids| - 1]);
    }
  }

  /** Decoding the fallback encoding of a text gives the text. */
  lemma DecodeEncode(text: seq<byte>)
    ensures LowBytes(ByteIds(text)) == text
  {
    ByteIdsAt(text);
    LowBytesAt(ByteIds(text));
  }

  /** Encoding the decoded ids gives the ids back exactly when every id is a byte value. */
  lemma EncodeDecode(ids: seq<int>)
    ensures ByteIds(LowBytes(ids)) == ids <==> forall i :: 0 <= i < |ids| ==> 0 <= ids[i] < 256
  {
    var text := LowBytes(ids);
    LowBytesAt(ids);
    ByteIdsAt(text);
    var back := ByteIds(text);
    if forall i :: 0 <= i < |ids| ==> 0 <= ids[i] < 256 {
      forall i | 0 <= i < |ids|
        ensures back[i] == ids[i]
      {
        assert back[i] == LowByte(ids[i]) as int;
      }
      assert back == ids;
    } else {
      var i :| 0 <= i < |ids| && !(0 <= ids[i] < 256);
      assert back[i] != ids[i];
    }
  }

  /** Tokenizer::encode when the Python tokenizer yields nothing: push_back of every byte. */
  method EncodeBytes(text: seq<byte>) returns (ids: seq<int>)
    ensures ids == ByteIds(text)
  {
    ids := [];
    for i := 0 to |text|
      invariant ids == ByteIds(text[..i])
    {
      ids := ids + [text[i] as int];
      assert text[..i + 1][..i] == text[..i];
    }
    assert text[..|text|] == text;
  }

  /** Tokenizer::decode when the Python tokenizer yields nothing: push_back of every id's low byte. */
  method DecodeIds(ids: seq<int>) returns (text: seq<byte>)
    ensures text == LowBytes(ids)
  {
    text := [];
    for i := 0 to |ids|
      invariant text == LowBytes(ids[..i])
    {
      text := text + [LowByte(ids[i])];
      assert ids[..i + 1][..i] == ids[..i];
    }
    assert ids[..|ids|] == ids;
  }

  // ---------------------------------------------------------------------
  // the generation loop
  // ---------------------------------------------------------------------

  /**
   * The ids after generation. `pick` stands for the greedy choice (argmax of
   * the logits the model computes from the ids so far); at most n ids are
   * appended, and the loop ends right after appending eos.
   */
  function Generated(ids: seq<int>, n: int, eos: int, pick: seq<int> -> int): (out: seq<int>)
    decreases n
  {
    if n <= 0 then ids
    else
      var next := pick(ids);
      if next == eos then ids + [next] else Generated(ids + [next], n - 1, eos, pick)
  }

  /** The prompt ids are kept, and at most max(n, 0) ids are appended. */
  lemma {:induction false} GeneratedBounds(ids: seq<int>, n: int, eos: int, pick: seq<int> -> int)
    ensures |ids| <= |Generated(ids, n, eos, pick)| <= |ids| + (if n < 0 then 0 else n)
    ensures Generated(ids, n, eos, pick)[..|ids|] == ids
    decreases n
  {
    if n > 0 && pick(ids) != eos {
      var ids' := ids + [pick(ids)];
      GeneratedBounds(ids', n - 1, eos, pick);
      assert Generated(ids, n, eos, pick)[..|ids'|][..|ids|] == ids;
    }
  }

  /** Every appended id is the choice made from the ids before it. */
  lemma {:induction false} GeneratedPicks(ids: seq<int>, n: int, eos: int, pick: seq<int> -> int)
    ensures forall i :: |ids| <= i < |Generated(ids, n, eos, pick)| ==>
      Generated(ids, n, eos, pick)[i] == pick(Generated(ids, n, eos, pick)[..i])
    decreases n
  {
    var out := Generated(ids, n, eos, pick);
    if n > 0 {
      var ids' := ids + [pick(ids)];
      if pick(ids) != eos {
        GeneratedPicks(ids', n - 1, eos, pick);
        GeneratedBounds(ids', n - 1, eos, pick);
        forall i | |ids| <= i < |out|
          ensures out[i] == pick(out[..i])
        {
          if i == |ids| {
            assert out[..|ids'|][..i] == ids;
            assert out[..i] == ids;
            assert out[i] == out[..|ids'|][i];
          }
        }
      } else {
        assert out[..|ids|] == ids;
      }
    }
  }

  /** No appended id before the last one is eos. */
  lemma {:induction false} GeneratedStopsAtEos(ids: seq<int>, n: int, eos: int, pick: seq<int> -> int)
    ensures forall i :: |ids| <= i < |Generated(ids, n, eos, pick)| - 1 ==> Generated(ids, n, eos, pick)[i] != eos
    decreases n
  {
    var out := Generated(ids, n, eos, pick);
    if n > 0 && pick(ids) != eos {
      var ids' := ids + [pick(ids)];
      GeneratedStopsAtEos(ids', n - 1, eos, pick);
      GeneratedBounds(ids', n - 1, eos, pick);
      assert out[|ids|] == out[..|ids'|][|ids|];
    }
  }

  /** With a positive budget something is appended, and appending fewer than n ids means the last one is eos. */
  lemma {:induction false} GeneratedEndsEarlyAtEos(ids: seq<int>, n: int, eos: int, pick: seq<int> -> int)
    ensures n > 0 ==> |Generated(ids, n, eos, pick)| > |ids|
    ensures |Generated(ids, n, eos, pick)| < |ids| + n ==>
      |Generated(ids, n, eos, pick)| > |ids| && Generated(ids, n, eos, pick)[|Generated(ids, n, eos, pick)| - 1] == eos
    decreases n
  {
    if n > 0 && pick(ids) != eos {
      var ids' := ids + [pick(ids)];
      GeneratedEndsEarlyAtEos(ids', n - 1, eos, pick);
      GeneratedBounds(ids', n - 1, eos, pick);
    }
  }

  /**
   * The loop of main: pick the next id, push it, stop on eos; max_new_tokens
   * is a C int, so a negative value runs no step.
   */
  method Generate(ids: seq<int>, maxNewTokens: int, eos: int, pick: seq<int> -> int) returns (out: seq<int>)
    ensures out == Generated(ids, maxNewTokens, eos, pick)
  {
    out := ids;
    var step := 0;
    while step < maxNewTokens
      invariant 0 <= step
      invariant Generated(out, maxNewTokens - step, eos, pick) == Generated(ids, maxNewTokens, eos, pick)
      decreases maxNewTokens - step
    {
      var next := pick(out);
      out := out + [next];
      if next == eos {
        break;
      }
      step := step + 1;
    }
  }
}
