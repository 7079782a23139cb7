/**
 * The Python values a safetensors header decodes to, and json.dumps with
 * separators=(',', ':') and the default ensure_ascii=True, which the minimal
 * writer uses to produce the header text.
 */
module PyJson {
  import opened Wrappers
  import opened Bytes
  import opened Decimal

  predicate IsAscii(s: string) { forall i :: 0 <= i < |s| ==> s[i] as int < 128 }

  /** The text json.dumps writes for a float (float.__repr__, NaN, Infinity): never empty, always ASCII. */
  type FloatRepr = s: string | |s| >= 1 && IsAscii(s) witness "0"

  /**
   * A decoded JSON value as Python holds it: None, bool, int, float, str, list
   * and dict. A dict's members are its items() in insertion order, with
   * distinct keys. A JObj with a repeated key stands for no Python dict
   * (json.loads keeps the last value for a repeated key), so Lookup's
   * first-match answer agrees with Python on every JObj that is a dict.
   */
  datatype Json =
    | JNull
    | JBool(b: bool)
    | JInt(i: int)
    | JFloat(repr: FloatRepr)
    | JStr(s: string)
    | JArr(items: seq<Json>)
    | JObj(members: seq<(string, Json)>)

  /** isinstance(x, int): bool is a subclass of int in Python. */
  predicate IsPyInt(j: Json) { j.JInt? || j.JBool? }

  /** int(x) for a Python int or bool. */
  function PyIntValue(j: Json): int
    requires IsPyInt(j)
  {
    if j.JInt? then j.i else if j.b then 1 else 0
  }

  /** Lists and dicts are unhashable: `x in some_dict` raises TypeError for them. */
  predicate Hashable(j: Json) { !j.JArr? && !j.JObj? }

  /** d[key] on a dict's items: the value stored under the key, None for a KeyError. */
  function Lookup(members: seq<(string, Json)>, key: string): (r: Option<Json>)
    ensures r.Some? <==> exists i :: 0 <= i < |members| && members[i].0 == key
    ensures r.Some? ==> exists i :: 0 <= i < |members| && members[i] == (key, r.value)
  {
    if members == [] then None
    else if members[0].0 == key then Some(members[0].1)
    else
      var r := Lookup(members[1..], key);
      assert forall i :: 1 <= i < |members| ==> members[i] == members[1..][i - 1];
      r
  }

  /** The first member carrying the key is the one found. */
  lemma {:induction false} LookupFirst(members: seq<(string, Json)>, key: string, i: nat)
    requires i < |members| && members[i].0 == key
    requires forall j :: 0 <= j < i ==> members[j].0 != key
    ensures Lookup(members, key) == Some(members[i].1)
  {
    if i > 0 {
      forall j | 0 <= j < i - 1 ensures members[1..][j].0 != key {
        assert members[1..][j] == members[j + 1];
      }
      LookupFirst(members[1..], key, i - 1);
    }
  }

  /**
   * `a, b = x`: iterable unpacking into two names. A list yields its items, a
   * str its characters, a dict its keys; any other length, and any value that
   * is not iterable, fails.
   */
  function Unpack2(j: Json): (r: Option<(Json, Json)>)
    ensures r.Some? <==> (j.JArr? && |j.items| == 2) || (j.JStr? && |j.s| == 2) || (j.JObj? && |j.members| == 2)
    ensures j.JArr? && r.Some? ==> r.value == (j.items[0], j.items[1])
    ensures !j.JArr? && r.Some? ==> r.value.0.JStr? && r.value.1.JStr?
  {
    match j
    case JArr(items) => if |items| == 2 then Some((items[0], items[1])) else None
    case JStr(s) => if |s| == 2 then Some((JStr([s[0]]), JStr([s[1]]))) else None
    case JObj(ms) => if |ms| == 2 then Some((JStr(ms[0].0), JStr(ms[1].0))) else None
    case _ => None
  }

  /** A lower-case hexadecimal digit, as '{0:04x}' writes it. */
  function HexDigit(d: nat): (c: char)
    requires d < 16
    ensures HexValue(c) == d
  {
    "0123456789abcdef"[d]
  }

  predicate IsHex(c: char) { '0' <= c <= '9' || 'a' <= c <= 'f' || 'A' <= c <= 'F' }

  function HexValue(c: char): (v: nat)
    ensures IsHex(c) ==> v < 16
  {
    if '0' <= c <= '9' then c as int - '0' as int
    else if 'a' <= c <= 'f' then c as int - 'a' as int + 10
    else if 'A' <= c <= 'F' then c as int - 'A' as int + 10
    else 0
  }

  function Pow16(k: nat): (r: nat)
    ensures r >= 1
  {
    if k == 0 then 1 else 16 * Pow16(k - 1)
  }

  /** The k low hex digits of n, most significant first, in lower case. */
  function HexDigits(n: nat, k: nat): (s: string)
    ensures |s| == k && forall i :: 0 <= i < k ==> IsHex(s[i]) && s[i] as int < 128
  {
    if k == 0 then "" else HexDigits(n / 16, k - 1) + [HexDigit(n % 16)]
  }

  /** The number a string of hex digits spells, most significant first. */
  function HexStringValue(s: string): (v: nat)
    ensures (forall i :: 0 <= i < |s| ==> IsHex(s[i])) ==> v < Pow16(|s|)
  {
    if s == [] then 0 else 16 * HexStringValue(s[..|s| - 1]) + HexValue(s[|s| - 1])
  }

  lemma {:induction false} HexDigitsRoundTrip(n: nat, k: nat)
    requires n < Pow16(k)
    ensures HexStringValue(HexDigits(n, k)) == n
  {
    if k > 0 {
      var high, low := n / 16, n % 16;
      assert high < Pow16(k - 1);
      HexDigitsRoundTrip(high, k - 1);
      var s := HexDigits(n, k);
      assert s == HexDigits(high, k - 1) + [HexDigit(low)];
      assert s[..|s| - 1] == HexDigits(high, k - 1) && s[|s| - 1] == HexDigit(low);
      assert HexStringValue(s) == 16 * HexStringValue(s[..|s| - 1]) + HexValue(s[|s| - 1]);
      assert n == 16 * high + low;
    }
  }

  /** Four lower-case hex digits of a 16-bit value, as '{0:04x}' writes them. */
  function Hex4(n: nat): (s: string)
    requires n < 0x10000
    ensures |s| == 4 && forall i :: 0 <= i < 4 ==> IsHex(s[i]) && s[i] as int < 128
    ensures HexStringValue(s) == n
  {
    assert Pow16(4) == 0x10000;
    HexDigitsRoundTrip(n, 4);
    HexDigits(n, 4)
  }

  /** "\\u" followed by four hex digits: one UTF-16 code unit. */
  function UEscape(n: nat): (s: string)
    requires n < 0x10000
    ensures |s| == 6 && s[0] == '\\' && s[1] == 'u' && s[2..] == Hex4(n)
  {
    "\\u" + Hex4(n)
  }

  /**
   * How ensure_ascii spells one character inside a JSON string: a short escape
   * for the quote, the backslash and \b \f \n \r \t; printable ASCII as itself;
   * everything else, DEL included, as \uXXXX, with a surrogate pair above U+FFFF.
   */
  function EscapeChar(c: char): (r: string)
    ensures |r| >= 1
    ensures forall k :: 0 <= k < |r| ==> 0x20 <= r[k] as int < 0x7F
    ensures |r| == 1 <==> (0x20 <= c as int < 0x7F && c != '"' && c != '\\')
  {
    if c == '"' then "\\\""
    else if c == '\\' then "\\\\"
    else if c as int == 8 then "\\b"
    else if c as int == 12 then "\\f"
    else if c == '\n' then "\\n"
    else if c == '\r' then "\\r"
    else if c == '\t' then "\\t"
    else if 0x20 <= c as int < 0x7F then [c]
    else if c as int < 0x10000 then UEscape(c as int)
    else
      var v := c as int - 0x10000;
      UEscape(0xD800 + v / 0x400) + UEscape(0xDC00 + v % 0x400)
  }

  /** The body of a JSON string literal for `s` (between the quotes). */
  function Escape(s: string): (r: string)
    ensures forall k :: 0 <= k < |r| ==> 0x20 <= r[k] as int < 0x7F
    ensures |r| >= |s|
  {
    if s == [] then "" else EscapeChar(s[0]) + Escape(s[1..])
  }

  function Prepend(c: char, o: Option<string>): Option<string>
  {
    if o.Some? then Some([c] + o.value) else None
  }

  /** The single-character escapes of a JSON string literal (section 7 of RFC 8259). */
  function ShortEscape(c: char): Option<char>
  {
    if c == '"' then Some('"') else if c == '\\' then Some('\\') else if c == '/' then Some('/')
    else if c == 'b' then Some(8 as char) else if c == 'f' then Some(12 as char)
    else if c == 'n' then Some('\n') else if c == 'r' then Some('\r') else if c == 't' then Some('\t')
    else None
  }

  predicate IsHex4(s: string) { |s| == 4 && IsHex(s[0]) && IsHex(s[1]) && IsHex(s[2]) && IsHex(s[3]) }

  /**
   * How json.loads reads the body of a string literal: escapes are decoded, a
   * high surrogate must be followed by an escaped low surrogate (a lone
   * surrogate is not a character here), and a raw quote or control character
   * is refused.
   */
  function Unescape(t: string): Option<string>
    decreases |t|
  {
    if t == [] then Some([])
    else if t[0] == '\\' then
      if |t| >= 2 && ShortEscape(t[1]).Some? then Prepend(ShortEscape(t[1]).value, Unescape(t[2..]))
      else if |t| >= 6 && t[1] == 'u' && IsHex4(t[2..6]) then
        var u := HexStringValue(t[2..6]);
        if 0xD800 <= u < 0xDC00 then
          if |t| >= 12 && t[6] == '\\' && t[7] == 'u' && IsHex4(t[8..12]) && 0xDC00 <= HexStringValue(t[8..12]) < 0xE000 then
            Prepend((0x10000 + (u - 0xD800) * 0x400 + (HexStringValue(t[8..12]) - 0xDC00)) as char, Unescape(t[12..]))
          else None
        else if 0xDC00 <= u < 0xE000 then None
        else Prepend(u as char, Unescape(t[6..]))
      else None
    else if t[0] == '"' || t[0] as int < 0x20 then None
    else Prepend(t[0], Unescape(t[1..]))
  }

  /** Decoding one escaped character, followed by anything, yields that character first. */
  lemma UnescapeChar(c: char, rest: string)
    ensures Unescape(EscapeChar(c) + rest) == Prepend(c, Unescape(rest))
  {
    if c as int >= 0x10000 {
      UnescapeAstral(c, rest);
    } else if |EscapeChar(c)| == 6 {
      UnescapeBmp(c, rest);
    } else if |EscapeChar(c)| == 2 {
      UnescapeShort(c, rest);
    } else {
      UnescapePlain(c, rest);
    }
  }

  /** The quote, the backslash and the five control characters with a short escape. */
  lemma UnescapeShort(c: char, rest: string)
    requires |EscapeChar(c)| == 2
    ensures Unescape(EscapeChar(c) + rest) == Prepend(c, Unescape(rest))
  {
    var t := EscapeChar(c) + rest;
    assert t[2..] == rest;
  }

  /** Printable ASCII other than the quote and the backslash travels as itself. */
  lemma UnescapePlain(c: char, rest: string)
    requires |EscapeChar(c)| == 1
    ensures Unescape(EscapeChar(c) + rest) == Prepend(c, Unescape(rest))
  {
    var t := EscapeChar(c) + rest;
    assert t[1..] == rest;
  }

  /** A control character or a non-ASCII character of the basic plane travels as one \uXXXX. */
  lemma UnescapeBmp(c: char, rest: string)
    requires c as int < 0x10000 && |EscapeChar(c)| == 6
    ensures Unescape(EscapeChar(c) + rest) == Prepend(c, Unescape(rest))
  {
    EscapeCharBmp(c);
    UnescapeUnit(c, rest);
  }

  lemma EscapeCharBmp(c: char)
    requires c as int < 0x10000 && |EscapeChar(c)| == 6
    ensures EscapeChar(c) == UEscape(c as int)
  {
  }

  lemma UnescapeUnit(c: char, rest: string)
    requires c as int < 0x10000
    ensures Unescape(UEscape(c as int) + rest) == Prepend(c, Unescape(rest))
  {
    var t := UEscape(c as int) + rest;
    assert t[2..6] == Hex4(c as int);
    assert t[6..] == rest;
  }

  /** A character above U+FFFF travels as a surrogate pair and is reassembled. */
  lemma UnescapeAstral(c: char, rest: string)
    requires c as int >= 0x10000
    ensures Unescape(EscapeChar(c) + rest) == Prepend(c, Unescape(rest))
  {
    var hi, lo := Surrogates(c);
    EscapeCharAstral(c);
    UnescapePair(hi, lo, rest);
    assert EscapeChar(c) + rest == UEscape(hi) + (UEscape(lo) + rest);
  }

  /** The UTF-16 surrogate pair of a character above U+FFFF. */
  lemma Surrogates(c: char) returns (hi: nat, lo: nat)
    requires c as int >= 0x10000
    ensures hi == 0xD800 + (c as int - 0x10000) / 0x400 && lo == 0xDC00 + (c as int - 0x10000) % 0x400
    ensures 0xD800 <= hi < 0xDC00 && 0xDC00 <= lo < 0xE000
    ensures 0x10000 + (hi - 0xD800) * 0x400 + (lo - 0xDC00) == c as int
  {
    var v := c as int - 0x10000;
    hi, lo := 0xD800 + v / 0x400, 0xDC00 + v % 0x400;
  }

  lemma EscapeCharAstral(c: char)
    requires c as int >= 0x10000
    ensures EscapeChar(c) == UEscape(0xD800 + (c as int - 0x10000) / 0x400) + UEscape(0xDC00 + (c as int - 0x10000) % 0x400)
  {
  }

  /** An escaped high surrogate followed by an escaped low surrogate decodes to one character. */
  lemma UnescapePair(hi: nat, lo: nat, rest: string)
    requires 0xD800 <= hi < 0xDC00 && 0xDC00 <= lo < 0xE000
    requires 0x10000 + (hi - 0xD800) * 0x400 + (lo - 0xDC00) < 0x11_0000
    ensures Unescape(UEscape(hi) + (UEscape(lo) + rest))
         == Prepend((0x10000 + (hi - 0xD800) * 0x400 + (lo - 0xDC00)) as char, Unescape(rest))
  {
    var t' := UEscape(lo) + rest;
    var t := UEscape(hi) + t';
    assert t[2..6] == Hex4(hi);
    assert t[6..] == t';
    assert t'[2..6] == Hex4(lo);
    assert t[8..12] == t'[2..6];
    assert t[12..] == rest;
  }

  /** json.loads undoes json.dumps on strings: decoding the escaped body gives the string back. */
  lemma {:induction false} EscapeRoundTrip(s: string)
    ensures Unescape(Escape(s)) == Some(s)
  {
    if s != [] {
      EscapeRoundTrip(s[1..]);
      UnescapeChar(s[0], Escape(s[1..]));
      assert [s[0]] + s[1..] == s;
    }
  }

  /** A JSON string literal. */
  function Quote(s: string): (r: string)
    ensures IsAscii(r) && |r| >= 2
  {
    "\"" + Escape(s) + "\""
  }

  /** json.dumps(j, separators=(',', ':')) with ensure_ascii: the output is pure ASCII. */
  function Dumps(j: Json): (r: string)
    ensures IsAscii(r) && |r| >= 1
    decreases j, 1
  {
    match j
    case JNull => "null"
    case JBool(b) => if b then "true" else "false"
    case JInt(i) => IntString(i)
    case JFloat(repr) => repr
    case JStr(s) => Quote(s)
    case JArr(items) => "[" + DumpsItems(items) + "]"
    case JObj(ms) => "{" + DumpsMembers(ms) + "}"
  }

  /** A list's items, separated by ','. */
  function DumpsItems(items: seq<Json>): (r: string)
    ensures IsAscii(r)
    decreases items, 0
  {
    if items == [] then ""
    else if |items| == 1 then Dumps(items[0])
    else Dumps(items[0]) + "," + DumpsItems(items[1..])
  }

  /** A dict's items as key:value pairs, separated by ','. */
  function DumpsMembers(ms: seq<(string, Json)>): (r: string)
    ensures IsAscii(r)
    decreases ms, 0
  {
    if ms == [] then ""
    else
      var (k, v) := ms[0];
      assert v < ms[0];
      var pair := Quote(k) + ":" + Dumps(v);
      if |ms| == 1 then pair else pair + "," + DumpsMembers(ms[1..])
  }

  /** str.encode('utf-8') of an ASCII string: one byte per character, the code point itself. */
  function AsciiBytes(s: string): (b: seq<byte>)
    requires IsAscii(s)
    ensures |b| == |s|
    ensures forall i :: 0 <= i < |s| ==> b[i] == s[i] as int
  {
    seq(|s|, i requires 0 <= i < |s| => s[i] as int)
  }

  /** bytes.decode('utf-8') of ASCII bytes inverts the encoding. */
  lemma AsciiBytesRoundTrip(s: string)
    requires IsAscii(s)
    ensures BytesToChars(AsciiBytes(s)) == s
  {
  }
}
