/**
 * The helpers of the single-token logits driver (examples/fast_logits.cpp):
 * its copy of parse_int_field, which lets std::stoll's exceptions escape
 * instead of falling back, and the token-id range check made before the
 * embedding row is addressed.
 */
module FastLogits {
  import opened Wrappers
  import opened CxxString
  import opened TextGen
  import opened ShapeMath

  /**
   * fast_logits' parse_int_field: 0 when the quoted key, the colon or the
   * run is missing; otherwise what stoll makes of the run, its exception
   * included.
   */
  function FieldOrZero(content: string, key: string): Result<int, ConversionError>
    requires |content| < NPOS
  {
    match ScanField(content, key)
    case Run(run) => if run == [] then Ok(0) else Stoll(run)
    case _ => Ok(0)
  }

  /** The scanner with its two cursor loops; an Err result is the exception main's catch receives. */
  method ParseIntField(content: string, key: string) returns (r: Result<int, ConversionError>)
    requires |content| < NPOS
    ensures r == FieldOrZero(content, key)
  {
    var k := Quoted(key);
    var pos := FindStr(content, k, 0);
    if pos == NPOS {
      return Ok(0);
    }
    var colon := Find(content, ':', pos);
    if colon == NPOS {
      return Ok(0);
    }
    assert ScanField(content, key) == Run(RunAfter(content, colon));
    var start := colon + 1;
    while start < |content| && IsBlank(content[start])
      invariant colon + 1 <= start <= |content|
      invariant SkipBlanks(content, start) == SkipBlanks(content, colon + 1)
      decreases |content| - start
    {
      start := start + 1;
    }
    var end := start;
    while end < |content| && IsRunChar(content[end])
      invariant start <= end <= |content|
      invariant RunEnd(content, end) == RunEnd(content, start)
      decreases |content| - end
    {
      end := end + 1;
    }
    assert SkipBlanks(content, colon + 1) == start;
    assert RunAfter(content, colon) == content[start .. end];
    if start == end {
      return Ok(0);
    }
    var run := Substr(content, start, end - start);
    assert run == content[start .. end];
    r := Stoll(run);
  }

  /** Without the quoted key the scanner returns 0. */
  lemma AbsentKeyZero(content: string, key: string)
    requires |content| < NPOS
    requires forall i: nat :: !OccursAt(content, Quoted(key), i)
    ensures FieldOrZero(content, key) == Ok(0)
  {
    NoKeyIffAbsent(content, key);
  }

  /**
   * The two scanners agree except on stoll's exceptions: where this one
   * returns a value, text_gen's with fallback 0 returns it too, and where
   * this one throws, text_gen's returns its fallback.
   */
  lemma AgreesWithTextGen(content: string, key: string, fallback: int)
    requires |content| < NPOS
    ensures FieldOrZero(content, key).Ok? ==> FieldOr(content, key, 0) == FieldOrZero(content, key).value
    ensures FieldOrZero(content, key).Err? ==> FieldOr(content, key, fallback) == fallback
  {
  }

  /** The text `"k":-`: the run is a lone '-', which stoll rejects. */
  const DASH_ONLY: string := "\"k\":-"

  /** On a lone '-' text_gen's scanner falls back while this one throws invalid_argument. */
  lemma DashRunDiffers(fallback: int)
    ensures FieldOr(DASH_ONLY, "k", fallback) == fallback
    ensures FieldOrZero(DASH_ONLY, "k") == Err(InvalidArgument)
  {
    DashScan();
    DashRejected();
  }

  /** The scan of `"k":-` finds the run "-". */
  lemma DashScan()
    ensures ScanField(DASH_ONLY, "k") == Run("-")
  {
    var s := DASH_ONLY;
    assert OccursAt(s, Quoted("k"), 0);
    ReadsAfterColon(s, "k", 0, 3);
    assert SkipBlanks(s, 4) == 4;
    RunEndAt(s, 4, 5);
    assert s[4 .. 5] == "-";
  }

  /** stoll("-") reads no digit. */
  lemma DashRejected()
    ensures Stoll("-") == Err(InvalidArgument)
  {
    var m := "-";
    assert !IsSpace(m[0]);
    assert DropSpaces(m) == m;
    assert m[1..] == [] && DigitRun([]) == [];
    assert Numeral(m) == (true, []);
  }

  /** Why main exits early. */
  datatype LogitsError = BadConfig(error: ConversionError) | TokenOutOfRange

  /**
   * The check before the embedding row pointer: an accepted token id is in
   * [0, vocab_size), and its row, token_id * d_model elements in, lies inside
   * a [vocab_size, d_model] table.
   */
  function CheckedRowStart(tokenId: int, vocabSize: int, dModel: int): (r: Option<int>)
    ensures r.Some? <==> 0 <= tokenId < vocabSize
    ensures r.Some? && dModel >= 0 ==> 0 <= r.value && r.value + dModel <= vocabSize * dModel
  {
    if tokenId < 0 || tokenId >= vocabSize then None
    else
      MulLe(tokenId + 1, vocabSize, if dModel < 0 then 0 else dModel);
      Some(tokenId * dModel)
  }

  /**
   * main up to the row pointer: hidden_size and vocab_size read from
   * config.json (an exception ends main through its catch), then the range
   * check on the token id.
   */
  function RowStart(config: string, tokenId: int): (r: Result<int, LogitsError>)
    requires |config| < NPOS
  {
    match FieldOrZero(config, "hidden_size")
    case Err(e) => Err(BadConfig(e))
    case Ok(dModel) =>
      match FieldOrZero(config, "vocab_size")
      case Err(e) => Err(BadConfig(e))
      case Ok(vocabSize) =>
        match CheckedRowStart(tokenId, vocabSize, dModel)
        case None => Err(TokenOutOfRange)
        case Some(start) => Ok(start)
  }

  /** A config.json without "vocab_size" reads as a vocabulary of 0, so every token id is rejected. */
  lemma MissingVocabRejectsAll(config: string, tokenId: int)
    requires |config| < NPOS
    requires forall i: nat :: !OccursAt(config, Quoted("vocab_size"), i)
    requires FieldOrZero(config, "hidden_size").Ok?
    ensures RowStart(config, tokenId) == Err(TokenOutOfRange)
  {
    AbsentKeyZero(config, "vocab_size");
  }
}
