/**
 * The record tokenizer of src/unpack.c: unpack_record with the helpers it uses,
 * strlen_without_trailing_carriage_return_and_line_feed and warn_on_empty_field.
 *
 * All positions are indices into the one line being tokenized. `Tokenize` is the
 * specification of a record line; the method `UnpackRecord` follows the C code
 * step by step (cursor updates, size_t wrap-around, the backward scan) and is
 * proved to compute it.
 */
module Unpack {
  import opened Wrappers
  import opened Text

  const SINGLE_QUOTE: char := '\''

  /** The largest size_t: find_index_of_substring_in_string_beginning_from returns it as "not found". */
  const SIZE_MAX: nat := 0xFFFF_FFFF_FFFF_FFFF

  /** size_t addition of two size_t values, which wraps around modulo 2^64. */
  function AddSize(a: nat, b: nat): (r: nat)
    requires a <= SIZE_MAX && b <= SIZE_MAX
    ensures r <= SIZE_MAX
  {
    if a + b <= SIZE_MAX then a + b else a + b - (SIZE_MAX + 1)
  }

  /** AddSize is addition modulo 2^64; in particular `(size_t)-1 + 1 == 0` and `(size_t)-1 + 2 == 1`. */
  lemma AddSizeIsModular(a: nat, b: nat)
    requires a <= SIZE_MAX && b <= SIZE_MAX
    ensures AddSize(a, b) == (a + b) % (SIZE_MAX + 1)
    ensures AddSize(SIZE_MAX, 1) == 0 && AddSize(SIZE_MAX, 2) == 1
  {
  }

  /** The size_t the search function returns: the position found, or `(size_t)-1`. */
  function SizeOf(found: Option<nat>): nat
  {
    if found.Some? then found.value else SIZE_MAX
  }

  // ---------------------------------------------------------------------------
  // Logical line length

  /**
   * The length of a line without its terminator: the longest of "\r\n", "\n"
   * and "\r" that ends the line is not counted.
   */
  function LogicalLength(s: CString): (n: nat)
    ensures n <= |s| && |s| - n <= 2
  {
    if |s| >= 2 && s[|s| - 2] == '\r' && s[|s| - 1] == '\n' then |s| - 2
    else if |s| >= 1 && (s[|s| - 1] == '\n' || s[|s| - 1] == '\r') then |s| - 1
    else |s|
  }

  /**
   * What the logical length leaves out: a terminator "", "\n", "\r" or "\r\n",
   * nothing exactly when the line does not end in '\r' or '\n', and both
   * characters of a final "\r\n".
   */
  lemma LogicalLengthStripsTerminator(s: CString)
    ensures var n := LogicalLength(s);
      (s[n..] == "" || s[n..] == "\n" || s[n..] == "\r" || s[n..] == "\r\n") &&
      (n == |s| <==> s == [] || (s[|s| - 1] != '\n' && s[|s| - 1] != '\r')) &&
      (|s| >= 2 && s[|s| - 2..] == "\r\n" ==> n == |s| - 2) &&
      (forall k :: n <= k < |s| ==> s[k] == '\r' || s[k] == '\n')
  {
    var n := LogicalLength(s);
    if |s| >= 2 && s[|s| - 2] == '\r' && s[|s| - 1] == '\n' {
      assert s[n..] == "\r\n";
    } else if |s| >= 1 && (s[|s| - 1] == '\n' || s[|s| - 1] == '\r') {
      assert s[n..] == [s[|s| - 1]];
      if |s| >= 2 {
        assert s[|s| - 2..] == [s[|s| - 2], s[|s| - 1]];
      }
    } else {
      if |s| >= 2 {
        assert s[|s| - 2..] == [s[|s| - 2], s[|s| - 1]];
      }
    }
  }

  /** The doc comment's examples of the logical length. */
  lemma LogicalLengthExamples()
    ensures LogicalLength("123\r\n") == 3 && LogicalLength("123\n") == 3 && LogicalLength("123\r") == 3
    ensures LogicalLength("123") == 3 && LogicalLength("123\r\n\r\n") == 5
  {
  }

  /**
   * strlen_without_trailing_carriage_return_and_line_feed: drops one trailing
   * '\n', then one trailing '\r'. The C code reads `str[-1]` for the line "\n".
   */
  method StrlenWithoutTrailingCrLf(str: CString) returns (len: nat)
    requires str != "\n"
    ensures len == LogicalLength(str)
  {
    len := |str|;
    if len < 1 {
      return;
    }
    assert len == 1 ==> str == [str[0]];
    if str[len - 1] == '\n' {
      len := len - 1;
    }
    if str[len - 1] == '\r' {
      len := len - 1;
    }
  }

  // ---------------------------------------------------------------------------
  // Records and diagnostics

  /** The fields whose emptiness is reported. */
  datatype FieldName = Partition | Offset | Timestamp

  /** The warnings the tokenizer and unpack_record print. */
  datatype Diagnostic =
    | EmptyField(name: FieldName)   // warn_on_empty_field
    | UnexpectedQuotePosition       // the closing quote of a value is not near the end of the line
    | IncompleteRecord              // the record is not handed to the writer

  /** The five fields of a record line; `None` is a NULL pointer. */
  datatype Record = Record(
    partition: Option<CString>,
    offset: Option<CString>,
    timestamp: Option<CString>,
    key: Option<CString>,
    value: Option<CString>)

  /**
   * The outcome of tokenizing a line: the record with the warnings printed, or
   * the crash of `strlen(NULL)` when a leading comma is missing, with the
   * warnings printed before it.
   */
  datatype Tokens =
    | Tokens(record: Record, diagnostics: seq<Diagnostic>)
    | NullField(field: FieldName, diagnostics: seq<Diagnostic>)

  /**
   * warn_on_empty_field: one warning for a field of length 0; `None` is the
   * crash of `strlen` on a NULL field.
   */
  function WarnOnEmptyField(field: Option<CString>, name: FieldName): (r: Option<seq<Diagnostic>>)
    ensures r.None? <==> field.None?
    ensures r.Some? ==> (EmptyField(name) in r.value <==> field.value == [])
    ensures r.Some? ==> |r.value| <= 1 && forall d :: d in r.value ==> d == EmptyField(name)
  {
    match field
    case None => None
    case Some(text) => Some(if |text| < 1 then [EmptyField(name)] else [])
  }

  // ---------------------------------------------------------------------------
  // Key and value

  /** The key and the position where the value starts. */
  datatype KeyText = KeyText(key: Option<CString>, valueStart: nat)

  /**
   * The key starting at `start`: up to the first "'," when it starts with a
   * quote, up to the next comma otherwise. A missing delimiter gives a NULL key
   * and, through the size_t wrap-around of `(size_t)-1 + 2` and `(size_t)-1 + 1`,
   * a value starting at 1 or 0.
   */
  function KeyField(line: CString, start: nat): (r: KeyText)
    requires start <= |line|
    ensures r.valueStart <= |line|
  {
    if CharAt(line, start) == SINGLE_QUOTE then
      match FindIndex(line, "',", start)
      case Some(e) => KeyText(Slice(line, start + 1, e), e + 2)
      case None => KeyText(None, 1)
    else
      match FindIndex(line, ",", start)
      case Some(e) => KeyText(Some(line[start..e]), e + 1)
      case None => KeyText(None, 0)
  }

  /**
   * Where the backward scan for the closing quote of a value stops: the last
   * quote in `(start, end]`, or `start` when there is none.
   */
  function ScanBack(line: CString, start: nat, end: nat): (r: nat)
    requires end <= |line|
    ensures r <= end && (start <= end ==> start <= r)
    ensures start < r ==> CharAt(line, r) == SINGLE_QUOTE
    ensures forall k :: r < k <= end ==> CharAt(line, k) != SINGLE_QUOTE
    decreases end
  {
    if CharAt(line, end) == SINGLE_QUOTE || end <= start then end
    else ScanBack(line, start, end - 1)
  }

  /** The value and whether its closing quote lies suspiciously far from the end of the line. */
  datatype ValueText = ValueText(value: Option<CString>, misplacedQuote: bool)

  /**
   * The value starting at `start`, running to the logical end of the line;
   * when it starts with a quote, the text between it and the last quote.
   */
  function ValueField(line: CString, start: nat): (r: ValueText)
    requires start <= |line|
  {
    var lineLen := LogicalLength(line);
    if CharAt(line, start) == SINGLE_QUOTE then
      var end := ScanBack(line, start, lineLen);
      if start == end then ValueText(Slice(line, start, start + 1), false)
      else ValueText(Slice(line, start + 1, end), lineLen - end > 2)
    else
      ValueText(Slice(line, start, lineLen), false)
  }

  // ---------------------------------------------------------------------------
  // The tokenizer

  /**
   * The specification of tokenizing one record line: partition, offset and
   * timestamp end at the first three commas, then come the key and the value.
   */
  function Tokenize(line: CString): Tokens
    requires |line| < SIZE_MAX
  {
    match FindIndex(line, ",", 0)
    case None => NullField(Partition, [])
    case Some(c1) => AfterPartition(line, c1)
  }

  /** Tokenizing the rest of a line whose first comma is at `c1`. */
  function AfterPartition(line: CString, c1: nat): Tokens
    requires c1 < |line| < SIZE_MAX
  {
    var d1 := WarnOnEmptyField(Some(line[..c1]), Partition).value;
    match FindIndex(line, ",", c1 + 1)
    case None => NullField(Offset, d1)
    case Some(c2) => AfterOffset(line, c1, c2)
  }

  /** Tokenizing the rest of a line whose first two commas are at `c1` and `c2`. */
  function AfterOffset(line: CString, c1: nat, c2: nat): Tokens
    requires c1 < c2 < |line| < SIZE_MAX
  {
    var d2 := WarnOnEmptyField(Some(line[..c1]), Partition).value
      + WarnOnEmptyField(Some(line[c1 + 1..c2]), Offset).value;
    match FindIndex(line, ",", c2 + 1)
    case None => NullField(Timestamp, d2)
    case Some(c3) => TokensAfterCommas(line, c1, c2, c3)
  }

  /** The warnings for the three leading fields, in order, then the one for a misplaced closing quote. */
  function Warnings(partition: CString, offset: CString, timestamp: CString, misplacedQuote: bool): seq<Diagnostic>
  {
    WarnOnEmptyField(Some(partition), Partition).value
      + WarnOnEmptyField(Some(offset), Offset).value
      + WarnOnEmptyField(Some(timestamp), Timestamp).value
      + if misplacedQuote then [UnexpectedQuotePosition] else []
  }

  /** The record of a line whose first three commas are at `c1`, `c2` and `c3`. */
  function TokensAfterCommas(line: CString, c1: nat, c2: nat, c3: nat): Tokens
    requires c1 < c2 < c3 < |line| < SIZE_MAX
  {
    var partition := line[..c1];
    var offset := line[c1 + 1..c2];
    var timestamp := line[c2 + 1..c3];
    var k := KeyField(line, c3 + 1);
    var v := ValueField(line, k.valueStart);
    Tokens(Record(Some(partition), Some(offset), Some(timestamp), k.key, v.value),
           Warnings(partition, offset, timestamp, v.misplacedQuote))
  }

  /** A line with three commas is tokenized from the positions of its first three. */
  lemma TokenizeAtCommas(line: CString, c1: nat, c2: nat, c3: nat)
    requires |line| < SIZE_MAX
    requires FindIndex(line, ",", 0) == Some(c1)
    requires FindIndex(line, ",", c1 + 1) == Some(c2)
    requires FindIndex(line, ",", c2 + 1) == Some(c3)
    ensures c1 < c2 < c3 < |line| && Tokenize(line) == TokensAfterCommas(line, c1, c2, c3)
  {
  }

  /** The record assembled from the three leading fields, the key and the value. */
  lemma TokensFromParts(line: CString, c1: nat, c2: nat, c3: nat, k: KeyText, v: ValueText)
    requires c1 < c2 < c3 < |line| < SIZE_MAX
    requires k == KeyField(line, c3 + 1) && v == ValueField(line, k.valueStart)
    ensures TokensAfterCommas(line, c1, c2, c3) ==
      Tokens(Record(Some(line[..c1]), Some(line[c1 + 1..c2]), Some(line[c2 + 1..c3]), k.key, v.value),
             Warnings(line[..c1], line[c1 + 1..c2], line[c2 + 1..c3], v.misplacedQuote))
  {
  }

  /** What unpack_record does with a line. */
  datatype Unpacked =
    | Written(record: Record, diagnostics: seq<Diagnostic>)     // handed to write_record_file
    | Incomplete(record: Record, diagnostics: seq<Diagnostic>)  // reported and dropped
    | Crashed(field: FieldName, diagnostics: seq<Diagnostic>)   // strlen(NULL) in warn_on_empty_field

  /** The test unpack_record makes before writing: the four pointers are not NULL (empty strings pass). */
  predicate Writable(environment: Option<CString>, topic: Option<CString>, record: Record)
  {
    environment.Some? && topic.Some? && record.partition.Some? && record.offset.Some?
  }

  /** The specification of unpack_record. */
  function RecordOutcome(line: CString, environment: Option<CString>, topic: Option<CString>): Unpacked
    requires |line| < SIZE_MAX
  {
    match Tokenize(line)
    case NullField(field, ds) => Crashed(field, ds)
    case Tokens(record, ds) =>
      if Writable(environment, topic, record) then Written(record, ds)
      else Incomplete(record, ds + [IncompleteRecord])
  }

  /**
   * unpack_record: tokenizes the line, then hands the record to the writer when
   * the environment, the topic, the partition and the offset are all present.
   */
  method UnpackRecord(line: CString, environment: Option<CString>, topic: Option<CString>) returns (u: Unpacked)
    requires |line| < SIZE_MAX
    ensures u == RecordOutcome(line, environment, topic)
  {
    var tokens := TokenizeRecord(line);
    match tokens
    case NullField(field, diagnostics) =>
      u := Crashed(field, diagnostics);
    case Tokens(record, diagnostics) =>
      if environment.Some? && topic.Some? && record.partition.Some? && record.offset.Some? {
        u := Written(record, diagnostics);
      } else {
        u := Incomplete(record, diagnostics + [IncompleteRecord]);
      }
  }

  /**
   * The tokenizing part of unpack_record, which walks a cursor over the line
   * field by field; this first part takes the partition.
   */
  method TokenizeRecord(line: CString) returns (t: Tokens)
    requires |line| < SIZE_MAX
    ensures t == Tokenize(line)
  {
    var endIdx, partition := CommaField(line, 0);
    var warning := WarnOnEmptyField(partition, Partition);
    if warning.None? {
      return NullField(Partition, []);
    }
    t := TokenizeFromOffset(line, endIdx, partition.value, warning.value);
  }

  /** unpack_record after the partition, whose comma is at `c1`: takes the offset. */
  method TokenizeFromOffset(line: CString, c1: nat, partition: CString, diagnostics: seq<Diagnostic>) returns (t: Tokens)
    requires c1 < |line| < SIZE_MAX
    requires partition == line[..c1] && diagnostics == WarnOnEmptyField(Some(partition), Partition).value
    ensures t == AfterPartition(line, c1)
  {
    var startIdx := AddSize(c1, 1);
    var endIdx, offset := CommaField(line, startIdx);
    var warning := WarnOnEmptyField(offset, Offset);
    if warning.None? {
      return NullField(Offset, diagnostics);
    }
    t := TokenizeFromTimestamp(line, c1, endIdx, partition, offset.value, diagnostics + warning.value);
  }

  /** unpack_record after the offset, whose comma is at `c2`: takes the timestamp. */
  method TokenizeFromTimestamp(line: CString, c1: nat, c2: nat, partition: CString, offset: CString,
                               diagnostics: seq<Diagnostic>) returns (t: Tokens)
    requires c1 < c2 < |line| < SIZE_MAX
    requires partition == line[..c1] && offset == line[c1 + 1..c2]
    requires diagnostics == WarnOnEmptyField(Some(partition), Partition).value
                            + WarnOnEmptyField(Some(offset), Offset).value
    ensures t == AfterOffset(line, c1, c2)
  {
    var startIdx := AddSize(c2, 1);
    var endIdx, timestamp := CommaField(line, startIdx);
    var warning := WarnOnEmptyField(timestamp, Timestamp);
    if warning.None? {
      return NullField(Timestamp, diagnostics);
    }
    t := TokenizeFromKey(line, c1, c2, endIdx, partition, offset, timestamp.value, diagnostics + warning.value);
  }

  /** unpack_record after the timestamp, whose comma is at `c3`: takes the key and the value. */
  method TokenizeFromKey(line: CString, c1: nat, c2: nat, c3: nat, partition: CString, offset: CString,
                         timestamp: CString, diagnostics: seq<Diagnostic>) returns (t: Tokens)
    requires c1 < c2 < c3 < |line| < SIZE_MAX
    requires partition == line[..c1] && offset == line[c1 + 1..c2] && timestamp == line[c2 + 1..c3]
    requires diagnostics == WarnOnEmptyField(Some(partition), Partition).value
                            + WarnOnEmptyField(Some(offset), Offset).value
                            + WarnOnEmptyField(Some(timestamp), Timestamp).value
    ensures t == TokensAfterCommas(line, c1, c2, c3)
  {
    var startIdx := AddSize(c3, 1);
    var k := ExtractKey(line, startIdx);
    var v := ExtractValue(line, k.valueStart);
    var diags := diagnostics;
    if v.misplacedQuote {
      diags := diags + [UnexpectedQuotePosition];
    }
    TokensFromParts(line, c1, c2, c3, k, v);
    t := Tokens(Record(Some(partition), Some(offset), Some(timestamp), k.key, v.value), diags);
  }

  /** One of the three leading fields: search the next comma from `startIdx` and copy the text before it. */
  method CommaField(line: CString, startIdx: nat) returns (endIdx: nat, field: Option<CString>)
    requires |line| < SIZE_MAX
    ensures endIdx == SizeOf(FindIndex(line, ",", startIdx))
    ensures field == Slice(line, startIdx, endIdx)
  {
    var found := FindIndexOfSubstring(line, ",", startIdx);
    endIdx := SizeOf(found);
    field := Substr(line, startIdx, endIdx);
  }

  /** The key part of unpack_record: the text after the third comma, quoted or not. */
  method ExtractKey(line: CString, startIdx: nat) returns (k: KeyText)
    requires startIdx <= |line| < SIZE_MAX
    ensures k == KeyField(line, startIdx)
  {
    var fieldStartChar := CharAt(line, startIdx);
    var key: Option<CString>;
    var endIdx: nat;
    var nextStart: nat;
    if fieldStartChar == SINGLE_QUOTE {
      var found := FindIndexOfSubstring(line, "',", startIdx);
      endIdx := SizeOf(found);
      key := Substr(line, startIdx + 1, endIdx);
      nextStart := AddSize(endIdx, 2);
    } else {
      var found := FindIndexOfSubstring(line, ",", startIdx);
      endIdx := SizeOf(found);
      key := Substr(line, startIdx, endIdx);
      nextStart := AddSize(endIdx, 1);
    }
    k := KeyText(key, nextStart);
  }

  /** The value part of unpack_record, with the backward scan for the closing quote. */
  method ExtractValue(line: CString, startIdx: nat) returns (v: ValueText)
    requires startIdx <= |line|
    requires line != "\n"  // a record line holds commas
    ensures v == ValueField(line, startIdx)
  {
    var fieldStartChar := CharAt(line, startIdx);
    var lineLen := StrlenWithoutTrailingCrLf(line);
    var endIdx: nat := lineLen;
    var value: Option<CString>;
    var misplacedQuote := false;
    if fieldStartChar == SINGLE_QUOTE {
      while CharAt(line, endIdx) != SINGLE_QUOTE && endIdx > startIdx
        invariant endIdx <= lineLen
        invariant ScanBack(line, startIdx, endIdx) == ScanBack(line, startIdx, lineLen)
        decreases endIdx
      {
        endIdx := endIdx - 1;
      }
      if startIdx == endIdx {
        value := Substr(line, startIdx, startIdx + 1);
      } else {
        value := Substr(line, startIdx + 1, endIdx);
        misplacedQuote := lineLen - endIdx > 2;
      }
    } else {
      value := Substr(line, startIdx, endIdx);
    }
    v := ValueText(value, misplacedQuote);
  }
}
