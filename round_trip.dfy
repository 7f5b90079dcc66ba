/**
 * Record lines built from their fields are split back into those fields by
 * the tokenizer of src/unpack.c, and the fields of a line without quotes
 * rebuild the line up to its terminator.
 */
module RoundTrip {
  import opened Wrappers
  import opened Text
  import opened Unpack
  import opened TokenizerProperties

  /** The line endings the logical length leaves out. */
  predicate IsTerminator(term: string)
  {
    term == "" || term == "\n" || term == "\r" || term == "\r\n"
  }

  /** How a key or a value is written in a record line: as it is, or between quotes. */
  function Encode(text: CString, quoted: bool): CString
  {
    if quoted then [SINGLE_QUOTE] + text + [SINGLE_QUOTE] else text
  }

  /** A key that the tokenizer cuts out unchanged. */
  predicate KeyEncodable(k: CString, quoted: bool)
  {
    if quoted then forall j :: 0 <= j < |k| + 1 ==> !OccursAt([SINGLE_QUOTE] + k, "',", j)
    else ',' !in k && (k == [] || k[0] != SINGLE_QUOTE)
  }

  /** A value that the tokenizer cuts out unchanged. */
  predicate ValueEncodable(v: CString, quoted: bool)
  {
    quoted || v == [] || (v[0] != SINGLE_QUOTE && v[|v| - 1] != '\r' && v[|v| - 1] != '\n')
  }

  /** The record line with the given fields, before its terminator. */
  function RecordText(p: CString, o: CString, ts: CString, key: CString, value: CString): CString
  {
    p + "," + o + "," + ts + "," + key + "," + value
  }

  // ---------------------------------------------------------------------------
  // Helpers on positions

  /** A comma with none before it, from `from` on, is the one the search finds. */
  lemma CommaFoundAt(s: CString, from: nat, c: nat)
    requires from <= c < |s| && s[c] == ',' && ',' !in s[from..c]
    ensures FindIndex(s, ",", from) == Some(c)
  {
    OccursAtChar(s, ',', c);
    forall k | from <= k < c
      ensures !OccursAt(s, ",", k)
    {
      OccursAtChar(s, ',', k);
      assert s[k] == s[from..c][k - from];
    }
    FirstOccurrenceIs(s, ",", from, c);
  }

  /** The logical length of a line that ends in a terminator after a character that is not one. */
  lemma LogicalLengthOfTerminated(line: CString, body: CString, term: CString)
    requires line == body + term && IsTerminator(term)
    requires term == "\r\n" || term == "\r" || (body != [] && body[|body| - 1] != '\r' && body[|body| - 1] != '\n')
    ensures LogicalLength(line) == |body|
  {
  }

  // ---------------------------------------------------------------------------
  // Keys and values

  /** A plain key followed by its comma is cut out unchanged. */
  lemma PlainKeyOfEncoding(line: CString, start: nat, k: CString, rest: CString)
    requires start <= |line| && line[start..] == k + "," + rest
    requires ',' !in k && (k == [] || k[0] != SINGLE_QUOTE)
    ensures KeyField(line, start) == KeyText(Some(k), start + |k| + 1)
  {
    var e := start + |k|;
    assert line[start..e] == k by {
      assert line[start..e] == line[start..][..|k|];
    }
    assert line[e] == line[start..][|k|];
    CommaFoundAt(line, start, e);
    assert CharAt(line, start) != SINGLE_QUOTE by {
      assert line[start] == line[start..][0];
    }
  }

  /** The delimiter "'," does not occur in a quoted key before its closing quote. */
  lemma NoDelimiterInQuotedKey(line: CString, start: nat, k: CString, j: nat)
    requires start <= j < start + |k| + 1 <= |line| && line[start..start + |k| + 1] == [SINGLE_QUOTE] + k
    requires forall i :: 0 <= i < |k| + 1 ==> !OccursAt([SINGLE_QUOTE] + k, "',", i)
    requires start + |k| + 1 < |line| && line[start + |k| + 1] == SINGLE_QUOTE
    ensures !OccursAt(line, "',", j)
  {
    var w := [SINGLE_QUOTE] + k;
    OccursAtPair(line, SINGLE_QUOTE, ',', j);
    OccursAtPair(w, SINGLE_QUOTE, ',', j - start);
    assert line[j] == w[j - start];
    if j + 1 < start + |k| + 1 {
      assert line[j + 1] == w[j - start + 1];
    }
  }

  /** A quoted key followed by its comma is cut out unchanged when it holds no "',". */
  lemma QuotedKeyOfEncoding(line: CString, start: nat, k: CString, rest: CString)
    requires start <= |line| && line[start..] == [SINGLE_QUOTE] + k + [SINGLE_QUOTE] + "," + rest
    requires forall i :: 0 <= i < |k| + 1 ==> !OccursAt([SINGLE_QUOTE] + k, "',", i)
    ensures KeyField(line, start) == KeyText(Some(k), start + |k| + 3)
  {
    var e := start + |k| + 1;
    assert line[start..e] == [SINGLE_QUOTE] + k by {
      assert line[start..e] == line[start..][..|k| + 1];
    }
    assert line[e..e + 2] == "'," by {
      assert line[e..e + 2] == line[start..][|k| + 1..|k| + 3];
    }
    assert line[e] == line[e..e + 2][0];
    assert line[start] == line[start..e][0];
    forall j | start <= j < e
      ensures !OccursAt(line, "',", j)
    {
      NoDelimiterInQuotedKey(line, start, k, j);
    }
    FirstOccurrenceIs(line, "',", start, e);
    assert line[start + 1..e] == k by {
      assert line[start + 1..e] == line[start..e][1..];
    }
  }

  /** A key written by `Encode` and followed by its comma is cut out unchanged. */
  lemma KeyOfEncoding(line: CString, start: nat, k: CString, quoted: bool, rest: CString)
    requires start <= |line| && line[start..] == Encode(k, quoted) + "," + rest
    requires KeyEncodable(k, quoted)
    ensures KeyField(line, start) == KeyText(Some(k), start + |Encode(k, quoted)| + 1)
  {
    if quoted {
      QuotedKeyOfEncoding(line, start, k, rest);
    } else {
      PlainKeyOfEncoding(line, start, k, rest);
    }
  }

  /** A plain value followed by a terminator is cut out unchanged, with no warning. */
  lemma PlainValueOfEncoding(line: CString, start: nat, v: CString, term: CString)
    requires 0 < start <= |line| && line[start - 1] == ','
    requires line[start..] == v + term && IsTerminator(term)
    requires v == [] || (v[0] != SINGLE_QUOTE && v[|v| - 1] != '\r' && v[|v| - 1] != '\n')
    ensures ValueField(line, start) == ValueText(Some(v), false)
  {
    var end := start + |v|;
    assert line == line[..end] + term by {
      assert line[end..] == line[start..][|v|..];
    }
    assert line[start..end] == v by {
      assert line[start..end] == line[start..][..|v|];
    }
    assert line[end - 1] == (if v == [] then ',' else v[|v| - 1]);
    LogicalLengthOfTerminated(line, line[..end], term);
    assert CharAt(line, start) != SINGLE_QUOTE by {
      if v != [] {
        assert line[start] == v[0];
      } else if end < |line| {
        assert line[end] == term[0];
      }
    }
    PlainValue(line, start);
  }

  /** No quote follows the interior quote at `e` up to the end `end` of the logical line. */
  lemma NoQuoteAfter(line: CString, e: nat, b: CString, term: CString, j: nat)
    requires e + 1 + |b| <= |line| && line[e + 1..] == b + term && IsTerminator(term)
    requires SINGLE_QUOTE !in b && e < j <= e + 1 + |b|
    ensures CharAt(line, j) != SINGLE_QUOTE
  {
    if j < e + 1 + |b| {
      assert line[j] == line[e + 1..][j - e - 1] == b[j - e - 1];
    } else if j < |line| {
      assert line[j] == line[e + 1..][|b|] == term[0];
    }
  }

  /** The backward scan stops at the last quote before `end`. */
  lemma ScanBackStopsAt(line: CString, start: nat, end: nat, e: nat)
    requires start <= e <= end <= |line| && CharAt(line, e) == SINGLE_QUOTE
    requires forall j :: e < j <= end ==> CharAt(line, j) != SINGLE_QUOTE
    ensures ScanBack(line, start, end) == e
  {
  }

  /** A quoted value whose last quote in the logical line is at `e`. */
  lemma QuotedValueAt(line: CString, start: nat, e: nat)
    requires start < e < |line| && line[start] == SINGLE_QUOTE && line[e] == SINGLE_QUOTE
    requires e <= LogicalLength(line)
    requires forall j :: e < j <= LogicalLength(line) ==> CharAt(line, j) != SINGLE_QUOTE
    ensures ValueField(line, start) == ValueText(Some(line[start + 1..e]), LogicalLength(line) - e > 2)
  {
    ScanBackStopsAt(line, start, LogicalLength(line), e);
  }

  /** A suffix that is the concatenation `x + y` starts with `x`, then `y`. */
  lemma SuffixSplit(line: CString, start: nat, x: string, y: string)
    requires start <= |line| && line[start..] == x + y
    ensures start + |x| <= |line| && line[start..start + |x|] == x && line[start + |x|..] == y
  {
    assert line[start..start + |x|] == line[start..][..|x|];
    assert line[start + |x|..] == line[start..][|x|..];
  }

  /**
   * Where the quotes of a value `'a'b` followed by a terminator lie: the
   * logical line ends after `b`, the last quote in it is the one after `a`.
   */
  lemma InteriorQuoteSpan(line: CString, start: nat, a: CString, b: CString, term: CString) returns (e: nat)
    requires start <= |line| && line[start..] == [SINGLE_QUOTE] + a + [SINGLE_QUOTE] + b + term
    requires IsTerminator(term) && SINGLE_QUOTE !in b
    requires b == [] || (b[|b| - 1] != '\r' && b[|b| - 1] != '\n')
    ensures start < e < |line| && e == start + |a| + 1 && LogicalLength(line) == e + 1 + |b|
    ensures line[start] == SINGLE_QUOTE && line[e] == SINGLE_QUOTE && line[start + 1..e] == a
    ensures forall j :: e < j <= LogicalLength(line) ==> CharAt(line, j) != SINGLE_QUOTE
  {
    e := start + |a| + 1;
    var end := e + 1 + |b|;
    var w := [SINGLE_QUOTE] + a + [SINGLE_QUOTE] + b;
    SuffixSplit(line, start, w, term);
    var body := line[..end];
    assert line == body + term;
    assert line[e] == w[|a| + 1] && line[start] == w[0];
    assert line[start + 1..e] == w[1..|a| + 1] == a;
    assert body[end - 1] == w[|w| - 1];
    LogicalLengthOfTerminated(line, body, term);
    assert [SINGLE_QUOTE] + a + [SINGLE_QUOTE] + b + term == ([SINGLE_QUOTE] + a + [SINGLE_QUOTE]) + (b + term);
    SuffixSplit(line, start, [SINGLE_QUOTE] + a + [SINGLE_QUOTE], b + term);
    forall j | e < j <= end
      ensures CharAt(line, j) != SINGLE_QUOTE
    {
      NoQuoteAfter(line, e, b, term, j);
    }
  }

  /**
   * A quoted value that holds a quote of its own, `'a'b`, is cut at the last
   * quote: the value is `a`, and the warning fires exactly when at least two
   * characters follow that quote.
   */
  lemma InteriorQuoteValue(line: CString, start: nat, a: CString, b: CString, term: CString)
    requires start <= |line| && line[start..] == [SINGLE_QUOTE] + a + [SINGLE_QUOTE] + b + term
    requires IsTerminator(term) && SINGLE_QUOTE !in b
    requires b == [] || (b[|b| - 1] != '\r' && b[|b| - 1] != '\n')
    ensures ValueField(line, start) == ValueText(Some(a), |b| >= 2)
  {
    var e := InteriorQuoteSpan(line, start, a, b, term);
    QuotedValueAt(line, start, e);
  }

  /** A quoted value followed by a terminator is cut out unchanged, with no warning. */
  lemma QuotedValueOfEncoding(line: CString, start: nat, v: CString, term: CString)
    requires start <= |line|
    requires line[start..] == [SINGLE_QUOTE] + v + [SINGLE_QUOTE] + term && IsTerminator(term)
    ensures ValueField(line, start) == ValueText(Some(v), false)
  {
    assert [SINGLE_QUOTE] + v + [SINGLE_QUOTE] + term == [SINGLE_QUOTE] + v + [SINGLE_QUOTE] + [] + term;
    InteriorQuoteValue(line, start, v, [], term);
  }

  /** A value written by `Encode` and followed by a terminator is cut out unchanged, with no warning. */
  lemma ValueOfEncoding(line: CString, start: nat, v: CString, quoted: bool, term: CString)
    requires 0 < start <= |line| && line[start - 1] == ','
    requires line[start..] == Encode(v, quoted) + term && IsTerminator(term)
    requires ValueEncodable(v, quoted)
    ensures ValueField(line, start) == ValueText(Some(v), false)
  {
    if quoted {
      QuotedValueOfEncoding(line, start, v, term);
    } else {
      PlainValueOfEncoding(line, start, v, term);
    }
  }

  // ---------------------------------------------------------------------------
  // Whole records

  /** The line has its first three commas at `c1`, `c2` and `c3`, with the fields `p`, `o` and `ts` before them. */
  predicate FieldsSplitAt(line: CString, c1: nat, c2: nat, c3: nat, p: CString, o: CString, ts: CString)
  {
    c1 < c2 < c3 < |line| < SIZE_MAX && line[c1] == ',' && line[c2] == ',' && line[c3] == ',' &&
    line[..c1] == p && line[c1 + 1..c2] == o && line[c2 + 1..c3] == ts &&
    ',' !in p && ',' !in o && ',' !in ts
  }

  /** The key found at `start` and the value that follows it. */
  function KeyAndValue(line: CString, start: nat): (KeyText, ValueText)
    requires start <= |line|
  {
    var key := KeyField(line, start);
    (key, ValueField(line, key.valueStart))
  }

  /** The positions of the three leading commas of a line built from fields free of commas. */
  lemma LeadingSplit(line: CString, p: CString, o: CString, ts: CString, rest: CString)
    returns (c1: nat, c2: nat, c3: nat)
    requires line == p + "," + o + "," + ts + "," + rest && |line| < SIZE_MAX
    requires ',' !in p && ',' !in o && ',' !in ts
    ensures FieldsSplitAt(line, c1, c2, c3, p, o, ts) && line[c3 + 1..] == rest
  {
    c1, c2, c3 := |p|, |p| + 1 + |o|, |p| + 1 + |o| + 1 + |ts|;
  }

  /** A line is tokenized at three commas when no comma comes before each of them. */
  lemma TokenizeAtPositions(line: CString, c1: nat, c2: nat, c3: nat)
    requires c1 < c2 < c3 < |line| < SIZE_MAX
    requires line[c1] == ',' && line[c2] == ',' && line[c3] == ','
    requires ',' !in line[..c1] && ',' !in line[c1 + 1..c2] && ',' !in line[c2 + 1..c3]
    ensures Tokenize(line) == TokensAfterCommas(line, c1, c2, c3)
  {
    assert line[0..c1] == line[..c1];
    CommaFoundAt(line, 0, c1);
    CommaFoundAt(line, c1 + 1, c2);
    CommaFoundAt(line, c2 + 1, c3);
    TokenizeAtCommas(line, c1, c2, c3);
  }

  /** The comma between an encoded key and an encoded value. */
  lemma TrailingSplit(line: CString, start: nat, key: CString, value: CString, term: CString)
    requires start <= |line| && line[start..] == key + "," + value + term
    ensures start + |key| < |line| && line[start + |key|] == ','
    ensures line[start..] == key + "," + (value + term)
    ensures line[start + |key| + 1..] == value + term
  {
    assert line[start + |key|] == line[start..][|key|];
    assert line[start + |key| + 1..] == line[start..][|key| + 1..];
  }

  /** An encoded key and its comma are cut out unchanged; the value starts at `vs`. */
  lemma KeyThenValue(line: CString, start: nat, k: CString, keyQuoted: bool, rest: CString) returns (vs: nat)
    requires start <= |line| && line[start..] == Encode(k, keyQuoted) + "," + rest
    requires KeyEncodable(k, keyQuoted)
    ensures 0 < vs <= |line| && line[vs - 1] == ',' && line[vs..] == rest
    ensures KeyField(line, start) == KeyText(Some(k), vs)
  {
    var kenc := Encode(k, keyQuoted);
    vs := start + |kenc| + 1;
    assert line[vs - 1] == line[start..][|kenc|];
    assert line[vs..] == line[start..][|kenc| + 1..];
    KeyOfEncoding(line, start, k, keyQuoted, rest);
  }

  /** An encoded key, its comma and an encoded value are cut out unchanged. */
  lemma KeyValueOfEncoding(line: CString, start: nat, k: CString, keyQuoted: bool,
                           v: CString, valueQuoted: bool, term: CString) returns (vs: nat)
    requires start <= |line| && line[start..] == Encode(k, keyQuoted) + "," + (Encode(v, valueQuoted) + term)
    requires KeyEncodable(k, keyQuoted) && ValueEncodable(v, valueQuoted) && IsTerminator(term)
    ensures start <= |line| && KeyAndValue(line, start) == (KeyText(Some(k), vs), ValueText(Some(v), false))
  {
    vs := KeyThenValue(line, start, k, keyQuoted, Encode(v, valueQuoted) + term);
    ValueOfEncoding(line, vs, v, valueQuoted, term);
  }

  /** The tokens of a line whose fields have been located. */
  lemma TokensOfFields(line: CString, c1: nat, c2: nat, c3: nat, p: CString, o: CString, ts: CString,
                       start: nat, vs: nat, k: CString, v: CString, misplaced: bool)
    requires c1 < c2 < c3 < |line| < SIZE_MAX && start == c3 + 1
    requires line[..c1] == p && line[c1 + 1..c2] == o && line[c2 + 1..c3] == ts
    requires KeyAndValue(line, start) == (KeyText(Some(k), vs), ValueText(Some(v), misplaced))
    ensures TokensAfterCommas(line, c1, c2, c3)
      == Tokens(Record(Some(p), Some(o), Some(ts), Some(k), Some(v)), Warnings(p, o, ts, misplaced))
  {
    var key := KeyField(line, c3 + 1);
    TokensFromParts(line, c1, c2, c3, key, ValueField(line, key.valueStart));
  }

  /** The tokens of a line whose three leading commas, key and value have been located. */
  lemma TokenizeOfFields(line: CString, c1: nat, c2: nat, c3: nat, p: CString, o: CString, ts: CString,
                         start: nat, vs: nat, k: CString, v: CString, misplaced: bool)
    requires FieldsSplitAt(line, c1, c2, c3, p, o, ts) && start == c3 + 1
    requires KeyAndValue(line, start) == (KeyText(Some(k), vs), ValueText(Some(v), misplaced))
    ensures Tokenize(line)
      == Tokens(Record(Some(p), Some(o), Some(ts), Some(k), Some(v)), Warnings(p, o, ts, misplaced))
  {
    TokenizeAtPositions(line, c1, c2, c3);
    TokensOfFields(line, c1, c2, c3, p, o, ts, start, vs, k, v, misplaced);
  }

  /** The tokens of a line whose leading fields have been located, followed by an encoded key and value. */
  lemma TokenizeOfEncodedFields(line: CString, c1: nat, c2: nat, c3: nat, p: CString, o: CString, ts: CString,
                                k: CString, keyQuoted: bool, v: CString, valueQuoted: bool, term: CString)
    requires FieldsSplitAt(line, c1, c2, c3, p, o, ts)
    requires line[c3 + 1..] == Encode(k, keyQuoted) + "," + (Encode(v, valueQuoted) + term)
    requires KeyEncodable(k, keyQuoted) && ValueEncodable(v, valueQuoted) && IsTerminator(term)
    ensures Tokenize(line)
      == Tokens(Record(Some(p), Some(o), Some(ts), Some(k), Some(v)), Warnings(p, o, ts, false))
  {
    var start := c3 + 1;
    var vs := KeyValueOfEncoding(line, start, k, keyQuoted, v, valueQuoted, term);
    TokenizeOfFields(line, c1, c2, c3, p, o, ts, start, vs, k, v, false);
  }

  /**
   * Every record line written from its fields, with leading fields free of
   * commas, a key and a value `KeyEncodable` and `ValueEncodable` and any line
   * ending, is tokenized into exactly those fields, warning only about the
   * empty leading fields.
   */
  lemma RecordRoundTrip(p: CString, o: CString, ts: CString, k: CString, keyQuoted: bool,
                        v: CString, valueQuoted: bool, term: CString)
    requires ',' !in p && ',' !in o && ',' !in ts
    requires KeyEncodable(k, keyQuoted) && ValueEncodable(v, valueQuoted) && IsTerminator(term)
    requires |RecordText(p, o, ts, Encode(k, keyQuoted), Encode(v, valueQuoted)) + term| < SIZE_MAX
    ensures Tokenize(RecordText(p, o, ts, Encode(k, keyQuoted), Encode(v, valueQuoted)) + term)
      == Tokens(Record(Some(p), Some(o), Some(ts), Some(k), Some(v)), Warnings(p, o, ts, false))
  {
    var rest := Encode(k, keyQuoted) + "," + (Encode(v, valueQuoted) + term);
    var line := RecordText(p, o, ts, Encode(k, keyQuoted), Encode(v, valueQuoted)) + term;
    assert line == p + "," + o + "," + ts + "," + rest;
    var c1, c2, c3 := LeadingSplit(line, p, o, ts, rest);
    TokenizeOfEncodedFields(line, c1, c2, c3, p, o, ts, k, keyQuoted, v, valueQuoted, term);
  }

  // ---------------------------------------------------------------------------
  // Quoted values the scan cuts short

  /**
   * A value that opens with a quote and has no quote after it is that quote
   * alone, whatever follows it.
   */
  lemma LoneQuoteValue(line: CString, start: nat)
    requires start <= |line| && CharAt(line, start) == SINGLE_QUOTE
    requires forall j :: start < j < |line| ==> line[j] != SINGLE_QUOTE
    ensures ValueField(line, start) == ValueText(Some([SINGLE_QUOTE]), false)
  {
    QuoteWithinLogicalLine(line, start);
    ScanBackStopsAt(line, start, LogicalLength(line), start);
    assert line[start..start + 1] == [line[start]];
  }

  /** The characters after the lone quote at `start` are `b` and the terminator: none of them is a quote. */
  lemma NoQuoteAfterLoneQuote(line: CString, start: nat, b: CString, term: CString)
    requires start < |line| && line[start + 1..] == b + term && IsTerminator(term) && SINGLE_QUOTE !in b
    ensures forall j :: start < j < |line| ==> line[j] != SINGLE_QUOTE
  {
    forall j | start < j < |line|
      ensures line[j] != SINGLE_QUOTE
    {
      assert line[j] == line[start + 1..][j - start - 1] == (b + term)[j - start - 1];
    }
  }

  /** An encoded key, its comma and a quoted value `'a'b` cut at its interior quote. */
  lemma InteriorQuoteKeyValue(line: CString, start: nat, k: CString, keyQuoted: bool,
                              a: CString, b: CString, term: CString) returns (vs: nat)
    requires start <= |line|
    requires line[start..] == Encode(k, keyQuoted) + "," + ([SINGLE_QUOTE] + a + [SINGLE_QUOTE] + b + term)
    requires KeyEncodable(k, keyQuoted) && IsTerminator(term) && SINGLE_QUOTE !in b
    requires b == [] || (b[|b| - 1] != '\r' && b[|b| - 1] != '\n')
    ensures start <= |line| && KeyAndValue(line, start) == (KeyText(Some(k), vs), ValueText(Some(a), |b| >= 2))
  {
    vs := KeyThenValue(line, start, k, keyQuoted, [SINGLE_QUOTE] + a + [SINGLE_QUOTE] + b + term);
    InteriorQuoteValue(line, vs, a, b, term);
  }

  /** A value `'b` that opens with its only quote is that quote alone. */
  lemma LoneQuoteAt(line: CString, vs: nat, b: CString, term: CString)
    requires vs <= |line| && line[vs..] == [SINGLE_QUOTE] + b + term
    requires IsTerminator(term) && SINGLE_QUOTE !in b
    ensures ValueField(line, vs) == ValueText(Some([SINGLE_QUOTE]), false)
  {
    assert line[vs] == line[vs..][0];
    assert line[vs + 1..] == b + term by {
      assert line[vs + 1..] == line[vs..][1..];
    }
    NoQuoteAfterLoneQuote(line, vs, b, term);
    LoneQuoteValue(line, vs);
  }

  /** An encoded key, its comma and a value `'b` that opens with its only quote. */
  lemma LoneQuoteKeyValue(line: CString, start: nat, k: CString, keyQuoted: bool, b: CString, term: CString)
    returns (vs: nat)
    requires start <= |line|
    requires line[start..] == Encode(k, keyQuoted) + "," + ([SINGLE_QUOTE] + b + term)
    requires KeyEncodable(k, keyQuoted) && IsTerminator(term) && SINGLE_QUOTE !in b
    ensures start <= |line| && KeyAndValue(line, start) == (KeyText(Some(k), vs), ValueText(Some([SINGLE_QUOTE]), false))
  {
    vs := KeyThenValue(line, start, k, keyQuoted, [SINGLE_QUOTE] + b + term);
    LoneQuoteAt(line, vs, b, term);
  }

  /** The tokens of a line whose leading fields have been located, followed by a key and a value `'a'b`. */
  lemma TokenizeOfInteriorQuote(line: CString, c1: nat, c2: nat, c3: nat, p: CString, o: CString, ts: CString,
                                k: CString, keyQuoted: bool, a: CString, b: CString, term: CString)
    requires FieldsSplitAt(line, c1, c2, c3, p, o, ts)
    requires line[c3 + 1..] == Encode(k, keyQuoted) + "," + ([SINGLE_QUOTE] + a + [SINGLE_QUOTE] + b + term)
    requires KeyEncodable(k, keyQuoted) && IsTerminator(term) && SINGLE_QUOTE !in b
    requires b == [] || (b[|b| - 1] != '\r' && b[|b| - 1] != '\n')
    ensures Tokenize(line)
      == Tokens(Record(Some(p), Some(o), Some(ts), Some(k), Some(a)), Warnings(p, o, ts, |b| >= 2))
  {
    var start := c3 + 1;
    var vs := InteriorQuoteKeyValue(line, start, k, keyQuoted, a, b, term);
    TokenizeOfFields(line, c1, c2, c3, p, o, ts, start, vs, k, a, |b| >= 2);
  }

  /** The tokens of a line whose leading fields have been located, followed by a key and a value `'b`. */
  lemma TokenizeOfLoneQuote(line: CString, c1: nat, c2: nat, c3: nat, p: CString, o: CString, ts: CString,
                            k: CString, keyQuoted: bool, b: CString, term: CString)
    requires FieldsSplitAt(line, c1, c2, c3, p, o, ts)
    requires line[c3 + 1..] == Encode(k, keyQuoted) + "," + ([SINGLE_QUOTE] + b + term)
    requires KeyEncodable(k, keyQuoted) && IsTerminator(term) && SINGLE_QUOTE !in b
    ensures Tokenize(line)
      == Tokens(Record(Some(p), Some(o), Some(ts), Some(k), Some([SINGLE_QUOTE])), Warnings(p, o, ts, false))
  {
    var start := c3 + 1;
    var vs := LoneQuoteKeyValue(line, start, k, keyQuoted, b, term);
    TokenizeOfFields(line, c1, c2, c3, p, o, ts, start, vs, k, [SINGLE_QUOTE], false);
  }

  /**
   * The known truncation: a quoted value `'a'b` whose tail `b` holds no quote
   * is cut to `a` at its last quote, and the misplaced-quote warning is added
   * exactly when `b` has at least two characters (as in
   * `'{"name":"pam's blog"}`, which gives `{"name":"pam`).
   */
  lemma QuotedValueCutAtLastQuote(p: CString, o: CString, ts: CString, k: CString, keyQuoted: bool,
                                  a: CString, b: CString, term: CString)
    requires ',' !in p && ',' !in o && ',' !in ts
    requires KeyEncodable(k, keyQuoted) && IsTerminator(term) && SINGLE_QUOTE !in b
    requires b == [] || (b[|b| - 1] != '\r' && b[|b| - 1] != '\n')
    requires |RecordText(p, o, ts, Encode(k, keyQuoted), [SINGLE_QUOTE] + a + [SINGLE_QUOTE] + b) + term| < SIZE_MAX
    ensures Tokenize(RecordText(p, o, ts, Encode(k, keyQuoted), [SINGLE_QUOTE] + a + [SINGLE_QUOTE] + b) + term)
      == Tokens(Record(Some(p), Some(o), Some(ts), Some(k), Some(a)), Warnings(p, o, ts, |b| >= 2))
  {
    var w := [SINGLE_QUOTE] + a + [SINGLE_QUOTE] + b;
    var rest := Encode(k, keyQuoted) + "," + (w + term);
    var line := RecordText(p, o, ts, Encode(k, keyQuoted), w) + term;
    assert line == p + "," + o + "," + ts + "," + rest;
    var c1, c2, c3 := LeadingSplit(line, p, o, ts, rest);
    TokenizeOfInteriorQuote(line, c1, c2, c3, p, o, ts, k, keyQuoted, a, b, term);
  }

  /**
   * A value that opens with a quote and has no other quote, `'b`, is the
   * quote alone: the rest of the value is lost (as in `1,2,3,k,'`, which gives
   * the value `'`).
   */
  lemma OpeningQuoteOnly(p: CString, o: CString, ts: CString, k: CString, keyQuoted: bool,
                         b: CString, term: CString)
    requires ',' !in p && ',' !in o && ',' !in ts
    requires KeyEncodable(k, keyQuoted) && IsTerminator(term) && SINGLE_QUOTE !in b
    requires |RecordText(p, o, ts, Encode(k, keyQuoted), [SINGLE_QUOTE] + b) + term| < SIZE_MAX
    ensures Tokenize(RecordText(p, o, ts, Encode(k, keyQuoted), [SINGLE_QUOTE] + b) + term)
      == Tokens(Record(Some(p), Some(o), Some(ts), Some(k), Some([SINGLE_QUOTE])), Warnings(p, o, ts, false))
  {
    var w := [SINGLE_QUOTE] + b;
    var rest := Encode(k, keyQuoted) + "," + (w + term);
    var line := RecordText(p, o, ts, Encode(k, keyQuoted), w) + term;
    assert line == p + "," + o + "," + ts + "," + rest;
    var c1, c2, c3 := LeadingSplit(line, p, o, ts, rest);
    TokenizeOfLoneQuote(line, c1, c2, c3, p, o, ts, k, keyQuoted, b, term);
  }

  // ---------------------------------------------------------------------------
  // Rebuilding a line

  /** A comma never lies in the terminator that the logical length leaves out. */
  lemma CommaWithinLogicalLine(line: CString, c: nat)
    requires c < |line| && line[c] == ','
    ensures c < LogicalLength(line)
  {
    LogicalLengthStripsTerminator(line);
  }

  /** A line cut at four commas is its five pieces joined by commas. */
  lemma JoinedAtCommas(line: CString, c1: nat, c2: nat, c3: nat, e: nat, n: nat, r: Record)
    requires c1 < c2 < c3 < e < n <= |line|
    requires line[c1] == ',' && line[c2] == ',' && line[c3] == ',' && line[e] == ','
    requires r == Record(Some(line[..c1]), Some(line[c1 + 1..c2]), Some(line[c2 + 1..c3]),
                         Some(line[c3 + 1..e]), Some(line[e + 1..n]))
    ensures line[..n] == RecordText(r.partition.value, r.offset.value, r.timestamp.value, r.key.value, r.value.value)
  {
    CommaSeparatedPrefix(line, c1, c2, c3);
    assert line[..n] == line[..c3 + 1] + line[c3 + 1..e] + "," + line[e + 1..n];
  }

  /** The key and value of a line whose key, after the third comma at `c3`, and value, after the fourth comma at `e`, do not start with a quote. */
  lemma PlainKeyValueAt(line: CString, c3: nat, e: nat)
    requires c3 < |line| && CharAt(line, c3 + 1) != SINGLE_QUOTE
    requires FindIndex(line, ",", c3 + 1) == Some(e)
    requires CharAt(line, e + 1) != SINGLE_QUOTE
    ensures e < LogicalLength(line)
    ensures KeyField(line, c3 + 1) == KeyText(Some(line[c3 + 1..e]), e + 1)
    ensures ValueField(line, e + 1) == ValueText(Some(line[e + 1..LogicalLength(line)]), false)
  {
    PlainKey(line, c3 + 1);
    CommaWithinLogicalLine(line, e);
    PlainValue(line, e + 1);
  }

  /** The record of a line whose key and value do not start with a quote, cut at its first four commas. */
  lemma PlainRecordAt(line: CString, c1: nat, c2: nat, c3: nat, e: nat)
    requires |line| < SIZE_MAX
    requires FindIndex(line, ",", 0) == Some(c1)
    requires FindIndex(line, ",", c1 + 1) == Some(c2)
    requires FindIndex(line, ",", c2 + 1) == Some(c3)
    requires FindIndex(line, ",", c3 + 1) == Some(e)
    requires CharAt(line, c3 + 1) != SINGLE_QUOTE && CharAt(line, e + 1) != SINGLE_QUOTE
    ensures c1 < c2 < c3 < e < LogicalLength(line)
    ensures Tokenize(line).Tokens?
    ensures Tokenize(line).record
      == Record(Some(line[..c1]), Some(line[c1 + 1..c2]), Some(line[c2 + 1..c3]),
                Some(line[c3 + 1..e]), Some(line[e + 1..LogicalLength(line)]))
  {
    TokenizeAtCommas(line, c1, c2, c3);
    PlainKeyValueAt(line, c3, e);
    TokensFromParts(line, c1, c2, c3, KeyField(line, c3 + 1), ValueField(line, e + 1));
  }

  /** The characters the four comma searches stop at. */
  lemma CommasAt(line: CString, c1: nat, c2: nat, c3: nat, e: nat)
    requires FindIndex(line, ",", 0) == Some(c1)
    requires FindIndex(line, ",", c1 + 1) == Some(c2)
    requires FindIndex(line, ",", c2 + 1) == Some(c3)
    requires FindIndex(line, ",", c3 + 1) == Some(e)
    ensures e < |line| && line[c1] == ',' && line[c2] == ',' && line[c3] == ',' && line[e] == ','
  {
    FoundComma(line, 0, c1);
    FoundComma(line, c1 + 1, c2);
    FoundComma(line, c2 + 1, c3);
    FoundComma(line, c3 + 1, e);
  }

  /**
   * A line with at least four commas, whose key and value do not start with a
   * quote, is the fields of its record joined by commas, up to its terminator.
   * Quotes elsewhere in the line, inside the key or the value, change nothing.
   */
  lemma PlainRecordJoins(line: CString, c1: nat, c2: nat, c3: nat, e: nat)
    requires |line| < SIZE_MAX
    requires FindIndex(line, ",", 0) == Some(c1)
    requires FindIndex(line, ",", c1 + 1) == Some(c2)
    requires FindIndex(line, ",", c2 + 1) == Some(c3)
    requires FindIndex(line, ",", c3 + 1) == Some(e)
    requires CharAt(line, c3 + 1) != SINGLE_QUOTE && CharAt(line, e + 1) != SINGLE_QUOTE
    ensures var t := Tokenize(line);
      t.Tokens? && t.record.partition.Some? && t.record.offset.Some? && t.record.timestamp.Some? &&
      t.record.key.Some? && t.record.value.Some? &&
      line[..LogicalLength(line)] == RecordText(t.record.partition.value, t.record.offset.value,
                                                t.record.timestamp.value, t.record.key.value, t.record.value.value)
  {
    PlainRecordAt(line, c1, c2, c3, e);
    CommasAt(line, c1, c2, c3, e);
    JoinedAtCommas(line, c1, c2, c3, e, LogicalLength(line), Tokenize(line).record);
  }

  /** A line with exactly three commas, whose key does not start with a quote, has a NULL key. */
  lemma PlainRecordWithoutKey(line: CString, c1: nat, c2: nat, c3: nat)
    requires |line| < SIZE_MAX
    requires FindIndex(line, ",", 0) == Some(c1)
    requires FindIndex(line, ",", c1 + 1) == Some(c2)
    requires FindIndex(line, ",", c2 + 1) == Some(c3)
    requires FindIndex(line, ",", c3 + 1).None?
    requires CharAt(line, c3 + 1) != SINGLE_QUOTE
    ensures Tokenize(line).Tokens? && Tokenize(line).record.key.None?
  {
    TokenizeAtCommas(line, c1, c2, c3);
    PlainKey(line, c3 + 1);
    TokensFromParts(line, c1, c2, c3, KeyField(line, c3 + 1), ValueField(line, 0));
  }

  /** The next comma of a text that has one, and the commas left after it. */
  lemma NextComma(s: CString, from: nat) returns (c: nat)
    requires from <= |s| && CommaCount(s[from..]) >= 1
    ensures FindIndex(s, ",", from) == Some(c) && c < |s|
    ensures CommaCount(s[c + 1..]) == CommaCount(s[from..]) - 1
  {
    MissingComma(s, from);
    c := FindIndex(s, ",", from).value;
    CommasAfterFound(s, from, c);
  }

  /** With at least three commas, a fourth one is found exactly when there are at least four. */
  lemma FourthComma(line: CString) returns (c1: nat, c2: nat, c3: nat)
    requires CommaCount(line) >= 3
    ensures FindIndex(line, ",", 0) == Some(c1)
    ensures FindIndex(line, ",", c1 + 1) == Some(c2)
    ensures FindIndex(line, ",", c2 + 1) == Some(c3)
    ensures c3 < |line| && (FindIndex(line, ",", c3 + 1).Some? <==> CommaCount(line) >= 4)
  {
    assert line[0..] == line;
    c1 := NextComma(line, 0);
    c2 := NextComma(line, c1 + 1);
    c3 := NextComma(line, c2 + 1);
    MissingComma(line, c3 + 1);
  }

  /**
   * A record line without quotes: its key is found exactly when it has a
   * fourth comma, and then the five fields, joined by commas, give back the
   * line up to its terminator. `PlainRecordJoins` states the rebuilding for
   * every line whose key and value do not start with a quote.
   */
  lemma PlainRecordRebuildsLine(line: CString)
    requires |line| < SIZE_MAX && SINGLE_QUOTE !in line && CommaCount(line) >= 3
    ensures var t := Tokenize(line);
      t.Tokens? && (t.record.key.Some? <==> CommaCount(line) >= 4) &&
      (CommaCount(line) >= 4 ==>
         t.record.value.Some? &&
         line[..LogicalLength(line)] == RecordText(t.record.partition.value, t.record.offset.value,
                                                   t.record.timestamp.value, t.record.key.value, t.record.value.value))
  {
    var c1, c2, c3 := FourthComma(line);
    assert CharAt(line, c3 + 1) != SINGLE_QUOTE;
    match FindIndex(line, ",", c3 + 1)
    case Some(e) =>
      assert CharAt(line, e + 1) != SINGLE_QUOTE;
      PlainRecordJoins(line, c1, c2, c3, e);
    case None =>
      PlainRecordWithoutKey(line, c1, c2, c3);
  }
}
