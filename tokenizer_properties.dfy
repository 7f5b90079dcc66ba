/**
 * What the record tokenizer of src/unpack.c promises about a line: where the
 * leading fields come from, when it crashes, how plain and quoted keys and
 * values are cut out, and that a record line built from its fields is split
 * back into them.
 */
module TokenizerProperties {
  import opened Wrappers
  import opened Text
  import opened Unpack

  // ---------------------------------------------------------------------------
  // Commas

  /** A one-character needle occurs exactly where that character is. */
  lemma OccursAtChar(s: string, c: char, k: nat)
    ensures OccursAt(s, [c], k) <==> k < |s| && s[k] == c
  {
    if k < |s| {
      assert s[k..k + 1] == [s[k]];
    }
  }

  /** The number of commas in a string. */
  function CommaCount(s: string): nat
  {
    multiset(s)[',']
  }

  /** The comma found from `from` is a comma, and there is none before it. */
  lemma FoundComma(s: CString, from: nat, c: nat)
    requires FindIndex(s, ",", from) == Some(c)
    ensures from <= c < |s| && s[c] == ','
    ensures ',' !in s[from..c]
  {
    FindIndexIsFirst(s, ",", from);
    OccursAtChar(s, ',', c);
    forall k | from <= k < c
      ensures s[k] != ','
    {
      OccursAtChar(s, ',', k);
    }
  }

  /** Past the comma found from `from`, one comma fewer is left. */
  lemma CommasAfterFound(s: CString, from: nat, c: nat)
    requires FindIndex(s, ",", from) == Some(c)
    ensures c < |s| && CommaCount(s[from..]) == CommaCount(s[c + 1..]) + 1
  {
    FoundComma(s, from, c);
    assert s[from..] == s[from..c] + [s[c]] + s[c + 1..];
  }

  /** No comma is found from `from` exactly when none is left there. */
  lemma MissingComma(s: CString, from: nat)
    requires from <= |s|
    ensures FindIndex(s, ",", from).None? <==> CommaCount(s[from..]) == 0
  {
    FindIndexIsFirst(s, ",", from);
    if FindIndex(s, ",", from).None? {
      forall k | from <= k < |s|
        ensures s[k] != ','
      {
        OccursAtChar(s, ',', k);
      }
      assert ',' !in s[from..];
    } else {
      CommasAfterFound(s, from, FindIndex(s, ",", from).value);
    }
  }

  /** A tokenized line has its first comma, and the rest is tokenized after it. */
  lemma PartitionComma(line: CString)
    requires |line| < SIZE_MAX && Tokenize(line).Tokens?
    ensures FindIndex(line, ",", 0).Some?
    ensures Tokenize(line) == AfterPartition(line, FindIndex(line, ",", 0).value)
  {
  }

  /** A line tokenized after its first comma has a second one. */
  lemma OffsetComma(line: CString, c1: nat)
    requires c1 < |line| < SIZE_MAX && AfterPartition(line, c1).Tokens?
    ensures FindIndex(line, ",", c1 + 1).Some?
    ensures AfterPartition(line, c1) == AfterOffset(line, c1, FindIndex(line, ",", c1 + 1).value)
  {
  }

  /** A line tokenized after its second comma has a third one. */
  lemma TimestampComma(line: CString, c1: nat, c2: nat)
    requires c1 < c2 < |line| < SIZE_MAX && AfterOffset(line, c1, c2).Tokens?
    ensures FindIndex(line, ",", c2 + 1).Some?
    ensures AfterOffset(line, c1, c2) == TokensAfterCommas(line, c1, c2, FindIndex(line, ",", c2 + 1).value)
  {
  }

  /** A tokenized line has three commas, and its leading fields end at the first three. */
  lemma LeadingCommas(line: CString) returns (c1: nat, c2: nat, c3: nat)
    requires |line| < SIZE_MAX && Tokenize(line).Tokens?
    ensures FindIndex(line, ",", 0) == Some(c1)
    ensures FindIndex(line, ",", c1 + 1) == Some(c2)
    ensures FindIndex(line, ",", c2 + 1) == Some(c3)
    ensures c1 < c2 < c3 < |line|
  {
    PartitionComma(line);
    c1 := FindIndex(line, ",", 0).value;
    OffsetComma(line, c1);
    c2 := FindIndex(line, ",", c1 + 1).value;
    TimestampComma(line, c1, c2);
    c3 := FindIndex(line, ",", c2 + 1).value;
  }

  /** Which search for a comma fails decides the field unpack_record crashes on. */
  lemma CrashField(line: CString)
    requires |line| < SIZE_MAX
    ensures var f1 := FindIndex(line, ",", 0);
      (f1.None? ==> Tokenize(line) == NullField(Partition, [])) &&
      (f1.Some? ==>
         (f1.value < |line| &&
          var f2 := FindIndex(line, ",", f1.value + 1);
          (f2.None? ==> Tokenize(line).NullField? && Tokenize(line).field == Offset) &&
          (f2.Some? ==>
             (f1.value < f2.value < |line| &&
              var f3 := FindIndex(line, ",", f2.value + 1);
              (f3.None? ==> Tokenize(line).NullField? && Tokenize(line).field == Timestamp) &&
              (f3.Some? ==> Tokenize(line).Tokens?)))))
  {
  }

  /** After the comma found from `from`, the next search fails exactly when it was the last comma. */
  lemma NextCommaMissing(s: CString, from: nat, c: nat)
    requires FindIndex(s, ",", from) == Some(c)
    ensures c < |s|
    ensures FindIndex(s, ",", c + 1).None? <==> CommaCount(s[from..]) == 1
  {
    CommasAfterFound(s, from, c);
    MissingComma(s, c + 1);
  }

  /** How many of the three comma searches succeed, by the number of commas in the line. */
  lemma CommaSearches(line: CString)
    ensures var f1 := FindIndex(line, ",", 0);
      (f1.None? <==> CommaCount(line) == 0) &&
      (f1.Some? ==>
         (f1.value < |line| &&
          var f2 := FindIndex(line, ",", f1.value + 1);
          (f2.None? <==> CommaCount(line) == 1) &&
          (f2.Some? ==>
             (f2.value < |line| &&
              var f3 := FindIndex(line, ",", f2.value + 1);
              (f3.None? <==> CommaCount(line) == 2)))))
  {
    assert line[0..] == line;
    MissingComma(line, 0);
    if FindIndex(line, ",", 0).Some? {
      var c1 := FindIndex(line, ",", 0).value;
      NextCommaMissing(line, 0, c1);
      CommasAfterFound(line, 0, c1);
      if FindIndex(line, ",", c1 + 1).Some? {
        var c2 := FindIndex(line, ",", c1 + 1).value;
        NextCommaMissing(line, c1 + 1, c2);
        CommasAfterFound(line, c1 + 1, c2);
      }
    }
  }

  /**
   * unpack_record crashes exactly when the line has fewer than three commas,
   * on the partition with none, on the offset with one and on the timestamp
   * with two.
   */
  lemma CrashIffFewerThanThreeCommas(line: CString)
    requires |line| < SIZE_MAX
    ensures Tokenize(line).NullField? <==> CommaCount(line) < 3
    ensures Tokenize(line) == NullField(Partition, []) <==> CommaCount(line) == 0
    ensures Tokenize(line).NullField? && Tokenize(line).field == Offset <==> CommaCount(line) == 1
    ensures Tokenize(line).NullField? && Tokenize(line).field == Timestamp <==> CommaCount(line) == 2
  {
    CommaSearches(line);
    CrashField(line);
  }

  // ---------------------------------------------------------------------------
  // Leading fields

  /** The warnings of the three leading fields and of the value: each field is reported exactly when empty. */
  lemma LeadingDiagnostics(p: CString, o: CString, ts: CString, misplacedQuote: bool)
    ensures var d := Warnings(p, o, ts, misplacedQuote);
      (EmptyField(Partition) in d <==> p == []) &&
      (EmptyField(Offset) in d <==> o == []) &&
      (EmptyField(Timestamp) in d <==> ts == []) &&
      (UnexpectedQuotePosition in d <==> misplacedQuote)
  {
  }

  /** The leading fields of a tokenized line, in terms of its tokens. */
  predicate LeadingFieldsFit(line: CString, t: Tokens)
  {
    t.Tokens? && t.record.partition.Some? && t.record.offset.Some? && t.record.timestamp.Some? &&
    var p, o, ts := t.record.partition.value, t.record.offset.value, t.record.timestamp.value;
    var lead := p + "," + o + "," + ts + ",";
    |lead| <= |line| && line[..|lead|] == lead &&
    ',' !in p && ',' !in o && ',' !in ts &&
    (EmptyField(Partition) in t.diagnostics <==> p == []) &&
    (EmptyField(Offset) in t.diagnostics <==> o == []) &&
    (EmptyField(Timestamp) in t.diagnostics <==> ts == [])
  }

  /** The leading fields of the record cut at the first three commas `c1`, `c2` and `c3`. */
  lemma LeadingFieldsAt(line: CString, c1: nat, c2: nat, c3: nat)
    requires |line| < SIZE_MAX
    requires FindIndex(line, ",", 0) == Some(c1)
    requires FindIndex(line, ",", c1 + 1) == Some(c2)
    requires FindIndex(line, ",", c2 + 1) == Some(c3)
    requires c1 < c2 < c3 < |line|
    ensures LeadingFieldsFit(line, TokensAfterCommas(line, c1, c2, c3))
  {
    FoundComma(line, 0, c1);
    FoundComma(line, c1 + 1, c2);
    FoundComma(line, c2 + 1, c3);
    assert line[0..c1] == line[..c1];
    var p, o, ts := line[..c1], line[c1 + 1..c2], line[c2 + 1..c3];
    var k := KeyField(line, c3 + 1);
    var v := ValueField(line, k.valueStart);
    TokensFromParts(line, c1, c2, c3, k, v);
    LeadingDiagnostics(p, o, ts, v.misplacedQuote);
    CommaSeparatedPrefix(line, c1, c2, c3);
  }

  /**
   * Partition, offset and timestamp are the texts before the first three
   * commas: the line starts with them, each followed by its comma, none of them
   * contains a comma, and each is reported exactly when it is empty.
   */
  lemma LeadingFieldsBetweenCommas(line: CString)
    requires |line| < SIZE_MAX && Tokenize(line).Tokens?
    ensures LeadingFieldsFit(line, Tokenize(line))
  {
    var c1, c2, c3 := LeadingCommas(line);
    TokenizeAtCommas(line, c1, c2, c3);
    LeadingFieldsAt(line, c1, c2, c3);
  }

  /** The line up to its third comma is the three fields, each followed by its comma. */
  lemma CommaSeparatedPrefix(line: string, c1: nat, c2: nat, c3: nat)
    requires c1 < c2 < c3 < |line| && line[c1] == ',' && line[c2] == ',' && line[c3] == ','
    ensures line[..c3 + 1] == line[..c1] + "," + line[c1 + 1..c2] + "," + line[c2 + 1..c3] + ","
  {
    assert line[..c1 + 1] == line[..c1] + ",";
    assert line[..c2 + 1] == line[..c1 + 1] + line[c1 + 1..c2] + ",";
    assert line[..c3 + 1] == line[..c2 + 1] + line[c2 + 1..c3] + ",";
  }

  // ---------------------------------------------------------------------------
  // Keys

  /** Two characters occur at `k` exactly where both are. */
  lemma OccursAtPair(s: string, a: char, b: char, k: nat)
    ensures OccursAt(s, [a, b], k) <==> k + 1 < |s| && s[k] == a && s[k + 1] == b
  {
    if k + 1 < |s| {
      assert s[k..k + 2] == [s[k], s[k + 1]];
    }
  }

  /**
   * A key that starts with a quote ends at the first "'," searched from the
   * quote itself: the key is the text strictly between the quote and that
   * delimiter (commas included), and the value starts right after the
   * delimiter. When the quote itself is followed by a comma, the delimiter is
   * found at the quote and the key is NULL. Without any "'," the key is NULL
   * and the value starts at index 1, the wrap-around of `(size_t)-1 + 2`.
   */
  lemma QuotedKey(line: CString, start: nat)
    requires start < |line| && line[start] == SINGLE_QUOTE
    ensures var k := KeyField(line, start);
      match FindIndex(line, "',", start)
      case Some(e) =>
        start <= e && e + 2 <= |line| && line[e] == SINGLE_QUOTE && line[e + 1] == ',' &&
        (forall j :: start <= j < e ==> !(line[j] == SINGLE_QUOTE && line[j + 1] == ',')) &&
        k.valueStart == e + 2 &&
        (start < e ==> k.key == Some(line[start + 1..e])) &&
        (start == e ==> k.key.None?)
      case None => k == KeyText(None, 1)
  {
    FindIndexIsFirst(line, "',", start);
    var f := FindIndex(line, "',", start);
    if f.Some? {
      var e := f.value;
      assert line[e..e + 2] == "',";
      assert line[e] == line[e..e + 2][0];
      assert line[e + 1] == line[e..e + 2][1];
      forall j | start <= j < e
        ensures !(line[j] == SINGLE_QUOTE && line[j + 1] == ',')
      {
        OccursAtPair(line, SINGLE_QUOTE, ',', j);
      }
    }
  }

  /**
   * A key that does not start with a quote runs up to the next comma and
   * contains none; the value starts after that comma. Without a comma the key
   * is NULL and the value starts at index 0, the wrap-around of `(size_t)-1 + 1`.
   */
  lemma PlainKey(line: CString, start: nat)
    requires start <= |line| && CharAt(line, start) != SINGLE_QUOTE
    ensures var k := KeyField(line, start);
      match FindIndex(line, ",", start)
      case Some(e) =>
        e < |line| && line[e] == ',' && k.key == Some(line[start..e]) && ',' !in line[start..e] &&
        k.valueStart == e + 1
      case None => k == KeyText(None, 0)
  {
    if FindIndex(line, ",", start).Some? {
      FoundComma(line, start, FindIndex(line, ",", start).value);
    }
  }

  // ---------------------------------------------------------------------------
  // Values

  /** A quote never lies in the terminator that the logical length leaves out. */
  lemma QuoteWithinLogicalLine(line: CString, k: nat)
    requires k <= |line| && CharAt(line, k) == SINGLE_QUOTE
    ensures k < LogicalLength(line)
  {
    LogicalLengthStripsTerminator(line);
  }

  /**
   * A value that starts with a quote: the backward scan from the logical end of
   * the line stops at the last quote `e` there. When `e` lies after the opening
   * quote, the value is the text strictly between the two, ending within the
   * logical line, and the warning fires exactly when more than two characters
   * follow the closing quote. When there is no later quote, the value is the
   * single quote character, whatever follows it.
   */
  lemma QuotedValue(line: CString, start: nat)
    requires start <= |line| && CharAt(line, start) == SINGLE_QUOTE
    ensures var n := LogicalLength(line);
      var e := ScanBack(line, start, n);
      var v := ValueField(line, start);
      start < n && start <= e <= n &&
      (forall j :: e < j <= n ==> CharAt(line, j) != SINGLE_QUOTE) &&
      (start < e ==>
         e < |line| && line[e] == SINGLE_QUOTE &&
         v.value == Some(line[start + 1..e]) && (v.misplacedQuote <==> n - e > 2)) &&
      (start == e ==> v == ValueText(Some([SINGLE_QUOTE]), false))
  {
    QuoteWithinLogicalLine(line, start);
    var n := LogicalLength(line);
    var e := ScanBack(line, start, n);
    if start == e {
      assert line[start..start + 1] == [line[start]];
    }
  }

  /**
   * A value that does not start with a quote runs from its start to the
   * logical end of the line; it is NULL when it would start after that end.
   */
  lemma PlainValue(line: CString, start: nat)
    requires start <= |line| && CharAt(line, start) != SINGLE_QUOTE
    ensures var n := LogicalLength(line);
      (start <= n ==> ValueField(line, start) == ValueText(Some(line[start..n]), false)) &&
      (n < start ==> ValueField(line, start) == ValueText(None, false))
  {
  }
}
