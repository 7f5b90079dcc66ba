/**
 * What unpack_file does with a whole export: the header values it extracts,
 * which lines reach unpack_record, and how a run ends.
 */
module DriverProperties {
  import opened Wrappers
  import opened Text
  import opened Unpack
  import opened UnpackFile
  import opened TokenizerProperties
  import opened RoundTrip

  // ---------------------------------------------------------------------------
  // Header lines

  /** A header line `tag` + value + line feed yields the value when it holds no line feed. */
  lemma HeaderValueBeforeLineFeed(tag: CString, v: CString)
    requires |v| >= 1 && '\n' !in v
    ensures CopyTextBetween(tag + v + LINE_FEED, tag, LINE_FEED) == Success(v)
  {
    var s: CString := tag + v + LINE_FEED;
    assert OccursAt(s, tag, 0) by {
      assert s[..|tag|] == tag;
    }
    FirstOccurrenceIs(s, tag, 0, 0);
    var start := |tag|;
    var e := |tag| + |v|;
    assert OccursAt(s, LINE_FEED, e) by {
      assert s[e..e + 1] == [s[e]];
    }
    forall k | start + 1 <= k < e
      ensures !OccursAt(s, LINE_FEED, k)
    {
      assert s[k] == v[k - start];
      assert s[k..k + 1] == [s[k]];
    }
    FirstOccurrenceIs(s, LINE_FEED, start + 1, e);
    assert s[start..e] == v;
  }

  /**
   * A header line that ends in a carriage return and a line feed keeps the
   * carriage return in its value, and its value may then be empty.
   */
  lemma HeaderValueKeepsCarriageReturn(tag: CString, v: CString)
    requires '\n' !in v
    ensures CopyTextBetween(tag + v + "\r\n", tag, LINE_FEED) == Success(v + "\r")
  {
    assert tag + v + "\r\n" == tag + (v + "\r") + LINE_FEED;
    HeaderValueBeforeLineFeed(tag, v + "\r");
  }

  /**
   * An empty header value ends the run: the search for the line feed starts
   * one character past the tag, so the tag and a line feed alone give
   * status 2, and the tag alone reads past the terminator.
   */
  lemma EmptyHeaderValueIsMissing(tag: CString)
    ensures CopyTextBetween(tag + LINE_FEED, tag, LINE_FEED) == Failure(RightDelimiterMissing)
    ensures CopyTextBetween(tag, tag, LINE_FEED) == Failure(ReadsPastTerminator)
  {
    var s: CString := tag + LINE_FEED;
    assert OccursAt(s, tag, 0) by {
      assert s[..|tag|] == tag;
    }
    FirstOccurrenceIs(s, tag, 0, 0);
    assert OccursAt(tag, tag, 0) by {
      assert tag[..|tag|] == tag;
    }
    FirstOccurrenceIs(tag, tag, 0, 0);
  }

  /** A last header line without its line feed gives status 2 even when the value is there. */
  lemma HeaderWithoutLineFeed(tag: CString, v: CString)
    requires |v| >= 1 && '\n' !in v
    ensures CopyTextBetween(tag + v, tag, LINE_FEED) == Failure(RightDelimiterMissing)
  {
    var s: CString := tag + v;
    assert OccursAt(s, tag, 0) by {
      assert s[..|tag|] == tag;
    }
    FirstOccurrenceIs(s, tag, 0, 0);
    forall k | |tag| + 1 <= k
      ensures !OccursAt(s, LINE_FEED, k)
    {
      if k < |s| {
        assert s[k] == v[k - |tag|];
        assert s[k..k + 1] == [s[k]];
      }
    }
  }

  /**
   * A header line halts the run exactly when copy_text_between returns a
   * non-zero status, which is what exit_on_failure tests; a label that ends
   * the line has no status and is left aside.
   */
  lemma HeaderFailsIffStatusNonZero(run: Run, n: nat, raw: string)
    requires 1 <= n <= HEADER_LINES && |raw| < SIZE_MAX && run.halt.Running?
    requires FirstOccurrence(CStringOf(raw), HeaderLabel(n), 0).None? ||
             FirstOccurrence(CStringOf(raw), HeaderLabel(n), 0).value + |HeaderLabel(n)| < |CStringOf(raw)|
    ensures Step(run, n, raw).halt.HeaderFailed? <==> StatusCode(CStringOf(raw), HeaderLabel(n), LINE_FEED) != 0
  {
    var line := CStringOf(raw);
    var code := StatusCode(line, HeaderLabel(n), LINE_FEED);
    assert code == 0 <==> CopyTextBetween(line, HeaderLabel(n), LINE_FEED).Success?;
  }

  /** The value header line `n` yields, when it yields one. */
  function HeaderText(lines: seq<string>, n: nat): Result<CString, BetweenError>
    requires 1 <= n <= HEADER_LINES && n <= |lines|
  {
    CopyTextBetween(CStringOf(lines[n - 1]), HeaderLabel(n), LINE_FEED)
  }

  /**
   * The first `read` header values are set to what their lines hold and the
   * others are unset.
   */
  predicate HeaderReadUpTo(h: Header, lines: seq<string>, read: nat)
    requires read <= |lines| && read <= HEADER_LINES
  {
    forall n :: 1 <= n <= HEADER_LINES ==>
      if n <= read then HeaderText(lines, n).Success? && HeaderValue(h, n) == Some(HeaderText(lines, n).value)
      else HeaderValue(h, n) == None
  }

  /**
   * The state of a run within the header: nothing written; either every line
   * read so far set its value, or the run stopped at the first header line
   * whose value could not be extracted, after the lines before it set theirs.
   */
  predicate HeaderState(run: Run, lines: seq<string>)
    requires |lines| <= HEADER_LINES
  {
    run.records == [] && (run.halt.Running? || run.halt.HeaderFailed?) &&
    (run.halt.Running? ==> HeaderReadUpTo(run.header, lines, |lines|)) &&
    (run.halt.HeaderFailed? ==>
       1 <= run.halt.lineNumber <= |lines| && HeaderText(lines, run.halt.lineNumber) == Failure(run.halt.error) &&
       HeaderReadUpTo(run.header, lines, run.halt.lineNumber - 1))
  }

  /** Lines added after the first `read` leave what those lines set unchanged. */
  lemma HeaderReadExtends(h: Header, lines: seq<string>, count: nat, read: nat)
    requires count <= |lines| && read <= count && read <= HEADER_LINES
    requires HeaderReadUpTo(h, lines[..count], read)
    ensures HeaderReadUpTo(h, lines, read)
  {
    forall n | 1 <= n <= read
      ensures HeaderText(lines[..count], n) == HeaderText(lines, n)
    {
      assert lines[..count][n - 1] == lines[n - 1];
    }
  }

  /** Reading one header line keeps the header state. */
  lemma HeaderLineStep(run: Run, lines: seq<string>)
    requires LinesFit(lines) && 1 <= |lines| <= HEADER_LINES
    requires HeaderState(run, lines[..|lines| - 1])
    ensures HeaderState(Step(run, |lines|, lines[|lines| - 1]), lines)
  {
    var n := |lines|;
    var prefix := lines[..n - 1];
    if run.halt.Running? {
      HeaderReadExtends(run.header, lines, n - 1, n - 1);
    } else {
      var m := run.halt.lineNumber;
      assert prefix[m - 1] == lines[m - 1];
      HeaderReadExtends(run.header, lines, n - 1, m - 1);
    }
  }

  /** While the header is read, the run is in the header state. */
  lemma {:induction false} HeaderPrefix(lines: seq<string>)
    requires LinesFit(lines) && |lines| <= HEADER_LINES
    ensures HeaderState(UnpackLines(lines), lines)
  {
    if |lines| > 0 {
      var prefix := lines[..|lines| - 1];
      assert LinesFit(prefix);
      HeaderPrefix(prefix);
      HeaderLineStep(UnpackLines(prefix), lines);
    }
  }

  /** A file of at most five lines, the header alone, writes no record. */
  lemma HeaderOnlyFileWritesNothing(lines: seq<string>)
    requires LinesFit(lines) && |lines| <= HEADER_LINES
    ensures UnpackLines(lines).records == []
  {
    HeaderPrefix(lines);
  }

  /** After the header, reading a line changes neither the header values nor a header failure. */
  lemma {:induction false} RecordLinesKeepHeader(lines: seq<string>)
    requires LinesFit(lines) && |lines| >= HEADER_LINES
    ensures LinesFit(lines[..HEADER_LINES])
    ensures UnpackLines(lines).header == UnpackLines(lines[..HEADER_LINES]).header
    ensures UnpackLines(lines[..HEADER_LINES]).halt.HeaderFailed? ==>
      UnpackLines(lines) == UnpackLines(lines[..HEADER_LINES])
    ensures !UnpackLines(lines[..HEADER_LINES]).halt.HeaderFailed? ==>
      !UnpackLines(lines).halt.HeaderFailed?
  {
    if |lines| == HEADER_LINES {
      assert lines[..HEADER_LINES] == lines;
    } else {
      var prefix := lines[..|lines| - 1];
      assert LinesFit(prefix);
      RecordLinesKeepHeader(prefix);
      assert prefix[..HEADER_LINES] == lines[..HEADER_LINES];
    }
  }

  /**
   * The header values of a file whose header was read: each of the five
   * values is the text its line holds between the tag and the line feed.
   */
  lemma HeaderValues(lines: seq<string>)
    requires LinesFit(lines) && |lines| >= HEADER_LINES
    requires !UnpackLines(lines).halt.HeaderFailed?
    ensures forall n :: 1 <= n <= HEADER_LINES ==>
      HeaderText(lines, n).Success? && HeaderValue(UnpackLines(lines).header, n) == Some(HeaderText(lines, n).value)
  {
    RecordLinesKeepHeader(lines);
    HeaderPrefix(lines[..HEADER_LINES]);
    HeaderReadExtends(UnpackLines(lines).header, lines, HEADER_LINES, HEADER_LINES);
  }

  /**
   * A header line whose value cannot be extracted ends the run there: nothing
   * is written and the halt names the line and the reason.
   */
  lemma HeaderFailureIsFatal(lines: seq<string>)
    requires LinesFit(lines) && UnpackLines(lines).halt.HeaderFailed?
    ensures var run := UnpackLines(lines);
      run.records == [] && 1 <= run.halt.lineNumber <= HEADER_LINES && run.halt.lineNumber <= |lines| &&
      HeaderText(lines, run.halt.lineNumber) == Failure(run.halt.error)
  {
    if |lines| <= HEADER_LINES {
      HeaderPrefix(lines);
    } else {
      var head := lines[..HEADER_LINES];
      RecordLinesKeepHeader(lines);
      HeaderPrefix(head);
      var m := UnpackLines(lines).halt.lineNumber;
      assert HeaderText(head, m) == HeaderText(lines, m) by {
        assert head[m - 1] == lines[m - 1];
      }
    }
  }

  // ---------------------------------------------------------------------------
  // Record lines

  /** The line numbers of the records handed on, in order. */
  function LineNumbers(records: seq<RecordLine>): (r: seq<nat>)
    ensures |r| == |records| && forall j :: 0 <= j < |r| ==> r[j] == records[j].lineNumber
  {
    seq(|records|, j requires 0 <= j < |records| => records[j].lineNumber)
  }

  /** The number of lines a run has read out of `count`: all of them, or up to the one it halted on. */
  function LinesRead(run: Run, count: nat): nat
  {
    match run.halt
    case Running => count
    case HeaderFailed(m, _) => m
    case RecordCrashed(m) => m
    case WriterCrashed(m) => m
  }

  /**
   * A record handed on comes from an eligible line among the first `read`,
   * and is what unpack_record makes of that line with the environment and the
   * topic of `h`.
   */
  predicate RecordOf(r: RecordLine, lines: seq<string>, h: Header, read: nat)
  {
    Eligible(lines, r.lineNumber) && r.lineNumber <= read && |lines[r.lineNumber - 1]| < SIZE_MAX &&
    r.outcome == RecordOutcome(CStringOf(lines[r.lineNumber - 1]), h.environment, h.topic)
  }

  /** Every record of the run comes from a line it has read, as `RecordOf` says. */
  predicate RecordsSound(run: Run, lines: seq<string>)
  {
    LinesRead(run, |lines|) <= |lines| &&
    forall j :: 0 <= j < |run.records| ==> RecordOf(run.records[j], lines, run.header, LinesRead(run, |lines|))
  }

  /** A record of a prefix of the lines is a record of the lines. */
  lemma RecordOfExtends(r: RecordLine, lines: seq<string>, count: nat, h: Header, read: nat)
    requires count <= |lines| && RecordOf(r, lines[..count], h, read)
    ensures RecordOf(r, lines, h, read)
  {
    assert lines[..count][r.lineNumber - 1] == lines[r.lineNumber - 1];
  }

  /** What reading a record line does: at most one record more, and the header unchanged. */
  lemma RecordStepShape(run: Run, n: nat, raw: string)
    requires HEADER_LINES < n && |raw| < SIZE_MAX
    ensures Step(run, n, raw).header == run.header
    ensures run.halt.Running? && |CStringOf(raw)| >= MINIMUM_LENGTH_OF_VALID_CSV_LINES ==>
      Step(run, n, raw).records ==
        run.records + [RecordLine(n, RecordOutcome(CStringOf(raw), run.header.environment, run.header.topic))] &&
      LinesRead(Step(run, n, raw), n) == n
    ensures !(run.halt.Running? && |CStringOf(raw)| >= MINIMUM_LENGTH_OF_VALID_CSV_LINES) ==>
      Step(run, n, raw) == run
  {
  }

  /** Reading a record line keeps every record sound. */
  lemma RecordLineStep(run: Run, lines: seq<string>)
    requires LinesFit(lines) && |lines| > HEADER_LINES
    requires RecordsSound(run, lines[..|lines| - 1])
    ensures RecordsSound(Step(run, |lines|, lines[|lines| - 1]), lines)
  {
    var n := |lines|;
    var count := n - 1;
    var raw := lines[count];
    var read := LinesRead(run, count);
    var after := Step(run, n, raw);
    RecordStepShape(run, n, raw);
    forall j | 0 <= j < |run.records|
      ensures RecordOf(run.records[j], lines, run.header, read)
    {
      RecordOfExtends(run.records[j], lines, count, run.header, read);
    }
    if run.halt.Running? && |CStringOf(raw)| >= MINIMUM_LENGTH_OF_VALID_CSV_LINES {
      assert read == count;
      var r := RecordLine(n, RecordOutcome(CStringOf(raw), run.header.environment, run.header.topic));
      assert after.records == run.records + [r];
      assert RecordOf(r, lines, run.header, n);
      forall j | 0 <= j < |after.records|
        ensures RecordOf(after.records[j], lines, after.header, LinesRead(after, n))
      {
        if j < |run.records| {
          assert after.records[j] == run.records[j];
        }
      }
    } else {
      assert after == run;
    }
  }

  /**
   * Each record handed on comes from an eligible line the run has read, and
   * is what unpack_record makes of that line with the header's environment
   * and topic.
   */
  lemma {:induction false} RecordsAreEligibleLines(lines: seq<string>)
    requires LinesFit(lines)
    ensures RecordsSound(UnpackLines(lines), lines)
  {
    if |lines| <= HEADER_LINES {
      HeaderPrefix(lines);
    } else {
      var prefix := lines[..|lines| - 1];
      assert LinesFit(prefix);
      RecordsAreEligibleLines(prefix);
      RecordLineStep(UnpackLines(prefix), lines);
    }
  }

  /** The records are in the order of their lines, each line at most once. */
  predicate InLineOrder(records: seq<RecordLine>)
  {
    forall j, k :: 0 <= j < k < |records| ==> records[j].lineNumber < records[k].lineNumber
  }

  /** Reading line `n`, later than every record so far, keeps the records in line order. */
  lemma OrderStep(run: Run, n: nat, raw: string)
    requires 1 <= n && |raw| < SIZE_MAX && InLineOrder(run.records)
    requires forall j :: 0 <= j < |run.records| ==> run.records[j].lineNumber < n
    ensures InLineOrder(Step(run, n, raw).records)
  {
    var after := Step(run, n, raw);
    if |after.records| > |run.records| {
      assert after.records == run.records + [after.records[|run.records|]];
      assert after.records[|run.records|].lineNumber == n;
    }
  }

  /** Records are handed on in the order of their lines, each line at most once. */
  lemma {:induction false} RecordsInLineOrder(lines: seq<string>)
    requires LinesFit(lines)
    ensures InLineOrder(UnpackLines(lines).records)
  {
    if |lines| > 0 {
      var prefix := lines[..|lines| - 1];
      assert LinesFit(prefix);
      RecordsInLineOrder(prefix);
      RecordsAreEligibleLines(prefix);
      var before := UnpackLines(prefix);
      forall j | 0 <= j < |before.records|
        ensures before.records[j].lineNumber < |lines|
      {
        assert RecordOf(before.records[j], prefix, before.header, LinesRead(before, |prefix|));
      }
      OrderStep(before, |lines|, lines[|lines| - 1]);
    }
  }

  /** Every eligible line the run has read was handed to unpack_record. */
  lemma {:induction false} EveryEligibleLineIsUnpacked(lines: seq<string>)
    requires LinesFit(lines)
    ensures var run := UnpackLines(lines);
      forall n: nat :: Eligible(lines, n) && n <= LinesRead(run, |lines|) ==> n in LineNumbers(run.records)
  {
    if |lines| > 0 {
      var prefix := lines[..|lines| - 1];
      assert LinesFit(prefix);
      EveryEligibleLineIsUnpacked(prefix);
      RecordsAreEligibleLines(prefix);
      var before, after := UnpackLines(prefix), UnpackLines(lines);
      forall n: nat | Eligible(lines, n) && n <= LinesRead(after, |lines|)
        ensures n in LineNumbers(after.records)
      {
        if n < |lines| {
          assert prefix[n - 1] == lines[n - 1];
          assert Eligible(prefix, n);
          assert n in LineNumbers(before.records);
          var j :| 0 <= j < |before.records| && before.records[j].lineNumber == n;
          assert after.records[j] == before.records[j];
        } else {
          assert after.records[|after.records| - 1].lineNumber == n;
        }
      }
    }
  }

  /** The lines handed to unpack_record are exactly the eligible lines the run has read. */
  lemma RecordsAreExactlyEligibleLines(lines: seq<string>)
    requires LinesFit(lines)
    ensures var run := UnpackLines(lines);
      forall n: nat :: n in LineNumbers(run.records) <==> Eligible(lines, n) && n <= LinesRead(run, |lines|)
  {
    RecordsAreEligibleLines(lines);
    EveryEligibleLineIsUnpacked(lines);
  }

  /**
   * Only the last record may end the process. The run halts on a crash in
   * unpack_record exactly when that record crashed, and on a crash in the
   * writer exactly when it is written with a NULL key, on that record's line.
   */
  predicate CrashIsLast(run: Run)
  {
    (forall j :: 0 <= j < |run.records| - 1 ==> !EndsRun(run.records[j].outcome)) &&
    (run.halt.RecordCrashed? <==> |run.records| > 0 && run.records[|run.records| - 1].outcome.Crashed?) &&
    (run.halt.WriterCrashed? <==> |run.records| > 0 && WriterCrashes(run.records[|run.records| - 1].outcome)) &&
    ((run.halt.RecordCrashed? || run.halt.WriterCrashed?) ==>
       run.halt.lineNumber == run.records[|run.records| - 1].lineNumber)
  }

  /** Reading any line keeps `CrashIsLast`. */
  lemma CrashStep(run: Run, n: nat, raw: string)
    requires 1 <= n && |raw| < SIZE_MAX && CrashIsLast(run)
    ensures CrashIsLast(Step(run, n, raw))
  {
    var after := Step(run, n, raw);
    assert forall j :: 0 <= j < |run.records| ==> !EndsRun(run.records[j].outcome) || !run.halt.Running?;
    if |after.records| > |run.records| {
      assert forall j :: 0 <= j < |run.records| ==> after.records[j] == run.records[j];
    }
  }

  /**
   * A run halts on a record line exactly when unpack_record or the writer
   * crashed on it, and that record is the last one: no earlier record ended
   * the process.
   */
  lemma {:induction false} CrashEndsRun(lines: seq<string>)
    requires LinesFit(lines)
    ensures CrashIsLast(UnpackLines(lines))
  {
    if |lines| > 0 {
      var prefix := lines[..|lines| - 1];
      assert LinesFit(prefix);
      CrashEndsRun(prefix);
      CrashStep(UnpackLines(prefix), |lines|, lines[|lines| - 1]);
    }
  }

  /** A run that stopped at a header line has handed on no record. */
  lemma HeaderFailureOrRecords(lines: seq<string>)
    requires LinesFit(lines)
    ensures UnpackLines(lines).halt.HeaderFailed? ==> UnpackLines(lines).records == []
  {
    if UnpackLines(lines).halt.HeaderFailed? {
      HeaderFailureIsFatal(lines);
    }
  }

  /** A run that has handed on a record has read the environment and the topic. */
  lemma HeaderSetBeforeRecords(lines: seq<string>)
    requires LinesFit(lines) && UnpackLines(lines).records != []
    ensures UnpackLines(lines).header.environment.Some? && UnpackLines(lines).header.topic.Some?
  {
    var run := UnpackLines(lines);
    HeaderFailureOrRecords(lines);
    RecordsAreEligibleLines(lines);
    assert RecordOf(run.records[0], lines, run.header, LinesRead(run, |lines|));
    HeaderValues(lines);
    assert HeaderValue(run.header, 1).Some? && HeaderValue(run.header, 2).Some?;
  }

  /**
   * What unpack_record does with a line: it crashes exactly when the line has
   * fewer than three commas; otherwise it writes the tokenized record exactly
   * when the environment and the topic are set, whatever the fields hold
   * (empty fields are written too), and drops it as incomplete otherwise.
   */
  lemma RecordOutcomeCases(line: CString, environment: Option<CString>, topic: Option<CString>)
    requires |line| < SIZE_MAX
    ensures var u := RecordOutcome(line, environment, topic);
      (u.Crashed? <==> CommaCount(line) < 3) &&
      (u.Written? <==> CommaCount(line) >= 3 && environment.Some? && topic.Some?) &&
      (u.Incomplete? <==> CommaCount(line) >= 3 && (environment.None? || topic.None?)) &&
      (u.Written? ==> u.record == Tokenize(line).record && u.diagnostics == Tokenize(line).diagnostics)
  {
    CrashIffFewerThanThreeCommas(line);
    if Tokenize(line).Tokens? {
      LeadingFieldsBetweenCommas(line);
    }
  }

  /**
   * Every record handed on is written or crashed, never dropped as incomplete:
   * once the header has been read the environment and the topic are set, and
   * a tokenized line always has its partition and its offset.
   */
  lemma RecordsAreWrittenOrCrashed(lines: seq<string>)
    requires LinesFit(lines)
    ensures forall r :: r in UnpackLines(lines).records ==> r.outcome.Written? || r.outcome.Crashed?
  {
    var run := UnpackLines(lines);
    if run.records != [] {
      HeaderSetBeforeRecords(lines);
      RecordsAreEligibleLines(lines);
      forall r | r in run.records
        ensures r.outcome.Written? || r.outcome.Crashed?
      {
        assert RecordOf(r, lines, run.header, LinesRead(run, |lines|));
        RecordOutcomeCases(CStringOf(lines[r.lineNumber - 1]), run.header.environment, run.header.topic);
      }
    }
  }

  /**
   * A quote-free record line with exactly three commas, such as `1,2,3,abcd`,
   * is written with a NULL key once the environment and the topic are set, so
   * the writer crashes on it.
   */
  lemma KeylessRecordCrashesWriter(line: CString, environment: Option<CString>, topic: Option<CString>)
    requires |line| < SIZE_MAX && SINGLE_QUOTE !in line && CommaCount(line) == 3
    requires environment.Some? && topic.Some?
    ensures WriterCrashes(RecordOutcome(line, environment, topic))
  {
    PlainRecordRebuildsLine(line);
    RecordOutcomeCases(line, environment, topic);
  }

  /**
   * A run still going after the header stops at an eligible quote-free line
   * with exactly three commas: the writer crashes there and no later line is
   * read.
   */
  lemma RunStopsAtKeylessRecord(lines: seq<string>)
    requires LinesFit(lines) && |lines| > HEADER_LINES
    requires UnpackLines(lines[..|lines| - 1]).halt.Running?
    requires var line := CStringOf(lines[|lines| - 1]);
      |line| >= MINIMUM_LENGTH_OF_VALID_CSV_LINES && SINGLE_QUOTE !in line && CommaCount(line) == 3
    ensures UnpackLines(lines).halt == WriterCrashed(|lines|)
  {
    var n := |lines|;
    var prefix := lines[..n - 1];
    assert LinesFit(prefix);
    HeaderValues(prefix);
    var run := UnpackLines(prefix);
    assert HeaderValue(run.header, 1).Some? && HeaderValue(run.header, 2).Some?;
    var raw := lines[n - 1];
    var line := CStringOf(raw);
    assert UnpackLines(lines) == Step(run, n, raw);
    KeylessRecordCrashesWriter(line, run.header.environment, run.header.topic);
    var outcome := RecordOutcome(line, run.header.environment, run.header.topic);
    assert !outcome.Crashed? && WriterCrashes(outcome);
  }
}
