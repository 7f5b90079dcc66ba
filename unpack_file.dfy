/**
 * The line dispatch of unpack_file in src/unpack.c: the first five lines are
 * the export's header, each carrying one labelled value; every later line of
 * at least eight characters is a record line handed to unpack_record.
 *
 * The file is a sequence of raw lines as getline returns them (with their line
 * feed), one `char` per byte; what the C functions see of a line is its text
 * up to the first NUL. A header that cannot be extracted ends the process
 * (exit_on_failure), and so does a record line whose third comma is missing
 * (the `strlen(NULL)` of warn_on_empty_field) or whose written record has a
 * NULL key (the `strlen(key)` of write_record_file); each appears here as the
 * reason a run halted.
 */
module UnpackFile {
  import opened Wrappers
  import opened Text
  import opened Unpack

  /** Record lines shorter than this ("1,2,3,,\n" has 8 characters) are skipped. */
  const MINIMUM_LENGTH_OF_VALID_CSV_LINES: nat := 8

  /** The number of header lines. */
  const HEADER_LINES: nat := 5

  /** The right delimiter of every header value. */
  const LINE_FEED: CString := "\n"

  /**
   * The label in front of the value of header line `n`. The labels are padded
   * to one width, end in ": " and hold no line feed.
   */
  function HeaderLabel(n: nat): (r: CString)
    requires 1 <= n <= HEADER_LINES
    ensures |r| == 13 && r[11..] == ": " && '\n' !in r
  {
    if n == 1 then "environment: "
    else if n == 2 then "topic      : "
    else if n == 3 then "searchValue: "
    else if n == 4 then "timeFrom   : "
    else "timeTo     : "
  }

  /** The five header values; `None` until their line has been read. */
  datatype Header = Header(
    environment: Option<CString>,
    topic: Option<CString>,
    searchValue: Option<CString>,
    timeFrom: Option<CString>,
    timeTo: Option<CString>)

  /** The header value that line `n` sets. */
  function HeaderValue(h: Header, n: nat): Option<CString>
    requires 1 <= n <= HEADER_LINES
  {
    if n == 1 then h.environment
    else if n == 2 then h.topic
    else if n == 3 then h.searchValue
    else if n == 4 then h.timeFrom
    else h.timeTo
  }

  /** The header with the value of line `n` set to `text`. */
  function SetHeaderValue(h: Header, n: nat, text: CString): (r: Header)
    requires 1 <= n <= HEADER_LINES
    ensures HeaderValue(r, n) == Some(text)
    ensures forall m :: 1 <= m <= HEADER_LINES && m != n ==> HeaderValue(r, m) == HeaderValue(h, m)
  {
    if n == 1 then h.(environment := Some(text))
    else if n == 2 then h.(topic := Some(text))
    else if n == 3 then h.(searchValue := Some(text))
    else if n == 4 then h.(timeFrom := Some(text))
    else h.(timeTo := Some(text))
  }

  /** Why a run ended before the end of the file. */
  datatype Halt =
    | Running                                          // every line was read
    | HeaderFailed(lineNumber: nat, error: BetweenError)  // exit_on_failure on a header line
    | RecordCrashed(lineNumber: nat)                   // unpack_record crashed on this line
    | WriterCrashed(lineNumber: nat)                   // write_record_file crashed on this line's record

  /**
   * A record handed to write_record_file with a NULL key: the writer's
   * `strlen(key)` (src/unpack.c:241) crashes the process. Every other field it
   * measures is present once the record is written.
   */
  predicate WriterCrashes(outcome: Unpacked)
  {
    outcome.Written? && outcome.record.key.None?
  }

  /** A record outcome that ends the process, in unpack_record or in the writer. */
  predicate EndsRun(outcome: Unpacked)
  {
    outcome.Crashed? || WriterCrashes(outcome)
  }

  /** What unpack_record did with the record line numbered `lineNumber`. */
  datatype RecordLine = RecordLine(lineNumber: nat, outcome: Unpacked)

  /** The state of unpack_file: the header read so far, the record lines handed on, and the halt. */
  datatype Run = Run(header: Header, records: seq<RecordLine>, halt: Halt)

  /** The state before the first line. */
  const Start: Run := Run(Header(None, None, None, None, None), [], Running)

  /** Every line fits a size_t length with room for the "not found" sentinel. */
  predicate LinesFit(lines: seq<string>)
  {
    forall i :: 0 <= i < |lines| ==> |lines[i]| < SIZE_MAX
  }

  /** A record line that reaches unpack_record: numbered after the header and long enough. */
  predicate Eligible(lines: seq<string>, n: nat)
  {
    HEADER_LINES < n <= |lines| && |CStringOf(lines[n - 1])| >= MINIMUM_LENGTH_OF_VALID_CSV_LINES
  }

  /** What reading line number `n` does to a run. A halted run reads nothing more. */
  function Step(run: Run, n: nat, raw: string): Run
    requires 1 <= n && |raw| < SIZE_MAX
  {
    if !run.halt.Running? then run
    else
      var line := CStringOf(raw);
      if n <= HEADER_LINES then
        match CopyTextBetween(line, HeaderLabel(n), LINE_FEED)
        case Failure(e) => run.(halt := HeaderFailed(n, e))
        case Success(text) => run.(header := SetHeaderValue(run.header, n, text))
      else if |line| >= MINIMUM_LENGTH_OF_VALID_CSV_LINES then
        var outcome := RecordOutcome(line, run.header.environment, run.header.topic);
        run.(records := run.records + [RecordLine(n, outcome)],
             halt := if outcome.Crashed? then RecordCrashed(n)
                     else if WriterCrashes(outcome) then WriterCrashed(n)
                     else Running)
      else run
  }

  /** The specification of unpack_file: the lines read one after the other, numbered from 1. */
  function UnpackLines(lines: seq<string>): Run
    requires LinesFit(lines)
  {
    if |lines| == 0 then Start
    else Step(UnpackLines(lines[..|lines| - 1]), |lines|, lines[|lines| - 1])
  }

  /** Reading one more line is one more step. */
  lemma UnpackLinesStep(lines: seq<string>, i: nat)
    requires LinesFit(lines) && i < |lines|
    ensures LinesFit(lines[..i]) && LinesFit(lines[..i + 1])
    ensures UnpackLines(lines[..i + 1]) == Step(UnpackLines(lines[..i]), i + 1, lines[i])
  {
    assert lines[..i + 1][..i] == lines[..i];
  }

  /** Once a run has halted, the lines after it change nothing. */
  lemma {:induction false} HaltIsFinal(lines: seq<string>, i: nat)
    requires LinesFit(lines) && i <= |lines|
    requires !UnpackLines(lines[..i]).halt.Running?
    ensures UnpackLines(lines) == UnpackLines(lines[..i])
    decreases |lines| - i
  {
    if i < |lines| {
      UnpackLinesStep(lines, i);
      HaltIsFinal(lines, i + 1);
    } else {
      assert lines[..i] == lines;
    }
  }

  /**
   * unpack_file: numbers the lines, extracts the five header values and hands
   * every later line of at least eight characters to unpack_record.
   */
  method UnpackFile(lines: seq<string>) returns (run: Run)
    requires LinesFit(lines)
    ensures run == UnpackLines(lines)
  {
    var lineNumber: nat := 0;
    var environment: Option<CString> := None;
    var topic: Option<CString> := None;
    var searchValue: Option<CString> := None;
    var timeFrom: Option<CString> := None;
    var timeTo: Option<CString> := None;
    var records: seq<RecordLine> := [];

    while lineNumber < |lines|
      invariant lineNumber <= |lines|
      invariant LinesFit(lines[..lineNumber])
      invariant UnpackLines(lines[..lineNumber])
        == Run(Header(environment, topic, searchValue, timeFrom, timeTo), records, Running)
    {
      var line := CStringOf(lines[lineNumber]);
      UnpackLinesStep(lines, lineNumber);
      lineNumber := lineNumber + 1;

      var halt: Halt := Running;
      if lineNumber == 1 {
        var r := CopyDelimitedText(line, "environment: ", LINE_FEED);
        if r.Failure? {
          halt := HeaderFailed(lineNumber, r.error);
        } else {
          environment := Some(r.value);
        }
      } else if lineNumber == 2 {
        var r := CopyDelimitedText(line, "topic      : ", LINE_FEED);
        if r.Failure? {
          halt := HeaderFailed(lineNumber, r.error);
        } else {
          topic := Some(r.value);
        }
      } else if lineNumber == 3 {
        var r := CopyDelimitedText(line, "searchValue: ", LINE_FEED);
        if r.Failure? {
          halt := HeaderFailed(lineNumber, r.error);
        } else {
          searchValue := Some(r.value);
        }
      } else if lineNumber == 4 {
        var r := CopyDelimitedText(line, "timeFrom   : ", LINE_FEED);
        if r.Failure? {
          halt := HeaderFailed(lineNumber, r.error);
        } else {
          timeFrom := Some(r.value);
        }
      } else if lineNumber == 5 {
        var r := CopyDelimitedText(line, "timeTo     : ", LINE_FEED);
        if r.Failure? {
          halt := HeaderFailed(lineNumber, r.error);
        } else {
          timeTo := Some(r.value);
        }
      } else if lineNumber > 5 {
        if |line| >= MINIMUM_LENGTH_OF_VALID_CSV_LINES {
          var outcome := UnpackRecord(line, environment, topic);
          records := records + [RecordLine(lineNumber, outcome)];
          if outcome.Crashed? {
            halt := RecordCrashed(lineNumber);
          } else if outcome.Written? && outcome.record.key.None? {
            halt := WriterCrashed(lineNumber);
          }
        }
      }

      if !halt.Running? {
        run := Run(Header(environment, topic, searchValue, timeFrom, timeTo), records, halt);
        assert UnpackLines(lines[..lineNumber]) == run;
        HaltIsFinal(lines, lineNumber);
        return;
      }
    }
    assert lines[..lineNumber] == lines;
    run := Run(Header(environment, topic, searchValue, timeFrom, timeTo), records, Running);
  }
}
