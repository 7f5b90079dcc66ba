# unpack — a Dafny model of the topic reader export unpacker

`unpack` reads a topic reader export file line by line:

- The first five lines are a header. Each holds one labelled value: `environment: `, `topic      : `, `searchValue: `, `timeFrom   : ` and `timeTo     : `. Each value runs up to the line feed.
- Every later line of at least eight bytes is a CSV record line. It is tokenized into five fields: `partition,offset,timestamp,key,value`.
  - The key and the value may be wrapped in single quotes.
  - The value runs to the end of the line, without its `\r\n`.
- A complete record goes to the writer, together with the environment and the topic.

This project models that core as it is written in `src/unpack.c` and `src/text.c`, and proves what it does.

| file | module | what it holds |
|---|---|---|
| `wrappers.dfy` | `Wrappers` | `Option` (a possibly-NULL pointer) and `Result` |
| `text.dfy` | `Text` | the string helpers of `src/text.c` (`substr`, the substring search, `copy_text_between`, `copy_text_from`) as methods with loops, and the functions that specify them (`copy_text_from` is the method `CopyTextFrom` only, whose `ensures` states its result directly); the `strstr` calls of `copy_text_between` are the function `FirstOccurrence` |
| `unpack.dfy` | `Unpack` | `unpack_record`, `strlen_without_trailing_carriage_return_and_line_feed` and `warn_on_empty_field` |
| `unpack_file.dfy` | `UnpackFile` | the line dispatch of `unpack_file` |
| `tokenizer_properties.dfy` | `TokenizerProperties` | what the tokenizer does with one record line |
| `round_trip.dfy` | `RoundTrip` | record lines built from their fields are split back into those fields, including the two known ways quoted values get cut short |
| `driver_properties.dfy` | `DriverProperties` | what a whole run over a file yields |

How C becomes Dafny:

- **Strings.** Each `char` of a line stands for one byte of the input; nothing is decoded, so every length and position is a byte count, as `strlen` counts it. A C string is a `CString`: a `string` with no NUL in it. `CharAt(s, |s|)` is the terminator, which the C code may read. A raw line as `getline` returns it is viewed through `CStringOf`: its characters up to the first NUL.
- **size_t.**
  - The search function's "not found" `(size_t)-1` is `SIZE_MAX`.
  - The cursor update `end_idx + 1` / `end_idx + 2` is `AddSize`, which wraps modulo 2^64 just as size_t addition does.
  - So a key with no delimiter yields a value that starts at index 0 or 1, exactly as in the C code.
- **Crashes and exits become outcomes.**
  - When a leading comma is missing, `strlen(NULL)` in `warn_on_empty_field` crashes. This is the outcome `Crashed` / `NullField`.
  - A header that cannot be extracted ends the process through `exit_on_failure`. This is the halt `HeaderFailed`.
  - A written record whose key is NULL crashes `write_record_file` in its `strlen(key)` (src/unpack.c:241). This is the halt `WriterCrashed`.
  - In each of these cases the run stops there. The writer's other exits, on a failed `mkdir`, are not modelled (see "## Left out").
- **Specification and method.** Most operations have both. Two have one: `warn_on_empty_field`, which has no loop and no state, is the function `WarnOnEmptyField` only, and `copy_text_from` is the method `CopyTextFrom` only, whose `ensures` states its result outright:
  - a specification function: `Tokenize`, `RecordOutcome`, `UnpackLines`, `FindIndex`, `CopyTextBetween`, `LogicalLength`;
  - a method that follows the C code step by step: cursors, loops, nested searches, the backward scan.
  - The method's `ensures` ties it to its function. Lemmas then state what the function promises.

Where the code behaves other than its comments or a reader might expect, the model follows the code:

- `substr` returns `end - start` characters, not `end - start + 1`.
- `copy_text_between` looks for the right delimiter from one character past the start of the text.
  - An empty header value (`"searchValue: \n"`) is therefore fatal.
  - A header line ending in `\r\n` keeps its `\r`.
- A record whose partition or offset is the empty string is still written. unpack_record only tests for NULL.
- From `unpack_file`, the "incomplete data" branch of unpack_record is unreachable:
  - the environment and the topic are always set once the header has been read;
  - a NULL partition or offset has already crashed in `warn_on_empty_field`.

## Model

| member | source | states |
|---|---|---|
| Text.CStringOf | src/unpack.c:88 | what `strlen` sees of a raw line: the prefix before the first NUL, followed by a NUL whenever it is shorter than the buffer |
| Text.Slice | src/text.c:32-54 | the value `substr` returns: present iff `start <= end <= strlen`, and then the `end - start` characters `[start, end)` |
| Text.Substr | src/text.c:27-55 | NULL exactly when a bound lies past the string or start > end; otherwise the slice `[start, end)`, of length `end - start` |
| Text.FirstOccurrence | src/text.c:130 | the first position at or after `from` where the needle occurs, with no occurrence before it; none means no occurrence at all from `from` |
| Text.FindIndex | src/text.c:65-103 | a position found is an occurrence of a non-empty needle at or after the start; nothing is found when the needle does not fit after the start |
| Text.FindIndexIsFirst | src/text.c:57-103 | the search finds the first occurrence; it finds nothing exactly when the needle is empty, the start lies past the string, or there is no occurrence |
| Text.FindIndexOfSubstring | src/text.c:65-103 | the nested character-comparison loops return exactly `FindIndex` |
| Text.StatusCode | src/text.c:120-147 | the status of copy_text_between on the string and the delimiters: 1 iff the left delimiter does not occur; 2 iff no right delimiter begins after the first character following the first left delimiter; 0 iff a text is copied |
| Text.CopyTextBetween | src/text.c:122-164 | a copied text is never empty, because the right delimiter is searched for from one character past the start |
| Text.CopyDelimitedText | src/text.c:122-164 | the two `strstr` searches, the skip of the left delimiter and the `strncpy` copy loop compute exactly `CopyTextBetween` |
| Text.CopyTextBetweenSpans | src/text.c:128-151 | status 1 iff the left delimiter does not occur; the copy starts right after its first occurrence. If the left delimiter ends the string, the search reads past the terminator. Status 2 iff no right delimiter begins after the start. Otherwise the copy is the span up to the first right delimiter after it |
| Text.CopyTextFrom | src/text.c:174-205 | an exit exactly when `len` exceeds the source length; otherwise up to `len` characters from the 1-based offset, stopping at the end of the string |
| Unpack.AddSize | src/unpack.c:116 | size_t addition stays within size_t |
| Unpack.AddSizeIsModular | src/unpack.c:137-141 | size_t addition is addition modulo 2^64, so `(size_t)-1 + 1 == 0` and `(size_t)-1 + 2 == 1` |
| Unpack.LogicalLength | src/unpack.c:268-279 | the logical length is at most the length, and at most two characters shorter |
| Unpack.LogicalLengthStripsTerminator | src/unpack.c:268-279 | what is left out is "", "\n", "\r" or "\r\n"; nothing is left out iff the line does not end in '\r' or '\n'; a final "\r\n" is left out whole; every character left out is '\r' or '\n' |
| Unpack.LogicalLengthExamples | src/unpack.c:273-278 | the five examples of the doc comment, "123\r\n\r\n" => 5 among them |
| Unpack.StrlenWithoutTrailingCrLf | src/unpack.c:280-299 | drops one trailing '\n', then one trailing '\r', giving exactly `LogicalLength` |
| Unpack.WarnOnEmptyField | src/unpack.c:259-266 | the crash of `strlen` iff the field is NULL; otherwise at most one warning, naming the field, given iff the field is empty |
| Unpack.KeyField | src/unpack.c:126-142 | the value always starts within the line, including after the size_t wrap-around of a missing key delimiter |
| Unpack.ScanBack | src/unpack.c:149-155 | the backward scan stops at the last quote in `(start, end]`, or at `start` when there is none |
| Unpack.ValueField | src/unpack.c:144-180 | the value after the key: from the start to the logical end of the line, or, after an opening quote, up to the last quote found by the backward scan, or the lone quote. Its cases are proved in `TokenizerProperties.QuotedValue` and `TokenizerProperties.PlainValue` |
| Unpack.Tokenize | src/unpack.c:112-124 | the specification of tokenizing a line: a crash on the partition when the first comma search fails, otherwise the rest after that comma. `TokenizerProperties.CrashIffFewerThanThreeCommas` and `RoundTrip.RecordRoundTrip` state what it yields |
| Unpack.AfterPartition | src/unpack.c:114-119 | the partition's warning, then a crash on the offset when the second comma search fails, or the rest after that comma |
| Unpack.AfterOffset | src/unpack.c:119-124 | the first two warnings, then a crash on the timestamp when the third comma search fails, or the record after the three commas |
| Unpack.TokensAfterCommas | src/unpack.c:124-180 | the record cut at the three commas, with the key and the value after them and the warnings in print order; `TokenizerProperties.LeadingFieldsBetweenCommas` states what its leading fields are |
| Unpack.RecordOutcome | src/unpack.c:185-193 | the specification of unpack_record: a crash from the tokenizer, the record written when environment, topic, partition and offset are present, reported as incomplete otherwise. `DriverProperties.RecordOutcomeCases` states its cases by the line's commas |
| Unpack.UnpackRecord | src/unpack.c:102-199 | tokenizes, then hands the record to the writer iff environment, topic, partition and offset are all non-NULL: exactly `RecordOutcome` |
| Unpack.TokenizeRecord | src/unpack.c:112-114 | the cursor walk over the whole line computes exactly `Tokenize`; a missing first comma crashes before any warning |
| Unpack.TokenizeFromOffset | src/unpack.c:116-119 | after the partition's comma, the walk computes exactly `AfterPartition` |
| Unpack.TokenizeFromTimestamp | src/unpack.c:121-124 | after the offset's comma, the walk computes exactly `AfterOffset` |
| Unpack.TokenizeFromKey | src/unpack.c:126-180 | after the third comma, the walk computes exactly `TokensAfterCommas` |
| Unpack.CommaField | src/unpack.c:112-113 | the end index is the next comma, or `(size_t)-1`; the field is `substr` up to it, and is NULL when no comma is found |
| Unpack.ExtractKey | src/unpack.c:126-142 | the quoted and plain key branches, with their size_t cursor update, compute exactly `KeyField` |
| Unpack.ExtractValue | src/unpack.c:144-180 | the backward-scan loop and the three value branches compute exactly `ValueField` |
| UnpackFile.HeaderLabel | src/unpack.c:42-81 | the five labels of the header lines, all 13 characters wide, ending in ": " and free of line feeds |
| UnpackFile.Step | src/unpack.c:34-91 | one turn of the loop: a halted run reads nothing; header lines 1-5 set their value or halt the run; later lines of at least eight bytes go to unpack_record, and the run halts when that crashes or the writer gets a NULL key |
| UnpackFile.UnpackLines | src/unpack.c:34-92 | the specification of unpack_file: the lines read one after the other, numbered from 1, and the properties in `DriverProperties` are stated about it |
| UnpackFile.SetHeaderValue | src/unpack.c:38-85 | header line `n` sets its own value and leaves the other four unchanged |
| UnpackFile.HaltIsFinal | src/unpack.c:39-46 | once the run has halted, by a failed header, a crashed record or the writer's crash on a NULL key, the later lines change nothing |
| UnpackFile.UnpackFile | src/unpack.c:21-92 | the loop over the lines, with its five header branches, the length test for record lines and the stop at a crash in unpack_record or in the writer, computes exactly `UnpackLines` |
| TokenizerProperties.FoundComma | src/text.c:84-99 | the comma found is a comma, and the text searched before it holds none |
| TokenizerProperties.MissingComma | src/text.c:73-102 | no comma is found from a position iff none is left from there |
| TokenizerProperties.NextCommaMissing | src/unpack.c:116-117 | after a found comma, the next search fails iff that comma was the last one |
| TokenizerProperties.LeadingCommas | src/unpack.c:112-124 | a tokenized line has three commas, and its three searches find them in order |
| TokenizerProperties.CommaSearches | src/unpack.c:112-124 | the first, second and third comma searches fail iff the line has zero, one or two commas |
| TokenizerProperties.CrashIffFewerThanThreeCommas | src/unpack.c:112-124 | unpack_record crashes iff the line has fewer than three commas: on the partition with none, the offset with one, the timestamp with two |
| TokenizerProperties.LeadingDiagnostics | src/unpack.c:114-124 | each leading field is reported iff it is empty; the quote warning is printed iff the closing quote is misplaced |
| TokenizerProperties.LeadingFieldsAt | src/unpack.c:112-124 | cutting at the first three commas gives three comma-free fields that, each followed by its comma, begin the line |
| TokenizerProperties.LeadingFieldsBetweenCommas | src/unpack.c:112-124 | for every tokenized line: partition, offset and timestamp are the comma-free texts before the first three commas, and each is reported iff empty |
| TokenizerProperties.CommaSeparatedPrefix | src/unpack.c:113-123 | the line up to its third comma is the three fields joined and ended by commas |
| TokenizerProperties.QuotedKey | src/unpack.c:133-137 | a key that starts with a quote ends at the first "'," searched from the quote itself, and the value starts after it. A "'," right at the quote gives a NULL key. No "'," gives a NULL key and a value at index 1 |
| TokenizerProperties.PlainKey | src/unpack.c:138-142 | a plain key runs to the next comma and holds none; the value starts after it. Without a comma the key is NULL and the value starts at index 0 |
| TokenizerProperties.QuoteWithinLogicalLine | src/unpack.c:147-153 | a quote never lies in the terminator that the logical length leaves out |
| TokenizerProperties.QuotedValue | src/unpack.c:144-177 | the scan stops at the last quote within the logical line. A later quote gives the text between the two quotes, warned about iff more than two characters follow the closing one. No later quote gives the value `'` |
| TokenizerProperties.PlainValue | src/unpack.c:178-180 | an unquoted value is the text from its start to the logical end of the line, with no warning, and NULL if it would start past that end |
| RoundTrip.KeyOfEncoding | src/unpack.c:126-142 | a key written plain or quoted and followed by its comma is cut out unchanged, and the value starts after the comma |
| RoundTrip.ValueOfEncoding | src/unpack.c:144-180 | a value written plain or quoted and followed by a line ending is cut out unchanged, with no warning |
| RoundTrip.RecordRoundTrip | src/unpack.c:102-180 | any line `p,o,ts,key,value` + line ending, with comma-free leading fields and a cut-safe key and value, is tokenized back into exactly those five fields, warning only about empty leading fields |
| RoundTrip.QuotedValueCutAtLastQuote | src/unpack.c:151-176 | the known truncation: a value `'a'b` whose tail `b` holds no quote and does not end in '\r' or '\n' becomes `a`, warned about iff `b` has at least two characters |
| RoundTrip.OpeningQuoteOnly | src/unpack.c:151-158 | a value `'b` with no further quote is the single quote character, and the rest of the value is lost |
| RoundTrip.PlainRecordWithoutKey | src/unpack.c:138-142 | a line with exactly three commas, whose key does not start with a quote, has a NULL key |
| RoundTrip.PlainRecordJoins | src/unpack.c:112-180 | a line with at least four commas, whose key and value do not start with a quote, is tokenized into five present fields, and those fields joined by commas give back the line up to its terminator; quotes inside the key or the value change nothing |
| RoundTrip.PlainRecordRebuildsLine | src/unpack.c:112-180 | stated by comma count: a quote-free line with three commas is tokenized; its key is found iff it has a fourth comma, and then the five fields joined by commas give back the line up to its terminator |
| DriverProperties.HeaderValueBeforeLineFeed | src/unpack.c:38-46 | a header line "label value\n", with a non-empty value free of line feeds, yields exactly that value |
| DriverProperties.HeaderValueKeepsCarriageReturn | src/text.c:141-151 | a header line ending in "\r\n" yields its value with the '\r' kept |
| DriverProperties.EmptyHeaderValueIsMissing | src/text.c:139-147 | an empty header value followed by "\n" counts as a missing right delimiter; a bare label makes the search start past the terminator |
| DriverProperties.HeaderWithoutLineFeed | src/text.c:141-147 | a header value with no line feed after it is a missing right delimiter |
| DriverProperties.HeaderPrefix | src/unpack.c:38-85 | within the header nothing is written. Either every line read set its value, or the run stopped at the first failing header line, after the earlier lines set theirs |
| DriverProperties.HeaderOnlyFileWritesNothing | src/unpack.c:34-92 | a file of at most five lines hands no record on |
| DriverProperties.RecordLinesKeepHeader | src/unpack.c:86-91 | record lines never change the header; a header failure stays the final state; a successful header never fails later |
| DriverProperties.HeaderFailsIffStatusNonZero | src/unpack.c:39-46 | a header line halts the run iff copy_text_between's status code is non-zero, the test exit_on_failure makes |
| DriverProperties.HeaderValues | src/unpack.c:38-85 | when no header line failed, each of the five values is what `copy_text_between` extracts from its line |
| DriverProperties.HeaderFailureIsFatal | src/unpack.c:38-85 | a header failure happens on one of the first five lines, names its error, and comes before any record |
| DriverProperties.RecordsAreEligibleLines | src/unpack.c:86-91 | every record handed on comes from a line after the header, with at least eight bytes, among the lines read, and is unpack_record's result on it with the header's environment and topic |
| DriverProperties.RecordsInLineOrder | src/unpack.c:34-35 | records are in strictly increasing line order, each line at most once |
| DriverProperties.EveryEligibleLineIsUnpacked | src/unpack.c:86-91 | every eligible line the run has read is handed to unpack_record |
| DriverProperties.RecordsAreExactlyEligibleLines | src/unpack.c:86-91 | the line numbers of the records are exactly the eligible lines read |
| DriverProperties.CrashEndsRun | src/unpack.c:86-91 | only the last record may end the process; the run halts in unpack_record iff that record crashed, and in the writer iff it was written with a NULL key, on that record's line |
| DriverProperties.KeylessRecordCrashesWriter | src/unpack.c:138-141 | a quote-free line with exactly three commas, such as `1,2,3,abcd`, is written with a NULL key once environment and topic are set, so the writer crashes on it |
| DriverProperties.RunStopsAtKeylessRecord | src/unpack.c:185-186 | a run still going after the header halts with the writer's crash at such a line, and reads no later line |
| DriverProperties.HeaderFailureOrRecords | src/unpack.c:38-85 | a run that failed in the header hands no record on |
| DriverProperties.HeaderSetBeforeRecords | src/unpack.c:38-89 | once any record is handed on, the environment and the topic are set |
| DriverProperties.RecordOutcomeCases | src/unpack.c:185-193 | with respect to comma count and header state: crashed iff fewer than three commas; written iff three or more commas and both environment and topic set; incomplete otherwise. A written record is the tokenizer's record |
| DriverProperties.RecordsAreWrittenOrCrashed | src/unpack.c:185-193 | within a run, every record is written or crashed; the "incomplete data" branch is never taken |

## Left out

- `write_record_file` (directories and the `.json5` file), `main.c`, `mem.c`, `util.c` and the `DF` debug output of `debug.h`. These are file-system and console I/O. The model stops at the record handed to the writer.
- DriverProperties.CrashEndsRun: every directory creation in `write_record_file` is taken to succeed. Its `exit(EXIT_FAILURE)` on a failed `mkdir` (src/unpack.c:207-231) ends the process on any record, and the file system is not modelled. `CrashEndsRun`, `RecordsAreExactlyEligibleLines` and `RunStopsAtKeylessRecord` therefore describe runs in which the file system never makes the writer exit.
- The writer's `strlen(key)` on a NULL key is modelled only as the crash that ends the process (`WriterCrashed`). The directories it creates before the crash are not modelled.
- The text of every `fprintf` message. Warnings are modelled as `Diagnostic` values in print order; their wording is not modelled.
- Failing `malloc` (`exit(EXIT_FAILURE)` in `substr`, `copy_text_between` and `copy_text_from`). Memory is not modelled.
- `FREE` and other memory management. An aliasing or leak question does not arise in a model on values.
- `getline` is replaced by the sequence of raw lines. Its buffer reuse and reading errors are not modelled.
- `exit_on_failure`'s process exit becomes the halt `HeaderFailed`; the crash of `strlen(NULL)` becomes `Crashed` and the halt `RecordCrashed`.
- `line_number` wrap-around is not modelled: a file of 2^64 lines cannot be read.
- UnpackFile.LinesFit and the tokenizer require lines shorter than `SIZE_MAX`. A longer line cannot exist in memory, and the bound keeps the "not found" sentinel distinct from every position.
- Unpack.StrlenWithoutTrailingCrLf: requires `str != "\n"`. The C code reads `str[-1]` for that line, and its NULL case returning `-1` is not modelled. Its only caller passes record lines, which hold commas.
- Unpack.ExtractValue: requires `line != "\n"`, for the same reason.
- Text.CopyTextFrom: requires `1 <= offset <= |source| + 1`. For other offsets the C code reads outside the buffer.
- Text.CopyTextBetween: the `ReadsPastTerminator` outcome stands for the undefined read when the left delimiter ends the string. The C code does not stop there: `strstr(start + 1, "\n")` reads on past the NUL and, in a reused `getline` buffer, may find a stale line feed and return status 0. The model chooses to stop the run there, as the halt `HeaderFailed`.
- Text.StatusCode: requires the left delimiter not to end the string, because that is the undefined read above and has no status.
- Concurrency, signals and locale do not arise in this code.
