# FTP source connector — a Dafny model

This project models the core of the FTP/SFTP Kafka Connect source connector
(`br.com.datastreambrasil.kafka.connector.ftp`). Each model is proved against
a specification function, and lemmas state what the code promises.

- **Enhanced task** (`FtpSourceTaskEnhanced`). One poll with no file in flight:
  - lists the input directory and stages the first file;
  - fingerprints the file and decides from the stored checkpoint where to resume;
  - skips header lines and resumed lines.

  Every poll then:
  - reads the remaining lines and drops the footer;
  - skips blank and comment lines;
  - shapes each line into a raw string or a struct through a one-slot schema cache;
  - validates it and builds a composite key;
  - emits at most `maxRecordsPerPoll` records;
  - routes failures to a dead-letter list.

  At the end of the file, the staged file is deleted, a summary is written and the source task becomes idle.
  - Module `EnhancedPolls` (enhanced_spec.dfy) holds the specification functions of the poll.
  - Module `EnhancedTasks` (enhanced_task.dfy) holds the class whose methods update the source task's fields and are proved equal to those functions.
  - Module `EnhancedFacts` (enhanced_facts.dfy) holds the properties.
- **Original task** (`FtpSourceTask`). Chunked polling:
  - it stays on one file until its reader returns null;
  - it then moves the file to the archive directory under a timestamped name.

  Modules: `ChunkedTasks` and `ChunkedTaskFacts`.
- **Validation**:
  - `ConfigurableValidators` models the rule-configuration parser and `validate`;
  - `ValidationRules` models the built-in predicates;
  - `ValidationResults` models the result value.
- **Retry**:
  - `RetryConfigs` models the capped exponential backoff;
  - `RetryClients` models the retrying client, which wraps a `RemotePorts.RemotePort`.
- **Support**:
  - `FileOffsets`: the checkpoint value and its map form;
  - `Metrics`: the counters;
  - `ConnectData`: Kafka Connect structs and schemas as values;
  - `RecordShaping`: field naming, schema signature, struct filling and the composite key;
  - `ArchiveNames`: archive and summary file names;
  - `JavaStrings`: the `String` operations the code uses (`trim`, `split`, `indexOf`, `toLowerCase` and others);
  - `RemotePorts`: the remote client as a port.

The remote server is data. For every call index it says which calls fail and with what message, and what each listing and file holds. Each port method appends its call to a history. So every poll is one function from (fields, server, history length) to (new fields, calls made, result).

Some behaviours are kept as written although they may look unintended:
- `ConfigurableValidator.java:61` splits the whole configuration on every ',' first, so a fragment never contains a comma. As a result `range(a,b)` never yields a rule (`ConfigurableValidators.RangeUnreachable`), although `src/test/java/br/com/datastreambrasil/kafka/connector/ftp/validation/ConfigurableValidatorTest.java:46-60` expects one.
- `FtpSourceTaskEnhanced.java:358` declares end of file whenever the footer count is 0, even when the record cap stopped the loop. The reader has already been drained, so lines beyond the cap are never emitted (`EnhancedFacts.NoFooterEndsFile` with `EnhancedFacts.PollWithinCap`).
- A negative `skipFooterLines` makes the window longer than the buffered lines (`EnhancedFacts.WindowBounds`).
- A resumed file skips `skipHeaderLines` lines and then `line_number` more lines (`FtpSourceTaskEnhanced.java:242-251`). But the checkpoint's `line_number` (line 296) already counts the skipped header lines (`EnhancedFacts.OpenedSkipsCounted`, `EnhancedFacts.OpenedReaderPastSkips`). With no header lines, the last checkpointed line is emitted again. With h ≥ 2 header lines, h − 1 lines are never emitted.
- A line that throws while being processed moves neither `linesProcessed` nor `linesSkipped`. The next line therefore carries the same `line_number` (`EnhancedFacts.FailedKeepsLineNumber`).
- `metricsIntervalLines == 0` makes the `%` at `FtpSourceTaskEnhanced.java:347` throw `ArithmeticException`. It does so after the first line that is neither skipped (blank or comment) nor dropped by strict validation, whether that line was emitted or failed. The whole poll then fails (`EnhancedFacts.ZeroIntervalAborts`).
- `FtpSourceTaskEnhanced.java:372` names the summary file with a `replaceAll` that also replaces the empty match at the end of the name. "data.csv" at timestamp "T" is therefore summarised in "data_T.txt_T.txt". The poll writes the summary under this as-written name (`ArchiveNames.SummaryNameAsWritten`, used by `EnhancedPolls.Finish`); the intended name is defined and proved beside it (see "## Findings").
- In the original task, a failed archive move after end of file leaves a closed reader in place. Every later poll then fails (`ChunkedTaskFacts.ClosedReaderIsStuck`).

## Model

| member | source | states |
|---|---|---|
| FileOffsets.ToMap | src/main/java/br/com/datastreambrasil/kafka/connector/ftp/model/FileOffset.java:49-57 | the map has exactly the five keys; the numbers are stored as they are; the name and hash entries are null exactly when the fields are null |
| FileOffsets.FromMap | src/main/java/br/com/datastreambrasil/kafka/connector/ftp/model/FileOffset.java:62-74 | a null or empty map gives null and nothing else does; a successful read takes each field from its entry |
| FileOffsets.FromMapToMap | src/main/java/br/com/datastreambrasil/kafka/connector/ftp/model/FileOffset.java:49-74 | `fromMap(toMap(o))` is `o` for every offset |
| FileOffsets.FromMapDefaults | src/main/java/br/com/datastreambrasil/kafka/connector/ftp/model/FileOffset.java:70-72 | a map holding only a filename gives line number, last-modified and size 0 and a null hash |
| FileOffsets.StringEntry | src/main/java/br/com/datastreambrasil/kafka/connector/ftp/model/FileOffset.java:68-69 | a missing or null entry reads as null; a number where a string is expected fails the cast |
| FileOffsets.NumberEntry | src/main/java/br/com/datastreambrasil/kafka/connector/ftp/model/FileOffset.java:70-72 | a missing key gives 0, a number gives itself, and any other entry fails the cast |
| FileOffsets.EqualsIsIdentity | src/main/java/br/com/datastreambrasil/kafka/connector/ftp/model/FileOffset.java:88-97 | `equals` holds exactly when all five fields agree |
| FileOffsets.SameFileEquivalence | src/main/java/br/com/datastreambrasil/kafka/connector/ftp/model/FileOffset.java:79-97 | `isSameFile` is reflexive, symmetric and transitive; equal offsets are the same file; null is never the same file |
| FileOffsets.SameFileNotEqual | src/main/java/br/com/datastreambrasil/kafka/connector/ftp/model/FileOffset.java:79-97 | two offsets with the same hash and size but different names are the same file without being equal |
| FileOffsets.NullHashesMatch | src/main/java/br/com/datastreambrasil/kafka/connector/ftp/model/FileOffset.java:83-84 | two null hashes with equal sizes are the same file |
| ValidationResults.Valid | src/main/java/br/com/datastreambrasil/kafka/connector/ftp/model/ValidationResult.java:19-21 | valid, with no errors |
| ValidationResults.Invalid | src/main/java/br/com/datastreambrasil/kafka/connector/ftp/model/ValidationResult.java:23-25 | invalid, with exactly the one error |
| ValidationResults.InvalidAll | src/main/java/br/com/datastreambrasil/kafka/connector/ftp/model/ValidationResult.java:14-29 | invalid even for an empty list; the errors are the given list in order, or none for null |
| ValidationResults.ToString | src/main/java/br/com/datastreambrasil/kafka/connector/ftp/model/ValidationResult.java:43-46 | "Valid" when valid, else "Invalid: " followed by the error message |
| ValidationResults.ErrorInMessage | src/main/java/br/com/datastreambrasil/kafka/connector/ftp/model/ValidationResult.java:39-41 | every error occurs in the joined message |
| ValidationResults.MessageOfOne | src/main/java/br/com/datastreambrasil/kafka/connector/ftp/model/ValidationResult.java:39-46 | one error is its own message; no errors give ""; `toString` of one error |
| ValidationResults.MessageOfTwo | src/main/java/br/com/datastreambrasil/kafka/connector/ftp/model/ValidationResult.java:39-41 | two errors are joined by "; " |
| RetryConfigs.DefaultConfig | src/main/java/br/com/datastreambrasil/kafka/connector/ftp/retry/RetryConfig.java:19-21 | `defaultConfig` is (3, 1000, 30000, 2.0) |
| RetryConfigs.ToLong | src/main/java/br/com/datastreambrasil/kafka/connector/ftp/retry/RetryConfig.java:43 | the `(long)` cast stays within the `long` bounds, lies within 1 of any in-range value and keeps non-negative values non-negative |
| RetryConfigs.CalculateBackoff | src/main/java/br/com/datastreambrasil/kafka/connector/ftp/retry/RetryConfig.java:39-44 | 0 for attempt ≤ 0; otherwise exactly the smaller of `maxBackoffMs` and the truncated `initial·multiplier^(attempt−1)` (at most both, and equal to one of them) |
| RetryConfigs.BackoffMonotone | src/main/java/br/com/datastreambrasil/kafka/connector/ftp/retry/RetryConfig.java:43-44 | with a non-negative initial backoff and multiplier ≥ 1, later attempts never wait less |
| RetryConfigs.BackoffNonNegative | src/main/java/br/com/datastreambrasil/kafka/connector/ftp/retry/RetryConfig.java:39-44 | non-negative parameters give a non-negative backoff |
| RetryConfigs.DoublingSchedule | src/test/java/br/com/datastreambrasil/kafka/connector/ftp/retry/RetryableRemoteClientTest.java:177-186 | (5, 1000, 10000, 2.0) gives 0, 1000, 2000, 4000, 8000, 10000 for attempts 0 to 5 |
| RemotePorts.Respond | src/main/java/br/com/datastreambrasil/kafka/connector/ftp/RemoteClient.java:7-21 | a call fails exactly when the server marks its index as failing (never `disconnect`), with that message; listings and streams come from the server's data |
| RemotePorts.AnswerLast | src/main/java/br/com/datastreambrasil/kafka/connector/ftp/RemoteClient.java:7-21 | the answer to a call just made is the server's response at its position |
| RemotePorts.RemotePort.constructor | src/main/java/br/com/datastreambrasil/kafka/connector/ftp/RemoteClient.java:7 | a new connection has the given server and no calls yet |
| RemotePorts.RemotePort.Invoke | src/main/java/br/com/datastreambrasil/kafka/connector/ftp/RemoteClient.java:7-21 | the call is appended to the history and answered according to its position |
| RemotePorts.RemotePort.ListFiles | src/main/java/br/com/datastreambrasil/kafka/connector/ftp/RemoteClient.java:10 | one `listFiles` call is recorded; its result is the listing or the failure |
| RemotePorts.RemotePort.RetrieveFileStream | src/main/java/br/com/datastreambrasil/kafka/connector/ftp/RemoteClient.java:12 | one call is recorded; its result is the file's bytes or the failure |
| RemotePorts.RemotePort.MoveFile | src/main/java/br/com/datastreambrasil/kafka/connector/ftp/RemoteClient.java:14 | one call is recorded; it succeeds or fails as the server says |
| RemotePorts.RemotePort.DeleteFile | src/main/java/br/com/datastreambrasil/kafka/connector/ftp/RemoteClient.java:16 | one call is recorded; it succeeds or fails as the server says |
| RemotePorts.RemotePort.WriteTextFile | src/main/java/br/com/datastreambrasil/kafka/connector/ftp/RemoteClient.java:18 | one call is recorded; it succeeds or fails as the server says |
| RetryClients.Schedule | src/main/java/br/com/datastreambrasil/kafka/connector/ftp/retry/RetryableRemoteClient.java:89-90 | the sleeps between attempts are `calculateBackoff(1..maxAttempts−1)`, one per failure that is not the last |
| RetryClients.RunCallsOnlyTheOperation | src/main/java/br/com/datastreambrasil/kafka/connector/ftp/retry/RetryableRemoteClient.java:74-108 | only the wrapped operation is called, at most the remaining attempts times |
| RetryClients.NoAttemptsLeft | src/main/java/br/com/datastreambrasil/kafka/connector/ftp/retry/RetryableRemoteClient.java:78-107 | with no attempts left (as with `maxAttempts ≤ 0` from the start), the operation is not called and the run ends exhausted with the last failure seen |
| RetryClients.SucceedingAttempt | src/main/java/br/com/datastreambrasil/kafka/connector/ftp/retry/RetryableRemoteClient.java:78-84 | a successful attempt returns the operation's value at once |
| RetryClients.LastAttempt | src/main/java/br/com/datastreambrasil/kafka/connector/ftp/retry/RetryableRemoteClient.java:85-107 | a failure on the last attempt ends with the exhaustion exception, the failure as its cause, and no sleep |
| RetryClients.RetryStep | src/main/java/br/com/datastreambrasil/kafka/connector/ftp/retry/RetryableRemoteClient.java:85-95 | a failure with attempts left and no interrupt sleeps the attempt's scheduled backoff and tries again |
| RetryClients.SkipFailures | src/main/java/br/com/datastreambrasil/kafka/connector/ftp/retry/RetryableRemoteClient.java:78-99 | k failures with attempts left add k calls, sleep the next k scheduled backoffs and continue at attempt + k |
| RetryClients.InterruptEndsRetries | src/main/java/br/com/datastreambrasil/kafka/connector/ftp/retry/RetryableRemoteClient.java:94-99 | an interrupted backoff ends with "Retry interrupted" and no further attempts |
| RetryClients.RunExhausts | src/main/java/br/com/datastreambrasil/kafka/connector/ftp/retry/RetryableRemoteClient.java:85-107 | from any attempt, failures to the end call the operation once per remaining attempt and end exhausted with the last failure as cause |
| RetryClients.AllAttemptsFail | src/main/java/br/com/datastreambrasil/kafka/connector/ftp/retry/RetryableRemoteClient.java:85-107 | an operation that always fails is called exactly `maxAttempts` times; every scheduled backoff is slept; the exception wraps the last failure |
| RetryClients.RunSucceedsAfter | src/main/java/br/com/datastreambrasil/kafka/connector/ftp/retry/RetryableRemoteClient.java:78-102 | k failures and then a success call the operation k+1 times, sleep the first k backoffs and return the value |
| RetryClients.SucceedsAfterFailures | src/main/java/br/com/datastreambrasil/kafka/connector/ftp/retry/RetryableRemoteClient.java:78-102 | an operation first succeeding on attempt k+1 is called exactly k+1 times and its result is returned |
| RetryClients.RetryableRemoteClient.constructor | src/main/java/br/com/datastreambrasil/kafka/connector/ftp/retry/RetryableRemoteClient.java:22-25 | the delegate and configuration are kept; nothing has been slept |
| RetryClients.RetryableRemoteClient.Sleep | src/main/java/br/com/datastreambrasil/kafka/connector/ftp/retry/RetryableRemoteClient.java:94-99 | a negative duration is refused; otherwise the sleep is recorded and fails exactly when it is interrupted |
| RetryClients.RetryableRemoteClient.ExecuteWithRetry | src/main/java/br/com/datastreambrasil/kafka/connector/ftp/retry/RetryableRemoteClient.java:74-108 | the loop makes exactly the calls and sleeps of the retry specification and returns its result |
| RetryClients.RetryableRemoteClient.Connect | src/main/java/br/com/datastreambrasil/kafka/connector/ftp/retry/RetryableRemoteClient.java:28-33 | `connect` retried |
| RetryClients.RetryableRemoteClient.ListFiles | src/main/java/br/com/datastreambrasil/kafka/connector/ftp/retry/RetryableRemoteClient.java:36-38 | `listFiles` retried, with the listing as the result |
| RetryClients.RetryableRemoteClient.RetrieveFileStream | src/main/java/br/com/datastreambrasil/kafka/connector/ftp/retry/RetryableRemoteClient.java:41-43 | `retrieveFileStream` retried, with the bytes as the result |
| RetryClients.RetryableRemoteClient.MoveFile | src/main/java/br/com/datastreambrasil/kafka/connector/ftp/retry/RetryableRemoteClient.java:46-51 | `moveFile` retried |
| RetryClients.RetryableRemoteClient.DeleteFile | src/main/java/br/com/datastreambrasil/kafka/connector/ftp/retry/RetryableRemoteClient.java:54-59 | `deleteFile` retried |
| RetryClients.RetryableRemoteClient.WriteTextFile | src/main/java/br/com/datastreambrasil/kafka/connector/ftp/retry/RetryableRemoteClient.java:62-67 | `writeTextFile` retried |
| RetryClients.RetryableRemoteClient.Disconnect | src/main/java/br/com/datastreambrasil/kafka/connector/ftp/retry/RetryableRemoteClient.java:69-72 | the delegate's `disconnect` is called exactly once, with no retry |
| Metrics.ProcessingMetrics.constructor | src/main/java/br/com/datastreambrasil/kafka/connector/ftp/metrics/ProcessingMetrics.java:9-17 | every counter starts at zero, with no current file |
| Metrics.ProcessingMetrics.StartFile | src/main/java/br/com/datastreambrasil/kafka/connector/ftp/metrics/ProcessingMetrics.java:19-23 | sets the name and start time and zeroes the current-file lines; nothing else changes |
| Metrics.ProcessingMetrics.EndFile | src/main/java/br/com/datastreambrasil/kafka/connector/ftp/metrics/ProcessingMetrics.java:25-30 | adds 1 to the files total and clears the current-file fields; nothing else changes |
| Metrics.ProcessingMetrics.IncrementLines | src/main/java/br/com/datastreambrasil/kafka/connector/ftp/metrics/ProcessingMetrics.java:32-35 | adds the count to the lines total and to the current-file lines; nothing else changes |
| Metrics.ProcessingMetrics.IncrementBytes | src/main/java/br/com/datastreambrasil/kafka/connector/ftp/metrics/ProcessingMetrics.java:37-39 | changes only the bytes total |
| Metrics.ProcessingMetrics.IncrementErrors | src/main/java/br/com/datastreambrasil/kafka/connector/ftp/metrics/ProcessingMetrics.java:41-43 | adds 1 to the errors total only |
| Metrics.ProcessingMetrics.IncrementValidationErrors | src/main/java/br/com/datastreambrasil/kafka/connector/ftp/metrics/ProcessingMetrics.java:45-47 | adds 1 to the validation-errors total only |
| Metrics.ProcessingMetrics.Reset | src/main/java/br/com/datastreambrasil/kafka/connector/ftp/metrics/ProcessingMetrics.java:92-101 | every counter is zero and there is no current file |
| Metrics.StartFileKeepsTotals | src/main/java/br/com/datastreambrasil/kafka/connector/ftp/metrics/ProcessingMetrics.java:19-23 | `startFile` leaves the five totals unchanged, sets the name and zeroes the current-file lines |
| Metrics.EndFileCounts | src/main/java/br/com/datastreambrasil/kafka/connector/ftp/metrics/ProcessingMetrics.java:25-30 | `endFile` adds exactly one file to the totals and clears the current file |
| Metrics.IncrementLinesBoth | src/main/java/br/com/datastreambrasil/kafka/connector/ftp/metrics/ProcessingMetrics.java:32-35 | `incrementLines(c)` raises both line counters by c |
| Metrics.ApplyContributes | src/main/java/br/com/datastreambrasil/kafka/connector/ftp/metrics/ProcessingMetrics.java:19-47 | each call other than `reset` adds exactly its own contribution to the totals |
| Metrics.ReplayTallies | src/main/java/br/com/datastreambrasil/kafka/connector/ftp/metrics/ProcessingMetrics.java:19-47 | any sequence of calls without `reset` adds its tally of files, lines, bytes and errors to the totals |
| Metrics.ReplayAfterReset | src/main/java/br/com/datastreambrasil/kafka/connector/ftp/metrics/ProcessingMetrics.java:92-101 | after a `reset`, the totals are the tally of the later calls alone |
| Metrics.ReplayPrefix | src/main/java/br/com/datastreambrasil/kafka/connector/ftp/metrics/ProcessingMetrics.java:19-101 | the counters after two runs of calls are those after the first run, then the second |
| ValidationRules.IntegerMatcherCorrect | src/main/java/br/com/datastreambrasil/kafka/connector/ftp/validation/BuiltInValidationRules.java:58-61 | the matcher accepts exactly an optional '-' followed by one or more digits |
| ValidationRules.NumericMatcherCorrect | src/main/java/br/com/datastreambrasil/kafka/connector/ftp/validation/BuiltInValidationRules.java:39-42 | the matcher accepts exactly an optional '-', digits, and optionally '.' and digits |
| ValidationRules.IntegerIsNumeric | src/main/java/br/com/datastreambrasil/kafka/connector/ftp/validation/BuiltInValidationRules.java:39-61 | every integer-valid string is numeric-valid |
| ValidationRules.EmailMatcherCorrect | src/main/java/br/com/datastreambrasil/kafka/connector/ftp/validation/BuiltInValidationRules.java:183-194 | the matcher accepts exactly the strings made of a local part over `[A-Za-z0-9+_.-]`, '@', a domain over `[A-Za-z0-9.-]`, '.', and two or more ASCII letters |
| ValidationRules.NumberPatternExamples | src/main/java/br/com/datastreambrasil/kafka/connector/ftp/validation/BuiltInValidationRules.java:39-61 | "-42" is an integer, "4.2" is numeric but not an integer, and "4.", ".5" and "" are not numeric |
| ValidationRules.EmailAccepted | src/main/java/br/com/datastreambrasil/kafka/connector/ftp/validation/BuiltInValidationRules.java:183-194 | "user@example.com" is a valid email |
| ValidationRules.EmailRejected | src/main/java/br/com/datastreambrasil/kafka/connector/ftp/validation/BuiltInValidationRules.java:183-194 | "invalid-email" is not |
| ValidationRules.NumericParses | src/main/java/br/com/datastreambrasil/kafka/connector/ftp/validation/BuiltInValidationRules.java:145-154 | every numeric-valid string parses as a decimal |
| ValidationRules.ParseDigits | src/main/java/br/com/datastreambrasil/kafka/connector/ftp/validation/BuiltInValidationRules.java:149 | a string of digits parses as its decimal value |
| ValidationRules.ParseWithFraction | src/main/java/br/com/datastreambrasil/kafka/connector/ftp/validation/BuiltInValidationRules.java:149 | "w.f" parses as the value of w plus the fraction f |
| ValidationRules.IsValid | src/main/java/br/com/datastreambrasil/kafka/connector/ftp/validation/BuiltInValidationRules.java:20-194 | every rule rejects null; only a `pattern` rule can throw, and only on an invalid regex, with the library's `PatternSyntaxException` message as its text |
| ValidationRules.NotEmptyMeaning | src/main/java/br/com/datastreambrasil/kafka/connector/ftp/validation/BuiltInValidationRules.java:20-22 | `not_empty` holds exactly for non-null values whose trimmed text is non-empty |
| ValidationRules.LengthBounds | src/main/java/br/com/datastreambrasil/kafka/connector/ftp/validation/BuiltInValidationRules.java:105-129 | `length_min(n)` holds exactly when length ≥ n, `length_max(n)` exactly when length ≤ n; both hold at the value's own length |
| ValidationRules.RangeMeaning | src/main/java/br/com/datastreambrasil/kafka/connector/ftp/validation/BuiltInValidationRules.java:145-154 | `range(min,max)` holds exactly when the value parses and lies in [min, max] |
| ValidationRules.RangeAcceptsBounds | src/main/java/br/com/datastreambrasil/kafka/connector/ftp/validation/BuiltInValidationRules.java:150 | both bounds are accepted |
| ValidationRules.RangeRejects | src/main/java/br/com/datastreambrasil/kafka/connector/ftp/validation/BuiltInValidationRules.java:148-153 | an unparsable value or one outside the bounds is rejected |
| ConfigurableValidators.TrimAll | src/main/java/br/com/datastreambrasil/kafka/connector/ftp/validation/ConfigurableValidator.java:92-94 | each parameter is trimmed, in order |
| ConfigurableValidators.Params | src/main/java/br/com/datastreambrasil/kafka/connector/ftp/validation/ConfigurableValidator.java:91-94 | a parameter text without ',' is one trimmed parameter |
| ConfigurableValidators.RuleParts | src/main/java/br/com/datastreambrasil/kafka/connector/ftp/validation/ConfigurableValidator.java:84-97 | the split fails exactly when the first '(' is the last character at an index > 0 (substring out of range) |
| ConfigurableValidators.ParseRule | src/main/java/br/com/datastreambrasil/kafka/connector/ftp/validation/ConfigurableValidator.java:82-146 | `parseRule` fails exactly where the split fails; that failure is outside its `try` |
| ConfigurableValidators.ParseRules | src/main/java/br/com/datastreambrasil/kafka/connector/ftp/validation/ConfigurableValidator.java:53-80 | the loop builds exactly the rule table of the configuration |
| ConfigurableValidators.TableOfRules | src/main/java/br/com/datastreambrasil/kafka/connector/ftp/validation/ConfigurableValidator.java:73-76 | the table has a field exactly when some entry names it, and lists that field's rules in configuration order |
| ConfigurableValidators.ConfiguredRulesInOrder | src/main/java/br/com/datastreambrasil/kafka/connector/ftp/validation/ConfigurableValidator.java:61-76 | a parsed configuration's table is the accumulation of its fragments' rules, field by field, in order |
| ConfigurableValidators.BlankConfigurationAcceptsAll | src/main/java/br/com/datastreambrasil/kafka/connector/ftp/validation/ConfigurableValidator.java:25-58 | a null or blank configuration gives no rules, and then every record is valid |
| ConfigurableValidators.UnknownNameNoRule | src/main/java/br/com/datastreambrasil/kafka/connector/ftp/validation/ConfigurableValidator.java:138-145 | an unknown rule name gives no rule |
| ConfigurableValidators.WithoutParameters | src/main/java/br/com/datastreambrasil/kafka/connector/ftp/validation/ConfigurableValidator.java:95-137 | a spec without '(' is its own name; `date` gives the "yyyyMMdd" date rule (none if the date library refuses the pattern); `length_min`, `length_max`, `pattern` and `range` give no rule |
| ConfigurableValidators.OneParameter | src/main/java/br/com/datastreambrasil/kafka/connector/ftp/validation/ConfigurableValidator.java:84-94 | `name(arg)` splits into the name and the one trimmed parameter |
| ConfigurableValidators.OneParameterRules | src/main/java/br/com/datastreambrasil/kafka/connector/ftp/validation/ConfigurableValidator.java:115-145 | `length_min(arg)` is the rule for the parsed number, or none when it does not parse; `range` with one parameter gives none |
| ConfigurableValidators.RuleNamesIgnoreCase | src/main/java/br/com/datastreambrasil/kafka/connector/ftp/validation/ConfigurableValidator.java:100 | two specs differing only in the case of the rule name give the same rule |
| ConfigurableValidators.FragmentsHaveNoComma | src/main/java/br/com/datastreambrasil/kafka/connector/ftp/validation/ConfigurableValidator.java:61 | no fragment of the configuration contains ',' |
| ConfigurableValidators.RangeUnreachable | src/main/java/br/com/datastreambrasil/kafka/connector/ftp/validation/ConfigurableValidator.java:61-131 | as written, no parsed configuration ever contains a `range` rule |
| ConfigurableValidators.CheckField | src/main/java/br/com/datastreambrasil/kafka/connector/ftp/validation/ConfigurableValidator.java:42-47 | the inner loop's errors are exactly the rule-error specification for the field |
| ConfigurableValidators.Validate | src/main/java/br/com/datastreambrasil/kafka/connector/ftp/validation/ConfigurableValidator.java:24-51 | the nested loops give exactly the validation specification's result |
| ConfigurableValidators.ValidExactlyWhenAllPass | src/main/java/br/com/datastreambrasil/kafka/connector/ftp/validation/ConfigurableValidator.java:29-50 | the result is valid exactly when every configured field is present and passes all its rules; otherwise its errors are the accumulated, non-empty list |
| ConfigurableValidators.FieldMessages | src/main/java/br/com/datastreambrasil/kafka/connector/ftp/validation/ConfigurableValidator.java:35-47 | a missing field gives exactly one "does not exist" error and runs none of its rules; a present field gives at most one error per rule |
| ConfigurableValidators.RuleErrorsBound | src/main/java/br/com/datastreambrasil/kafka/connector/ftp/validation/ConfigurableValidator.java:42-47 | at most one error per rule |
| ConfigurableValidators.RuleErrorsEmpty | src/main/java/br/com/datastreambrasil/kafka/connector/ftp/validation/ConfigurableValidator.java:42-47 | no errors for a field exactly when each of its rules holds |
| ConfigurableValidators.ErrorsEmpty | src/main/java/br/com/datastreambrasil/kafka/connector/ftp/validation/ConfigurableValidator.java:31-48 | no errors exactly when every field passes |
| ConnectData.FieldIndex | src/main/java/br/com/datastreambrasil/kafka/connector/ftp/FtpSourceTaskEnhanced.java:447 | the position of the first field with the name, or -1 when there is none |
| ConnectData.BuildFields | src/main/java/br/com/datastreambrasil/kafka/connector/ftp/FtpSourceTaskEnhanced.java:482-487 | building a schema succeeds exactly when the field names are distinct (and non-empty), and keeps the fields |
| ConnectData.NewStruct | src/main/java/br/com/datastreambrasil/kafka/connector/ftp/FtpSourceTaskEnhanced.java:463 | a new struct has the schema's fields, all null |
| ConnectData.Get | src/main/java/br/com/datastreambrasil/kafka/connector/ftp/FtpSourceTaskEnhanced.java:447 | `get` fails exactly for an unknown name, else gives that field's value |
| ConnectData.Put | src/main/java/br/com/datastreambrasil/kafka/connector/ftp/FtpSourceTaskEnhanced.java:464-467 | `put` fails for an unknown name or an ill-typed value, else changes exactly that field |
| ConnectData.GetAfterPut | src/main/java/br/com/datastreambrasil/kafka/connector/ftp/FtpSourceTaskEnhanced.java:464-467 | a value put is read back |
| RecordShaping.FieldsFor | src/main/java/br/com/datastreambrasil/kafka/connector/ftp/FtpSourceTaskEnhanced.java:482-504 | field i is named header i, or "field"+(i+1) beyond the headers, and is an optional string |
| RecordShaping.GeneratedInjective | src/main/java/br/com/datastreambrasil/kafka/connector/ftp/FtpSourceTaskEnhanced.java:503 | generated names of different positions differ |
| RecordShaping.GeneratedFieldsBuild | src/main/java/br/com/datastreambrasil/kafka/connector/ftp/FtpSourceTaskEnhanced.java:482-487 | without headers the schema always builds |
| RecordShaping.HeaderFieldsBuild | src/main/java/br/com/datastreambrasil/kafka/connector/ftp/FtpSourceTaskEnhanced.java:482-504 | with headers, the schema builds exactly when the used headers are non-empty, distinct and collide with no generated name |
| RecordShaping.HeaderCollision | src/main/java/br/com/datastreambrasil/kafka/connector/ftp/FtpSourceTaskEnhanced.java:482-487 | header "field2" on a two-part line collides with the generated name and the build fails |
| RecordShaping.SignatureDistinguishes | src/main/java/br/com/datastreambrasil/kafka/connector/ftp/FtpSourceTaskEnhanced.java:506-511 | equal signatures mean equal part counts, except when the joined headers spell "fields:"+n |
| RecordShaping.SignatureCollision | src/main/java/br/com/datastreambrasil/kafka/connector/ftp/FtpSourceTaskEnhanced.java:506-511 | the header "fields:3" makes one part and three parts share a signature |
| RecordShaping.BuildSchema | src/main/java/br/com/datastreambrasil/kafka/connector/ftp/FtpSourceTaskEnhanced.java:482-487 | the builder loop gives exactly the schema-building specification |
| RecordShaping.FillStruct | src/main/java/br/com/datastreambrasil/kafka/connector/ftp/FtpSourceTaskEnhanced.java:463-467 | the put loop gives exactly the struct-filling specification |
| RecordShaping.FreshFillAll | src/main/java/br/com/datastreambrasil/kafka/connector/ftp/FtpSourceTaskEnhanced.java:463-467 | with distinct names, filling a new struct stores each trimmed part under its field |
| RecordShaping.ShapeLineMeaning | src/main/java/br/com/datastreambrasil/kafka/connector/ftp/FtpSourceTask.java:215-240 | string mode returns the line unchanged; json mode splits on the literal tokenizer, names the fields and stores the trimmed values, or fails on clashing names |
| RecordShaping.ShapedFieldsReadBack | src/main/java/br/com/datastreambrasil/kafka/connector/ftp/FtpSourceTask.java:229-234 | field i of a shaped line reads back as the trimmed part i |
| RecordShaping.ShapeJoinedLine | src/main/java/br/com/datastreambrasil/kafka/connector/ftp/FtpSourceTask.java:217 | splitting keeps every field, trailing empty ones included: a line joined from values free of the tokenizer shapes into those values |
| RecordShaping.SampleLineShaped | src/test/java/br/com/datastreambrasil/kafka/connector/ftp/FtpSourceTaskTest.java:190-210 | "WB;20250217;1754;284;255" with headers [type,date,time,code,value] shapes into those five fields |
| RecordShaping.BuildKafkaKey | src/main/java/br/com/datastreambrasil/kafka/connector/ftp/FtpSourceTaskEnhanced.java:440-455 | the key loop gives exactly the key specification |
| RecordShaping.KeyTextJoins | src/main/java/br/com/datastreambrasil/kafka/connector/ftp/FtpSourceTaskEnhanced.java:443-452 | the key text is the non-null values joined with "_" (leading empty texts add no separator) |
| RecordShaping.KeyAbsent | src/main/java/br/com/datastreambrasil/kafka/connector/ftp/FtpSourceTaskEnhanced.java:454 | when every named field can be read, the key is null exactly when every non-null value's text is empty |
| RecordShaping.TwoFieldKey | src/main/java/br/com/datastreambrasil/kafka/connector/ftp/FtpSourceTaskEnhanced.java:440-455 | the spec "a+b" over present values x (non-empty) and y gives "x_y" |
| RecordShaping.SampleKey | src/test/java/br/com/datastreambrasil/kafka/connector/ftp/FtpSourceTaskTest.java:116-168 | "type+code" on the sample line gives "WB_284" |
| ArchiveNames.ExtensionStartMeaning | src/main/java/br/com/datastreambrasil/kafka/connector/ftp/FtpSourceTask.java:156 | the extension is the final "." followed by one or more word characters at the end of the name, if any |
| ArchiveNames.TrailingWordRunMeaning | src/main/java/br/com/datastreambrasil/kafka/connector/ftp/FtpSourceTask.java:156 | the run counted is the longest suffix of word characters |
| ArchiveNames.StemExtension | src/main/java/br/com/datastreambrasil/kafka/connector/ftp/FtpSourceTask.java:156 | the stem and the extension make up the name |
| ArchiveNames.ArchiveNameParts | src/main/java/br/com/datastreambrasil/kafka/connector/ftp/FtpSourceTask.java:156 | "_"+timestamp is inserted right before the extension; a name without one is unchanged |
| ArchiveNames.ArchiveNameWithoutDot | src/main/java/br/com/datastreambrasil/kafka/connector/ftp/FtpSourceTask.java:156 | a name without '.' is unchanged |
| ArchiveNames.SummaryNameParts | src/main/java/br/com/datastreambrasil/kafka/connector/ftp/FtpSourceTaskEnhanced.java:372 | corrected summary name: the stem followed by "_"+timestamp+".txt" |
| ArchiveNames.SummaryNameAsWrittenDoubles | src/main/java/br/com/datastreambrasil/kafka/connector/ftp/FtpSourceTaskEnhanced.java:372 | as written, a name with an extension gets the suffix twice |
| ArchiveNames.SummaryNameDoubled | src/main/java/br/com/datastreambrasil/kafka/connector/ftp/FtpSourceTaskEnhanced.java:372 | as written, "data.csv" at timestamp "T" becomes "data_T.txt_T.txt" |
| ArchiveNames.CompressedNames | src/main/java/br/com/datastreambrasil/kafka/connector/ftp/FtpSourceTaskEnhanced.java:517-524 | names ending in ".gz" or ".gzip" are decompressed; a name without '.' is not |
| ChunkedTasks.FtpSourceTask.constructor | src/main/java/br/com/datastreambrasil/kafka/connector/ftp/FtpSourceTask.java:75-79 | a new task is idle with no file in flight |
| ChunkedTasks.FtpSourceTask.BuildRecordModel | src/main/java/br/com/datastreambrasil/kafka/connector/ftp/FtpSourceTask.java:215-240 | the builder and put loops shape the line exactly as the shaping specification does |
| ChunkedTasks.FtpSourceTask.MakeRecord | src/main/java/br/com/datastreambrasil/kafka/connector/ftp/FtpSourceTask.java:114-133 | the record of one line carries its partition, clock offset, topic, key and shaped value |
| ChunkedTasks.FtpSourceTask.ReadRecord | src/main/java/br/com/datastreambrasil/kafka/connector/ftp/FtpSourceTask.java:113-133 | one `readLine` gives the record of the next line and advances the reader by one |
| ChunkedTasks.FtpSourceTask.ReadLines | src/main/java/br/com/datastreambrasil/kafka/connector/ftp/FtpSourceTask.java:111-143 | the read loop emits exactly the chunk of the specification and advances the reader past it |
| ChunkedTasks.FtpSourceTask.OpenNext | src/main/java/br/com/datastreambrasil/kafka/connector/ftp/FtpSourceTask.java:91-109 | the opening step makes exactly the specification's calls and leaves its fields |
| ChunkedTasks.FtpSourceTask.StageFile | src/main/java/br/com/datastreambrasil/kafka/connector/ftp/FtpSourceTask.java:99-109 | staging makes exactly the specification's calls and leaves its fields |
| ChunkedTasks.FtpSourceTask.ArchiveFile | src/main/java/br/com/datastreambrasil/kafka/connector/ftp/FtpSourceTask.java:145-167 | archiving makes exactly the specification's calls and leaves its fields |
| ChunkedTasks.FtpSourceTask.ContinueFile | src/main/java/br/com/datastreambrasil/kafka/connector/ftp/FtpSourceTask.java:111-172 | reading and, at end of file, archiving follow the specification |
| ChunkedTasks.FtpSourceTask.Poll | src/main/java/br/com/datastreambrasil/kafka/connector/ftp/FtpSourceTask.java:87-176 | one poll leaves the fields, makes the calls and returns or throws exactly as specified, and keeps the source task's invariant; at end of file the staged file is moved to `archiveDir` under `ArchiveNames.ArchiveName`, the timestamp put before the extension |
| ChunkedTasks.Batch | src/main/java/br/com/datastreambrasil/kafka/connector/ftp/FtpSourceTask.java:113-139 | the loop never consumes more results than there are |
| ChunkedTasks.ReadChunk | src/main/java/br/com/datastreambrasil/kafka/connector/ftp/FtpSourceTask.java:113-143 | a poll never consumes more lines than the reader holds |
| ChunkedTasks.Open | src/main/java/br/com/datastreambrasil/kafka/connector/ftp/FtpSourceTask.java:91-109 | opening keeps the source task attached: an open reader always has a file name and a staged path |
| ChunkedTasks.Stage | src/main/java/br/com/datastreambrasil/kafka/connector/ftp/FtpSourceTask.java:99-109 | staging attaches the source task to the base name of the listed path |
| ChunkedTasks.Archive | src/main/java/br/com/datastreambrasil/kafka/connector/ftp/FtpSourceTask.java:145-167 | archiving keeps the source task attached |
| ChunkedTasks.Continue | src/main/java/br/com/datastreambrasil/kafka/connector/ftp/FtpSourceTask.java:111-172 | a poll on an open file keeps the source task attached |
| ChunkedTasks.PollOutcome | src/main/java/br/com/datastreambrasil/kafka/connector/ftp/FtpSourceTask.java:87-176 | every poll keeps the source task attached |
| ChunkedTasks.BatchEnd | src/main/java/br/com/datastreambrasil/kafka/connector/ftp/FtpSourceTask.java:113-141 | a reader that ran dry under the cap ends the loop at end of file |
| ChunkedTasks.BatchFull | src/main/java/br/com/datastreambrasil/kafka/connector/ftp/FtpSourceTask.java:113 | a full chunk ends the loop without end of file |
| ChunkedTasks.BatchFailed | src/main/java/br/com/datastreambrasil/kafka/connector/ftp/FtpSourceTask.java:114-172 | a failing line ends the loop as a failure after consuming it |
| ChunkedTasks.BatchNext | src/main/java/br/com/datastreambrasil/kafka/connector/ftp/FtpSourceTask.java:114-138 | a good line is appended and the loop goes on |
| ChunkedTaskFacts.BatchMeaning | src/main/java/br/com/datastreambrasil/kafka/connector/ftp/FtpSourceTask.java:113-139 | the records are the leading successes in order; a failure stops the loop; the count is capped; end of file only when the reader ran dry under the cap |
| ChunkedTaskFacts.ReadChunkMeaning | src/main/java/br/com/datastreambrasil/kafka/connector/ftp/FtpSourceTask.java:113-143 | each poll emits at most `maxRecordsPerPoll` records, the file's next lines in order, and reaches end of file only when `readLine` returned null |
| ChunkedTaskFacts.PollOnOpenFile | src/main/java/br/com/datastreambrasil/kafka/connector/ftp/FtpSourceTask.java:113-139 | on an open file `linesProcessed` grows by one per record emitted, and a full chunk stays on the file with no remote call |
| ChunkedTaskFacts.PollWithinFile | src/main/java/br/com/datastreambrasil/kafka/connector/ftp/FtpSourceTask.java:113-143 | with at least cap lines left, exactly cap records are emitted and the same reader continues |
| ChunkedTaskFacts.PollAtEndOfFile | src/main/java/br/com/datastreambrasil/kafka/connector/ftp/FtpSourceTask.java:141-167 | at end of file the staged file is moved to the archive name; on success the source task is idle |
| ChunkedTaskFacts.ClosedReaderIsStuck | src/main/java/br/com/datastreambrasil/kafka/connector/ftp/FtpSourceTask.java:113-172 | a reader closed by a failed archive move makes every later poll throw |
| ChunkedTaskFacts.PollErrorKeepsFile | src/main/java/br/com/datastreambrasil/kafka/connector/ftp/FtpSourceTask.java:169-172 | a poll that throws does not reset the file in flight |
| ChunkedTaskFacts.EmptyListing | src/main/java/br/com/datastreambrasil/kafka/connector/ftp/FtpSourceTask.java:91-97 | an empty listing returns an empty batch after only the listing call |
| ChunkedTaskFacts.FailedListing | src/main/java/br/com/datastreambrasil/kafka/connector/ftp/FtpSourceTask.java:93-172 | a failed listing throws with the source task unchanged |
| ChunkedTaskFacts.Staging | src/main/java/br/com/datastreambrasil/kafka/connector/ftp/FtpSourceTask.java:99-108 | the first path is moved to stageDir + "/" + its base name, then opened, and the line count is reset |
| ChunkedTaskFacts.ThirtyTwoLinesAtCapTen | src/test/java/br/com/datastreambrasil/kafka/connector/ftp/FtpSourceTaskTest.java:170-187 | a 32-line file at cap 10 gives batches of 10, 10, 10 and 2, 32 records in all, and ends idle |
| EnhancedTasks.FtpSourceTaskEnhanced.constructor | src/main/java/br/com/datastreambrasil/kafka/connector/ftp/FtpSourceTaskEnhanced.java:131-166 | a new task is idle with zeroed counters and the pre-built schema cache |
| EnhancedPolls.Stage | src/main/java/br/com/datastreambrasil/kafka/connector/ftp/FtpSourceTaskEnhanced.java:191-252 | staging from idle leaves the source task attached: an open reader always has a name, a staged path and an offset for that name |
| EnhancedPolls.Open | src/main/java/br/com/datastreambrasil/kafka/connector/ftp/FtpSourceTaskEnhanced.java:179-252 | opening from idle leaves the source task attached |
| EnhancedPolls.Finish | src/main/java/br/com/datastreambrasil/kafka/connector/ftp/FtpSourceTaskEnhanced.java:363-406 | finishing a file keeps the source task attached; the summary is written under the as-written name of line 372 |
| EnhancedPolls.Process | src/main/java/br/com/datastreambrasil/kafka/connector/ftp/FtpSourceTaskEnhanced.java:254-415 | a poll on an open file keeps the source task attached |
| EnhancedPolls.AfterOpen | src/main/java/br/com/datastreambrasil/kafka/connector/ftp/FtpSourceTaskEnhanced.java:208-415 | reading a freshly opened file keeps the source task attached |
| EnhancedPolls.PollOutcome | src/main/java/br/com/datastreambrasil/kafka/connector/ftp/FtpSourceTaskEnhanced.java:174-419 | every poll keeps the source task attached |
| EnhancedTasks.FtpSourceTaskEnhanced.ReadStaged | src/main/java/br/com/datastreambrasil/kafka/connector/ftp/FtpSourceTaskEnhanced.java:208-415 | after staging, the rest of the poll follows the specification (a finished file's summary goes under the as-written name of line 372) |
| EnhancedTasks.FtpSourceTaskEnhanced.GetOrBuildSchema | src/main/java/br/com/datastreambrasil/kafka/connector/ftp/FtpSourceTaskEnhanced.java:475-490 | the method returns the schema and leaves the cache the specification gives |
| EnhancedTasks.FtpSourceTaskEnhanced.BuildRecordModel | src/main/java/br/com/datastreambrasil/kafka/connector/ftp/FtpSourceTaskEnhanced.java:457-473 | shaping through the cache, as specified |
| EnhancedTasks.FtpSourceTaskEnhanced.ProcessingError | src/main/java/br/com/datastreambrasil/kafka/connector/ftp/FtpSourceTaskEnhanced.java:563-573 | a thrown line counts an error and goes to the dead-letter list when it is enabled |
| EnhancedTasks.FtpSourceTaskEnhanced.TryLine | src/main/java/br/com/datastreambrasil/kafka/connector/ftp/FtpSourceTaskEnhanced.java:302-343 | one candidate line is validated, emitted or routed exactly as specified; the file fields are untouched |
| EnhancedTasks.FtpSourceTaskEnhanced.JudgeLine | src/main/java/br/com/datastreambrasil/kafka/connector/ftp/FtpSourceTaskEnhanced.java:308-321 | the validation branch is exactly as specified |
| EnhancedTasks.FtpSourceTaskEnhanced.EmitLine | src/main/java/br/com/datastreambrasil/kafka/connector/ftp/FtpSourceTaskEnhanced.java:322-339 | the record with its key is added and the counters move, as specified |
| EnhancedTasks.FtpSourceTaskEnhanced.ProcessLine | src/main/java/br/com/datastreambrasil/kafka/connector/ftp/FtpSourceTaskEnhanced.java:278-355 | one iteration of the filtering loop, as specified |
| EnhancedTasks.FtpSourceTaskEnhanced.ProcessLines | src/main/java/br/com/datastreambrasil/kafka/connector/ftp/FtpSourceTaskEnhanced.java:270-356 | the filtering loop gives exactly the scan of the window |
| EnhancedTasks.FtpSourceTaskEnhanced.BufferLines | src/main/java/br/com/datastreambrasil/kafka/connector/ftp/FtpSourceTaskEnhanced.java:261-264 | the drain returns all remaining lines and leaves the reader empty |
| EnhancedTasks.FtpSourceTaskEnhanced.SkipLines | src/main/java/br/com/datastreambrasil/kafka/connector/ftp/FtpSourceTaskEnhanced.java:242-251 | a skip loop reads that many lines (fewer at end of file) and counts each as skipped |
| EnhancedTasks.FtpSourceTaskEnhanced.OpenNext | src/main/java/br/com/datastreambrasil/kafka/connector/ftp/FtpSourceTaskEnhanced.java:179-252 | opening follows the specification and attaches the source task to the staged file |
| EnhancedTasks.FtpSourceTaskEnhanced.StageFile | src/main/java/br/com/datastreambrasil/kafka/connector/ftp/FtpSourceTaskEnhanced.java:191-252 | staging, fetching and fingerprinting follow the specification |
| EnhancedTasks.FtpSourceTaskEnhanced.OpenStream | src/main/java/br/com/datastreambrasil/kafka/connector/ftp/FtpSourceTaskEnhanced.java:219-251 | fingerprint, resume decision, counters and skips, as specified |
| EnhancedTasks.FtpSourceTaskEnhanced.BeginFile | src/main/java/br/com/datastreambrasil/kafka/connector/ftp/FtpSourceTaskEnhanced.java:219-239 | the new offset, resume line and reset counters, as specified |
| EnhancedTasks.FtpSourceTaskEnhanced.FinishFile | src/main/java/br/com/datastreambrasil/kafka/connector/ftp/FtpSourceTaskEnhanced.java:363-406 | the delete, the summary write under the as-written name of line 372, `endFile` and the reset, as specified |
| EnhancedTasks.FtpSourceTaskEnhanced.ProcessFile | src/main/java/br/com/datastreambrasil/kafka/connector/ftp/FtpSourceTaskEnhanced.java:254-415 | the body of a poll on an open file, as specified (a finished file's summary goes under the as-written name of line 372) |
| EnhancedTasks.FtpSourceTaskEnhanced.PollNext | src/main/java/br/com/datastreambrasil/kafka/connector/ftp/FtpSourceTaskEnhanced.java:179-415 | a poll with no file in flight, as specified (a finished file's summary goes under the as-written name of line 372) |
| EnhancedTasks.FtpSourceTaskEnhanced.Poll | src/main/java/br/com/datastreambrasil/kafka/connector/ftp/FtpSourceTaskEnhanced.java:174-419 | one poll leaves the fields, makes the calls and returns or throws exactly as specified, and keeps the source task's invariant |
| EnhancedFacts.ResumeAtCheckpoint | src/main/java/br/com/datastreambrasil/kafka/connector/ftp/FtpSourceTaskEnhanced.java:196-225 | a stored checkpoint with the new content's hash and size gives the checkpoint's line as resume line |
| EnhancedFacts.RestartOnChangedContent | src/main/java/br/com/datastreambrasil/kafka/connector/ftp/FtpSourceTaskEnhanced.java:224-232 | without a checkpoint, or with another hash or size, the resume line is 0 |
| EnhancedFacts.OpenedSkipsCounted | src/main/java/br/com/datastreambrasil/kafka/connector/ftp/FtpSourceTaskEnhanced.java:236-251 | `linesSkipped` starts at the header lines plus the resume line |
| EnhancedFacts.OpenedReaderPastSkips | src/main/java/br/com/datastreambrasil/kafka/connector/ftp/FtpSourceTaskEnhanced.java:241-251 | the reader is positioned past both skips (at most the whole file) |
| EnhancedFacts.WindowBounds | src/main/java/br/com/datastreambrasil/kafka/connector/ftp/FtpSourceTaskEnhanced.java:267-268 | the window is max(0, n − footer) ≤ n for a non-negative footer, and longer than n for a negative one |
| EnhancedFacts.SkippableLineSkipped | src/main/java/br/com/datastreambrasil/kafka/connector/ftp/FtpSourceTaskEnhanced.java:279-290 | a blank line, when blanks are skipped, and a comment line only add 1 to `linesSkipped` |
| EnhancedFacts.KeyedAppendsAtMostOne | src/main/java/br/com/datastreambrasil/kafka/connector/ftp/FtpSourceTaskEnhanced.java:322-339 | emitting a line adds at most one record, at the end |
| EnhancedFacts.AttemptAppendsAtMostOne | src/main/java/br/com/datastreambrasil/kafka/connector/ftp/FtpSourceTaskEnhanced.java:302-343 | a line that is validated, emitted or fails adds at most one record, at the end |
| EnhancedFacts.StepAppendsAtMostOne | src/main/java/br/com/datastreambrasil/kafka/connector/ftp/FtpSourceTaskEnhanced.java:278-355 | one line adds at most one primary record, at the end |
| EnhancedFacts.ScanWithinCap | src/main/java/br/com/datastreambrasil/kafka/connector/ftp/FtpSourceTaskEnhanced.java:270 | the loop never takes more than `maxRecordsPerPoll` primary records |
| EnhancedFacts.ScanWithinWindow | src/main/java/br/com/datastreambrasil/kafka/connector/ftp/FtpSourceTaskEnhanced.java:270 | records are only appended, at most one per window line |
| EnhancedFacts.ScanOnlyWindow | src/main/java/br/com/datastreambrasil/kafka/connector/ftp/FtpSourceTaskEnhanced.java:266-271 | the footer lines never influence the scan |
| EnhancedFacts.PollWithinCap | src/main/java/br/com/datastreambrasil/kafka/connector/ftp/FtpSourceTaskEnhanced.java:267-270 | a poll adds at most min(cap, window) primary records |
| EnhancedFacts.StrictDropsInvalid | src/main/java/br/com/datastreambrasil/kafka/connector/ftp/FtpSourceTaskEnhanced.java:314-318 | in strict mode an invalid record is not emitted but `linesProcessed` grows by 1 |
| EnhancedFacts.LenientEmitsInvalid | src/main/java/br/com/datastreambrasil/kafka/connector/ftp/FtpSourceTaskEnhanced.java:314-339 | in any other mode an invalid record is still emitted, with its value |
| EnhancedFacts.RejectedRoutedIff | src/main/java/br/com/datastreambrasil/kafka/connector/ftp/FtpSourceTaskEnhanced.java:551-561 | a validation failure adds a dead-letter record exactly when the dead-letter queue is enabled |
| EnhancedFacts.RejectedRecordTyped | src/main/java/br/com/datastreambrasil/kafka/connector/ftp/FtpSourceTaskEnhanced.java:551-561 | with the dead-letter queue on, a rejected line appends exactly its dead-letter record with "VALIDATION_ERROR", the joined validation message and the current line number |
| EnhancedFacts.FailedRecordTyped | src/main/java/br/com/datastreambrasil/kafka/connector/ftp/FtpSourceTaskEnhanced.java:563-573 | with the dead-letter queue on, a line that threw appends exactly its dead-letter record with "PROCESSING_ERROR", the exception's message and the current line number |
| EnhancedFacts.DlqRecordFields | src/main/java/br/com/datastreambrasil/kafka/connector/ftp/FtpSourceTaskEnhanced.java:578-604 | a dead-letter record goes to the dead-letter topic under the file's partition and the line's offset, keyed filename + ":" + line number; its fields `original_line`, `error_type`, `error_message`, `source_file`, `line_number` and `timestamp` read back as the line, the error type, the message, the file name, the line number and the instant |
| EnhancedFacts.DlqFieldIndex | src/main/java/br/com/datastreambrasil/kafka/connector/ftp/FtpSourceTaskEnhanced.java:578-585 | the six dead-letter field names are distinct, each found at its own position |
| EnhancedFacts.FailedKeepsLineNumber | src/main/java/br/com/datastreambrasil/kafka/connector/ftp/FtpSourceTaskEnhanced.java:340-343 | a line that throws moves neither line counter |
| EnhancedFacts.ZeroIntervalAborts | src/main/java/br/com/datastreambrasil/kafka/connector/ftp/FtpSourceTaskEnhanced.java:347 | a zero metrics interval makes the first non-strict candidate line abort the poll |
| EnhancedFacts.ClosedReaderIsStuck | src/main/java/br/com/datastreambrasil/kafka/connector/ftp/FtpSourceTaskEnhanced.java:408-412 | a reader left closed makes every later poll throw with no call |
| EnhancedFacts.EndOfFileDeletes | src/main/java/br/com/datastreambrasil/kafka/connector/ftp/FtpSourceTaskEnhanced.java:358-384 | when nothing aborted and the window is all lines or none, the poll ends the file and first deletes the staged file |
| EnhancedFacts.WithinFileContinues | src/main/java/br/com/datastreambrasil/kafka/connector/ftp/FtpSourceTaskEnhanced.java:358-363 | otherwise no remote call is made and the drained reader stays |
| EnhancedFacts.NoFooterEndsFile | src/main/java/br/com/datastreambrasil/kafka/connector/ftp/FtpSourceTaskEnhanced.java:358 | with no footer, every completed poll ends the file, even when the cap stopped the loop |
| EnhancedFacts.DrainedReaderEnds | src/main/java/br/com/datastreambrasil/kafka/connector/ftp/FtpSourceTaskEnhanced.java:261-384 | with a non-negative footer, a poll on an already drained reader ends the file, deleting the staged file first |
| EnhancedFacts.FinishResets | src/main/java/br/com/datastreambrasil/kafka/connector/ftp/FtpSourceTaskEnhanced.java:384-415 | after the delete and the summary write (under the as-written name of line 372) succeed, reader, filename, staged path, offset and resume line are reset and the batch is returned |
| EnhancedFacts.ProcessErrorKeepsFile | src/main/java/br/com/datastreambrasil/kafka/connector/ftp/FtpSourceTaskEnhanced.java:408-412 | a poll that throws keeps the file in flight |
| EnhancedFacts.EmptyListing | src/main/java/br/com/datastreambrasil/kafka/connector/ftp/FtpSourceTaskEnhanced.java:182-189 | an empty listing returns an empty batch, staging nothing |
| EnhancedFacts.FailedListing | src/main/java/br/com/datastreambrasil/kafka/connector/ftp/FtpSourceTaskEnhanced.java:182-189 | a failed listing throws, with the source task unchanged |
| EnhancedFacts.StagingMovesFirst | src/main/java/br/com/datastreambrasil/kafka/connector/ftp/FtpSourceTaskEnhanced.java:191-202 | the first path is moved to stageDir + "/" + its base name |
| EnhancedFacts.SchemaReused | src/main/java/br/com/datastreambrasil/kafka/connector/ftp/FtpSourceTaskEnhanced.java:476-480 | a cached schema with the same signature is reused and the cache is kept |
| EnhancedFacts.SchemaRebuilt | src/main/java/br/com/datastreambrasil/kafka/connector/ftp/FtpSourceTaskEnhanced.java:476-489 | otherwise the schema is built afresh, and a failed build leaves the cache |
| EnhancedFacts.SchemaCacheKeyed | src/main/java/br/com/datastreambrasil/kafka/connector/ftp/FtpSourceTaskEnhanced.java:476-489 | a schema obtained is cached under the signature of the field count |
| JavaStrings.Trim | src/main/java/br/com/datastreambrasil/kafka/connector/ftp/validation/ConfigurableValidator.java:70-71 | `trim` removes exactly the leading and trailing characters ≤ ' ' |
| JavaStrings.TrimIdempotent | src/main/java/br/com/datastreambrasil/kafka/connector/ftp/validation/ConfigurableValidator.java:70-71 | trimming twice is trimming once |
| JavaStrings.TrimEmptyIff | src/main/java/br/com/datastreambrasil/kafka/connector/ftp/validation/BuiltInValidationRules.java:21 | the trimmed text is empty exactly when every character is ≤ ' ' |
| JavaStrings.BaseName | src/main/java/br/com/datastreambrasil/kafka/connector/ftp/FtpSourceTask.java:100 | the text after the last '/', the whole path when there is none |
| JavaStrings.SplitOn | src/main/java/br/com/datastreambrasil/kafka/connector/ftp/FtpSourceTask.java:217 | splitting on a literal with limit -1 gives pieces free of it |
| JavaStrings.JoinSplitOn | src/main/java/br/com/datastreambrasil/kafka/connector/ftp/FtpSourceTask.java:217 | joining the pieces with the delimiter gives the line back |
| JavaStrings.SplitJoin | src/main/java/br/com/datastreambrasil/kafka/connector/ftp/FtpSourceTask.java:217 | splitting a join of delimiter-free pieces gives the pieces back |
| JavaStrings.SplitDropping | src/main/java/br/com/datastreambrasil/kafka/connector/ftp/validation/ConfigurableValidator.java:61 | a one-character `split` without limit drops trailing empty pieces |
| JavaStrings.SplitFirst | src/main/java/br/com/datastreambrasil/kafka/connector/ftp/validation/ConfigurableValidator.java:64 | `split(":", 2)` cuts at the first ':' |
| JavaStrings.ToLower | src/main/java/br/com/datastreambrasil/kafka/connector/ftp/validation/ConfigurableValidator.java:100 | `toLowerCase` maps each character |
| JavaStrings.ParseIntToString | src/main/java/br/com/datastreambrasil/kafka/connector/ftp/validation/ConfigurableValidator.java:117 | `Integer.parseInt` reads back every `int` written in decimal |

## Left out

- Connector configuration, `start` and `stop`: the source task's configuration is a datatype as `start` leaves it. `Prebuilt` gives the schema cache that `start` builds for fixed headers; the model, which has no `start`, takes a header list that fails to build (an empty or repeated name) as no pre-built schema. In the source, `buildSchemaFromHeaders` at `FtpSourceTaskEnhanced.java:139` runs before `start`'s `try` (line 144), so such a list makes `start` throw `SchemaBuilderException` and the task never polls.
- The transport clients (FTP, SFTP) and `connect`'s call sites: the remote store is the port of `RemotePorts`, whose calls fail or succeed as the server data says.
- The clock, `Thread.sleep(pollInterval)`, `LocalDateTime.now()` and `Instant.now()`: one poll's readings are the `Moment` parameter; for the original task they are a clock function and a timestamp. Retry sleeps are recorded, and which of them are interrupted is a parameter.
- MD5 hashing, GZIP decompression, charset decoding, `BufferedReader` line splitting and the encoded length of a line: functions in the `Environment` datatype. Only the ".gz"/".gzip" suffix test is modelled. A failing MD5 digest, which the code maps to "unknown", is part of that function. Decoding is total: the model takes `fileEncoding` to name a supported charset. For any other name, `new InputStreamReader(currentStream, fileEncoding)` (`FtpSourceTask.java:107`, `FtpSourceTaskEnhanced.java:235`) throws `UnsupportedEncodingException` after the staging move and the retrieve. Every poll then fails with a `ConnectException`, and each failed poll leaves one more file in `stageDir`, because `currentReader` stays null and the next poll lists again.
- The summary file's text (`String.format` with timings and lines per second): a parameter of the poll. The timing and average/maximum read-time arithmetic and logging are left out.
- `ProcessingMetrics.getCurrentFileDurationMs` and `getCurrentFileLinesPerSecond`: clock and floating point. The getters are the fields of the counters datatype.
- `RetryConfig` getters: `RetryConfig` is a datatype and its getters are its fields, so they return the constructor's arguments by construction.
- Atomic and volatile fields: sequential counters with unbounded integers; `long` wrap-around of the counters, of `linesProcessed` and of `linesSkipped` is not modelled.
- `FtpRemoteClient.completePending`, and closing readers and streams: not modelled; closing cannot fail in the model.
- `FtpSourceTask.java:141` reads `line`, which the compiler does not accept as definitely assigned when the cap stops the loop before a read. The model reads end of file only when `readLine` returned null: the loop at `FtpSourceTask.java:113` stops at a null `readLine`, and line 141 tests exactly that value.
- `HashMap` iteration order of the validator's field rules: fields are visited in the order they first appear in the configuration.
- `date` and `pattern` rules, `Double.toString` in rule messages: the `JavaLibrary` parameter (date-format check, regex match, number text). `Double.parseDouble` (`ValidationRules.ParseDecimal`) accepts exactly: the text with surrounding characters ≤ ' ' trimmed, then an optional '+' or '-', then digits with at most one '.' and at least one digit (so "5.", ".5" and "+5" parse). Java's other forms are read as unparsable: exponents, "NaN" and "Infinity", hexadecimal floats and the 'd'/'f' suffixes. The value is the exact decimal, without rounding to a double, so `range` compares exact reals.
- `toLowerCase` folds ASCII letters only.
- JavaStrings.ParseInt: reads ASCII digits '0'..'9' only. `Integer.parseInt` also accepts every character that `Character.digit(c, 10)` maps to a digit, such as "٥" (U+0665) or "５" (U+FF15), so "len:length_min(٥)" gives `LengthMin(5)` in Java and no rule here (`ConfigurableValidators.Select`). The `\d` of the numeric and integer matchers stays ASCII, as in Java's regex.
- `bufferSize` (`FtpSourceTaskEnhanced.java:105`) is not modelled; the model takes it to be positive. A size of 0 makes `readAllBytes` (lines 541-548) loop forever on every file, because `read(data, 0, 0)` returns 0 and never -1. A negative size makes `new byte[bufferSize]` (line 544) throw `NegativeArraySizeException`, so the poll fails through the catch at line 408. With a positive size, the buffer size does not change the bytes read or the lines.
- String lengths are counted in Unicode scalar values (a Dafny `string`), not UTF-16 code units as `String.length()` counts them. `length_min` and `length_max` (`ValidationRules.IsValid`) therefore differ from `BuiltInValidationRules.java:108,128` for characters outside the Basic Multilingual Plane: "😀" has length 1 here and 2 in Java.
- A dead-letter record that fails to build (the catch at `FtpSourceTaskEnhanced.java:609-611`): in the source, `put("error_message", …)` into the required STRING field throws exactly when the exception's `getMessage()` is null. Every failure in the model carries a message string, none of them null, so the record is always built.
- The charset argument of `writeTextFile`: not modelled.
- RetryConfigs.CalculateBackoff: `Math.pow` is modelled as exact real exponentiation, without double rounding.
- ValidationRules.EmailMatcherCorrect: states the language of the email regex by a direct definition of its parts; the backtracking regex engine itself is not modelled.
- EnhancedTasks.FtpSourceTaskEnhanced.constructor: requires that the validator's rule table is well formed, as the parser builds it in `start`.
- RetryConfigs.ToLong: states that the cast stays within 1 of its argument, not that it rounds toward zero.

## Findings

| source | as written | input that shows it | evidently intended | confidence | as-written member | corrected member |
|---|---|---|---|---|---|---|
| src/main/java/br/com/datastreambrasil/kafka/connector/ftp/FtpSourceTaskEnhanced.java:372 | `replaceAll("(\\.\\w+)?$", "_" + timestamp + ".txt")` also replaces the empty match at the end, after the extension was replaced | "data.csv" at timestamp "T" gives "data_T.txt_T.txt" | the extension replaced once: "data_T.txt" | high, not executed | ArchiveNames.SummaryNameAsWritten (ArchiveNames.SummaryNameDoubled, ArchiveNames.SummaryNameAsWrittenDoubles) | ArchiveNames.SummaryName (ArchiveNames.SummaryNameParts); the poll keeps the as-written name |
