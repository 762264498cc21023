# Iceberg Spark write path and schema readability checks, in Dafny

This project models two parts of Apache Iceberg: the Spark writer of package
`org.apache.iceberg.spark.source`, and the readability checks that the tests of package
`com.netflix.iceberg.types` pin down.

**The Spark data-source writer** (`Writer.java`):
- **The writer factory.** Each Spark task gets a writer from `WriterFactory.createDataWriter`: an
  unpartitioned writer when the table's partition spec has no fields, a partitioned writer otherwise.
- **Task writers.** A task writer appends rows to a current data file. When the file's length has
  reached the target file size, checked before each row, the file is closed and a new one is opened.
  A closed file with no rows is deleted. A closed file with rows becomes exactly one data-file
  descriptor. The partitioned writer also requires its rows to arrive grouped by partition key. It
  fails with an illegal-state error when a key comes back after that key's partition was closed.
- **Commit and abort.** A task commit hands the descriptors to the driver as a `TaskCommit` message.
  A task abort deletes them.
- **The driver.** The driver-side `Writer` reads its configuration: the file format and the target
  file size, each by "option, then table property, then default" precedence. It then collects the
  files of all task messages and commits one snapshot update. That update is an append, or a dynamic
  partition overwrite when the write replaces partitions. It is tagged with the Spark application ID
  and, for write-audit-publish tables, with the WAP ID, and it is only staged in that case. On abort,
  the driver deletes the collected files.

**The schema readability check** (`CheckCompatibility`, as pinned down by `TestReadabilityChecks.java`):
- **What it compares.** A read schema is compared with a write schema. Fields are matched by ID. Each
  problem found is reported as one diagnostic message.
- **What it reports.**
  - a required field that is missing;
  - a required field that is optional in the write schema;
  - optional list elements and map values;
  - a primitive that cannot be promoted;
  - a shape that cannot be read as another shape, with nothing reported below it;
  - in write mode only, struct fields out of order.

## Modules

| file | module | contents |
|---|---|---|
| `results.dfy` | `Results` | `Option`, `Result` |
| `text.dfy` | `Text` | decimal rendering and parsing of Java `int`/`long`, `%05d` padding, ASCII upper-casing, substring predicates |
| `data_files.dfy` | `DataFiles` | file formats, file-name generation, data-file descriptors, task commit messages, deletion of a list of files |
| `task_writers.dfy` | `TaskWriters` | `UnpartitionedWriter`, `PartitionKey`, `PartitionedWriter` (classes), the writer factory |
| `spark_write.dfy` | `SparkWrite` | the driver-side configuration, `files`, commit operation, append / replace partitions, abort |
| `types.dfy` | `Types` | primitive and nested types, fields, schemas, the promotion relation |
| `compatibility.dfy` | `CheckCompatibility` | the checker: structured diagnostics, their rendering, write and read mode |
| `compatibility_properties.dfy` | `CompatibilityProperties` | general properties of the checker |
| `readability_checks.dfy` | `ReadabilityChecks` | each test of `TestReadabilityChecks`, stated for all inputs of its shape |

## How the writers are modelled

- **Appenders.** An appender is a value `Appender(path, length, recordCount)`. Adding a row grows
  `length` by `rowBytes(row)`, a given function, and grows `recordCount` by one. The Java
  `currentFile` is the appender's `path`.
- **File locations.** The location of the n-th file a task opens is a given function. The factory
  builds it from `GenerateFilename` (the `%05d-%d-%s` name plus the format's extension), the n-th
  UUID and the location provider. All of these are parameters.
- **Deletion.** Files are deleted by appending their paths to a `deleted` log. Whether a deletion
  fails on commit or abort is a given predicate `fails`. The deletion of an empty file when it is
  closed always succeeds.
- **Ghost state.** Ghost fields record the rows written, the rows of the open file and the rows of
  each completed file.
- **Invariant.** `Valid()` ties this ghost state to the descriptors. Every row written is in exactly
  one file, in order. In the partitioned writer, every file's rows share its partition, and the
  partitions of the completed files form contiguous runs.
- **Errors.** Java exceptions are modelled as error results: a failed precondition check, an NPE on
  a writer without an open appender, the duplicate-partition error, and the deletion failures that
  are thrown once all deletions have been tried.

## Model

| member | source | states |
|---|---|---|
| DataFiles.FormatName | spark/src/main/java/org/apache/iceberg/spark/source/Writer.java:116 | the enum constant's name; its partner `DataFiles.ParseFormatName` parses it back |
| DataFiles.Extension | spark/src/main/java/org/apache/iceberg/spark/source/Writer.java:321 | the format's extension, dot included; `DataFiles.AddExtension` and `DataFiles.GenerateFilename` state that names end with it |
| DataFiles.ParseFormat | spark/src/main/java/org/apache/iceberg/spark/source/Writer.java:116 | `FileFormat.valueOf`: a name maps to the format with exactly that name, or to no format |
| DataFiles.ParseFormatName | spark/src/main/java/org/apache/iceberg/spark/source/Writer.java:116 | every format's name parses back to that format |
| DataFiles.AddExtension | spark/src/main/java/org/apache/iceberg/spark/source/Writer.java:321 | the result ends with the format's extension; an existing extension is kept and otherwise it is appended to the unchanged name |
| DataFiles.AddExtensionIdempotent | spark/src/main/java/org/apache/iceberg/spark/source/Writer.java:321 | adding the extension twice is the same as adding it once |
| DataFiles.GenerateFilename | spark/src/main/java/org/apache/iceberg/spark/source/Writer.java:320-322 | the name starts with the zero-padded partition ID (at least 5 characters), then `-`, the task ID, `-` and the UUID, and it ends with the format's extension |
| DataFiles.GenerateFilenamePartition | spark/src/main/java/org/apache/iceberg/spark/source/Writer.java:320-322 | for a partition ID below 100000 the first five characters of the name parse back to the ID |
| DataFiles.Failures | spark/src/main/java/org/apache/iceberg/spark/source/Writer.java:403-406 | a path is reported as failed exactly when it was attempted and its deletion failed |
| DataFiles.FailuresConcat | spark/src/main/java/org/apache/iceberg/spark/source/Writer.java:403-406 | the failures of two lists are the failures of each, in order |
| DataFiles.DeleteAll | spark/src/main/java/org/apache/iceberg/spark/source/Writer.java:403-406 | every path is attempted, in order, without stopping at a failure; the failures are reported only after the loop, and there are none exactly when no deletion failed |
| TaskWriters.Closed | spark/src/main/java/org/apache/iceberg/spark/source/Writer.java:414-431 | closing an appender with rows yields exactly one descriptor with its path, format, partition and record count; an empty appender or no appender yields none |
| TaskWriters.Discarded | spark/src/main/java/org/apache/iceberg/spark/source/Writer.java:422-423 | closing an appender without rows deletes exactly its file |
| TaskWriters.ClosedOrDiscarded | spark/src/main/java/org/apache/iceberg/spark/source/Writer.java:414-431 | an open appender is either deleted or turned into a descriptor, never both and never neither |
| TaskWriters.TotalRecordsFlatten | spark/src/main/java/org/apache/iceberg/spark/source/Writer.java:425-426 | when each file's record count is its number of rows, the files' record counts add up to all rows |
| TaskWriters.ContiguousAppend | spark/src/main/java/org/apache/iceberg/spark/source/Writer.java:469-478 | appending a file whose partition is absent from the list or ends it keeps the partitions in contiguous runs |
| TaskWriters.ContiguousRuns | spark/src/main/java/org/apache/iceberg/spark/source/Writer.java:469-478 | the run condition checked file by file holds exactly when, for any three files in order, the middle one has the key of the outer two whenever those share a key |
| TaskWriters.FilesHoldRecords | spark/src/main/java/org/apache/iceberg/spark/source/Writer.java:523-532 | when every completed file records its own rows, the files' record counts add up to all their rows |
| TaskWriters.GroupedAppend | spark/src/main/java/org/apache/iceberg/spark/source/Writer.java:526-532 | a new file of the current key keeps the files grouped: every key completed or current, the current key's files last, keys in runs |
| TaskWriters.GroupedComplete | spark/src/main/java/org/apache/iceberg/spark/source/Writer.java:470-471 | once the current key (null on the first row) is added to the completed partitions, every completed file belongs to a completed key |
| TaskWriters.GroupedNewKey | spark/src/main/java/org/apache/iceberg/spark/source/Writer.java:473-480 | a key that is not among the completed partitions has no file yet and can become the current key |
| TaskWriters.UnpartitionedWriter.constructor | spark/src/main/java/org/apache/iceberg/spark/source/Writer.java:361-374 | a new writer has opened its first file eagerly, holds an empty appender and no completed file |
| TaskWriters.UnpartitionedWriter.OpenCurrent | spark/src/main/java/org/apache/iceberg/spark/source/Writer.java:409-412 | an empty appender is opened on the next new location; nothing else changes |
| TaskWriters.UnpartitionedWriter.CloseCurrent | spark/src/main/java/org/apache/iceberg/spark/source/Writer.java:414-431 | afterwards no appender is open; the completed files gain exactly the closed descriptor, or the empty file is deleted; with no appender nothing changes |
| TaskWriters.UnpartitionedWriter.Write | spark/src/main/java/org/apache/iceberg/spark/source/Writer.java:377-384 | the file is rolled over exactly when its length has reached the target before the row; the row is always added to the (possibly new) appender and recorded as written; with no appender the write fails and nothing changes |
| TaskWriters.UnpartitionedWriter.AddRow | spark/src/main/java/org/apache/iceberg/spark/source/Writer.java:383 | the row goes to the open appender: its length grows by the row's bytes and its record count by one; the completed and deleted files are unchanged |
| TaskWriters.UnpartitionedWriter.Commit | spark/src/main/java/org/apache/iceberg/spark/source/Writer.java:387-394 | on a closed writer the commit fails and nothing changes, so a second commit is refused; otherwise the open file is closed and all completed files are returned in close order, holding every written row; the rows written and the count of files opened are left unchanged |
| TaskWriters.UnpartitionedWriter.Abort | spark/src/main/java/org/apache/iceberg/spark/source/Writer.java:397-407 | on a closed writer the abort fails and nothing changes; otherwise the open file is closed, every completed file's deletion is attempted, and the failures are reported after all attempts; the rows written and the count of files opened are left unchanged |
| TaskWriters.PartitionKey.Equals | spark/src/main/java/org/apache/iceberg/spark/source/Writer.java:469 | keys are equal when the other is not null and holds the same key; `TaskWriters.PartitionedWriter.Write` uses it to detect a key change |
| TaskWriters.PartitionKey.Partition | spark/src/main/java/org/apache/iceberg/spark/source/Writer.java:467 | the accumulator holds the row's key afterwards |
| TaskWriters.PartitionKey.Copy | spark/src/main/java/org/apache/iceberg/spark/source/Writer.java:480 | the copy is a new object with the same key, so later changes to the accumulator do not reach it |
| TaskWriters.PartitionedWriter.constructor | spark/src/main/java/org/apache/iceberg/spark/source/Writer.java:449-463 | a new writer has no current key, no open appender and no completed file or partition |
| TaskWriters.PartitionedWriter.OpenCurrent | spark/src/main/java/org/apache/iceberg/spark/source/Writer.java:510-513 | an empty appender is opened on the next new location inside the current key's partition; nothing else changes |
| TaskWriters.PartitionedWriter.CloseCurrent | spark/src/main/java/org/apache/iceberg/spark/source/Writer.java:515-537 | as for the unpartitioned writer, with the current key as the descriptor's partition; the key and completed partitions are unchanged |
| TaskWriters.PartitionedWriter.DiscardCurrent | spark/src/main/java/org/apache/iceberg/spark/source/Writer.java:523-524 | an appender without rows is closed and exactly its file is deleted |
| TaskWriters.PartitionedWriter.CompleteCurrent | spark/src/main/java/org/apache/iceberg/spark/source/Writer.java:525-532 | an appender with rows is closed and exactly one descriptor, tagged with the current key, is appended to the completed files |
| TaskWriters.PartitionedWriter.Write | spark/src/main/java/org/apache/iceberg/spark/source/Writer.java:466-491 | for a row of the current key, the row is added after a roll-over check as in the unpartitioned writer; on a key change, the file is closed, the old key (none on the first row) is recorded as completed, and the write fails before opening anything if the new key was completed before; otherwise a fresh copy of the key becomes current, a file is opened for it and the row is added |
| TaskWriters.PartitionedWriter.ContinuePartition | spark/src/main/java/org/apache/iceberg/spark/source/Writer.java:485-490 | a row of the current key goes to the open file after the roll-over check; with no open appender the write fails and nothing changes |
| TaskWriters.PartitionedWriter.ChangePartition | spark/src/main/java/org/apache/iceberg/spark/source/Writer.java:469-490 | on a key change the file is closed and the old key completed; a key completed before fails the write with no file opened and no row added; otherwise the row goes to the new key's first file |
| TaskWriters.PartitionedWriter.StartPartition | spark/src/main/java/org/apache/iceberg/spark/source/Writer.java:469-482 | closes the current file, adds the old key to the completed partitions, fails on a key completed before, and otherwise makes a fresh copy of the key current with a new empty appender |
| TaskWriters.PartitionedWriter.CompleteKey | spark/src/main/java/org/apache/iceberg/spark/source/Writer.java:471 | the current key is added to the completed partitions, which then hold the keys of all completed files |
| TaskWriters.PartitionedWriter.NewKey | spark/src/main/java/org/apache/iceberg/spark/source/Writer.java:480-482 | a fresh copy of the accumulator becomes the current key and an empty appender is opened in its partition |
| TaskWriters.PartitionedWriter.RollAndAdd | spark/src/main/java/org/apache/iceberg/spark/source/Writer.java:485-490 | a file at or above the target size is closed and a new one opened before the row is added; otherwise the row goes to the open file |
| TaskWriters.PartitionedWriter.AddRow | spark/src/main/java/org/apache/iceberg/spark/source/Writer.java:490 | the row goes to the open appender: its length grows by the row's bytes and its record count by one; nothing else changes |
| TaskWriters.PartitionedWriter.Commit | spark/src/main/java/org/apache/iceberg/spark/source/Writer.java:494-497 | with no check for a closed writer, the open file (if any) is closed and all completed files are returned, holding every written row, with the partitions in contiguous runs; the rows written, the current key, the completed partitions and the count of files opened are left unchanged |
| TaskWriters.PartitionedWriter.Abort | spark/src/main/java/org/apache/iceberg/spark/source/Writer.java:500-508 | with no check for a closed writer, the open file is closed, every completed file's deletion is attempted, and the failures are reported after all attempts; the rows written, the current key, the completed partitions and the count of files opened are left unchanged |
| TaskWriters.PartitionedWriter.DeleteCompleted | spark/src/main/java/org/apache/iceberg/spark/source/Writer.java:503-507 | the deletion of every completed file is attempted in order, and the failures are reported only after all attempts |
| TaskWriters.CreateDataWriter | spark/src/main/java/org/apache/iceberg/spark/source/Writer.java:267-276 | the writer is unpartitioned exactly when the spec has no fields; its n-th file is named by `GenerateFilename` with the n-th UUID and placed by the location provider (inside the key's partition for a partitioned writer) |
| SparkWrite.FormatString | spark/src/main/java/org/apache/iceberg/spark/source/Writer.java:113-115 | the `write-format` option wins over the table's `write.format.default`, which wins over `parquet` |
| SparkWrite.GetFileFormat | spark/src/main/java/org/apache/iceberg/spark/source/Writer.java:112-117 | the format is the one named by the applicable string in upper case; when no format has that name the result is an error |
| SparkWrite.DefaultFormatIsParquet | spark/src/main/java/org/apache/iceberg/spark/source/Writer.java:113-116 | with neither the option nor the table property set, the format is Parquet |
| SparkWrite.FormatOptionWins | spark/src/main/java/org/apache/iceberg/spark/source/Writer.java:113-116 | a format named in the option in any letter case is used, whatever the table says |
| SparkWrite.TargetFileSize | spark/src/main/java/org/apache/iceberg/spark/source/Writer.java:107-109 | the table property (default: the largest long) is always parsed, and an error there fails the write even if the option is set; the option, when set, must parse and then gives the size; the size is a long |
| SparkWrite.DefaultTargetFileSize | spark/src/main/java/org/apache/iceberg/spark/source/Writer.java:107-109 | with neither set, the target is `Long.MAX_VALUE` |
| SparkWrite.TargetFileSizeOptionWins | spark/src/main/java/org/apache/iceberg/spark/source/Writer.java:107-109 | a well-formed option overrides a well-formed table property |
| SparkWrite.PropertyAsInt | spark/src/main/java/org/apache/iceberg/spark/source/Writer.java:210-217 | a property that is not set gives the default; a set one gives its value as an `int` when it parses and an error otherwise |
| SparkWrite.PropertyAsIntOfString | spark/src/main/java/org/apache/iceberg/spark/source/Writer.java:210-217 | a property holding the decimal form of an `int` gives that `int` |
| SparkWrite.GetOrDefault | spark/src/main/java/org/apache/iceberg/spark/source/Writer.java:107-108 | the value of a key that is present, the default otherwise; `SparkWrite.TargetFileSize` states its result through it and `SparkWrite.IsWapTable` reads the property with it |
| SparkWrite.IsWapTable | spark/src/main/java/org/apache/iceberg/spark/source/Writer.java:119-122 | `Boolean.parseBoolean` of the property: true exactly for "true" in any case; `SparkWrite.WapDisabledByDefault` and `SparkWrite.WapEnabledIgnoresCase` are its properties |
| SparkWrite.WapDisabledByDefault | spark/src/main/java/org/apache/iceberg/spark/source/Writer.java:119-122 | write-audit-publish is off when the table property is not set |
| SparkWrite.WapEnabledIgnoresCase | spark/src/main/java/org/apache/iceberg/spark/source/Writer.java:119-122 | a property value that upper-cases to "TRUE", so "true" in any of its letter cases, enables write-audit-publish |
| SparkWrite.NewWriter | spark/src/main/java/org/apache/iceberg/spark/source/Writer.java:98-110 | the format is read first and its error wins; then the target file size; a writer is built from both and the given flags exactly when both succeed |
| SparkWrite.Files | spark/src/main/java/org/apache/iceberg/spark/source/Writer.java:201-208 | no messages give no files |
| SparkWrite.FilesSnoc | spark/src/main/java/org/apache/iceberg/spark/source/Writer.java:201-208 | one more message adds its files, or nothing for a null message, at the end |
| SparkWrite.FilesConcat | spark/src/main/java/org/apache/iceberg/spark/source/Writer.java:201-208 | the files of consecutive messages are concatenated in message order |
| SparkWrite.MissingMessageContributesNothing | spark/src/main/java/org/apache/iceberg/spark/source/Writer.java:203-204 | a null message can be dropped anywhere without changing the files |
| SparkWrite.FilesMembership | spark/src/main/java/org/apache/iceberg/spark/source/Writer.java:201-208 | a file is collected exactly when some non-null message carries it |
| SparkWrite.CommitOperation | spark/src/main/java/org/apache/iceberg/spark/source/Writer.java:139-155 | the update keeps its kind and files and is committed; `spark.app.id` is set to the application ID when there is one; `wap.id` is set and the update is staged only when the table is a WAP table and there is a WAP ID; no other summary entry changes |
| SparkWrite.CommitTags | spark/src/main/java/org/apache/iceberg/spark/source/Writer.java:139-150 | on a new update, `spark.app.id` is set iff there is an application ID, and `wap.id` is set and the update staged iff the table is a WAP table and there is a WAP ID |
| SparkWrite.AddFiles | spark/src/main/java/org/apache/iceberg/spark/source/Writer.java:161-165 | every file is added to the new update, in order, and the count is the number of files |
| SparkWrite.Append | spark/src/main/java/org/apache/iceberg/spark/source/Writer.java:158-168 | an append holding every collected file, counted, is committed |
| SparkWrite.ReplacePartitions | spark/src/main/java/org/apache/iceberg/spark/source/Writer.java:170-180 | a dynamic overwrite holding every collected file, counted, is committed |
| SparkWrite.Commit | spark/src/main/java/org/apache/iceberg/spark/source/Writer.java:131-137 | a dynamic overwrite when the writer replaces partitions, an append otherwise, holding exactly the collected files |
| SparkWrite.RetryPolicyOf | spark/src/main/java/org/apache/iceberg/spark/source/Writer.java:184-190 | the four retry settings are read with `propertyAsInt` in the order retries, minimum wait, maximum wait, total time; the first bad one is the error; with none bad the policy holds the four values |
| SparkWrite.DefaultRetryPolicy | spark/src/main/java/org/apache/iceberg/spark/source/Writer.java:184-190 | with no property set the settings are 4 retries, 100 ms, 60000 ms and 1800000 ms |
| SparkWrite.Abort | spark/src/main/java/org/apache/iceberg/spark/source/Writer.java:183-195 | the retry settings are read first and a bad one fails before any deletion; otherwise every collected file's deletion is attempted and the failures are reported after all attempts |
| Text.ParseLong | spark/src/main/java/org/apache/iceberg/spark/source/Writer.java:107-108 | `Long.parseLong`: `Text.ParseInteger` over the long range; a result lies in that range, and `Text.ParseIntToString` gives the round trip |
| Text.ParseInt | spark/src/main/java/org/apache/iceberg/spark/source/Writer.java:210-215 | `Integer.parseInt`: `Text.ParseInteger` over the int range, with the same properties |
| Text.ToUpper | spark/src/main/java/org/apache/iceberg/spark/source/Writer.java:116 | `toUpperCase(Locale.ENGLISH)`: the same length, each character upper-cased |
| Text.EqualsIgnoreCase | spark/src/main/java/org/apache/iceberg/spark/source/Writer.java:119-122 | equal up to case exactly when the lengths agree and every pair of characters upper-cases to the same character |
| Text.ParseInteger | spark/src/main/java/org/apache/iceberg/spark/source/Writer.java:107-108 | a parsed value lies in the requested range; the empty string does not parse |
| Text.ParseIntToString | spark/src/main/java/org/apache/iceberg/spark/source/Writer.java:107-108 | the decimal form of a number in range parses back to it |
| Text.ZeroPad | spark/src/main/java/org/apache/iceberg/spark/source/Writer.java:321 | `%05d`: at least the width, and exactly the width when the number is short enough |
| Text.ParseZeroPad | spark/src/main/java/org/apache/iceberg/spark/source/Writer.java:321 | a zero-padded number parses back to the number |
| Types.IsPromotionAllowed | api/src/test/java/com/netflix/iceberg/types/TestReadabilityChecks.java:31-67 | identity, int to long, float to double, and a decimal to one of the same scale and no smaller precision, nothing else; `Types.PromotionIsPartialOrder` proves it a partial order and `CompatibilityProperties.PrimitivePair` ties it to the errors |
| Types.PrimitiveName | api/src/test/java/com/netflix/iceberg/types/TestReadabilityChecks.java:63-64 | the primitive's name as the messages spell it; `ReadabilityChecks.PrimitiveReadAsNested` uses it |
| Types.KindName | api/src/test/java/com/netflix/iceberg/types/TestReadabilityChecks.java:69-111 | "struct", "list", "map" or the primitive's name; `CompatibilityProperties.ShapeMismatch` states the message it appears in |
| Types.PromotionIsPartialOrder | api/src/test/java/com/netflix/iceberg/types/TestReadabilityChecks.java:59 | promotion is reflexive, antisymmetric and transitive |
| CheckCompatibility.TypeErrors | api/src/test/java/com/netflix/iceberg/types/TestReadabilityChecks.java:52-113 | the errors of reading one type as another; `CompatibilityProperties.PrimitivePair`, `CompatibilityProperties.ShapeMismatch`, `CompatibilityProperties.SelfCompatible` and `CompatibilityProperties.ReadModeIgnoresOrder` state them |
| CheckCompatibility.FieldErrors | api/src/test/java/com/netflix/iceberg/types/TestReadabilityChecks.java:116-198 | a read field against the write field with its ID; `CompatibilityProperties.FieldMatchedById` and `CompatibilityProperties.FieldReadModeIgnoresOrder` state it |
| CheckCompatibility.FieldsErrors | api/src/test/java/com/netflix/iceberg/types/TestReadabilityChecks.java:215-231 | the errors of each read field in read order; `CompatibilityProperties.FieldsErrorsConcat`, `CompatibilityProperties.FieldsErrorsEach` and `CompatibilityProperties.FieldsMatchedById` state it |
| CheckCompatibility.OrderErrors | api/src/test/java/com/netflix/iceberg/types/TestReadabilityChecks.java:342-359 | fields out of write order; `CompatibilityProperties.OrderErrorsInOrder` and `CompatibilityProperties.OrderErrorsAreOrderIssues` state it |
| CheckCompatibility.SchemaErrors | api/src/test/java/com/netflix/iceberg/types/TestReadabilityChecks.java:116-137 | the errors of the two schemas' top-level structs; the `ReadabilityChecks` lemmas state them for each test's shape |
| CheckCompatibility.WriteCompatibilityErrors | api/src/test/java/com/netflix/iceberg/types/TestReadabilityChecks.java:52-359 | the rendered write-mode errors; `ReadabilityChecks.PrimitiveTypes` through `ReadabilityChecks.StructReordering` state them |
| CheckCompatibility.ReadCompatibilityErrors | api/src/test/java/com/netflix/iceberg/types/TestReadabilityChecks.java:362-375 | the rendered read-mode errors; `CompatibilityProperties.ReadModeNeverOutOfOrder` and `ReadabilityChecks.StructReordering` state them |
| CheckCompatibility.Render | api/src/test/java/com/netflix/iceberg/types/TestReadabilityChecks.java:63-64 | the rendered message contains the issue's phrase |
| CheckCompatibility.IndexById | api/src/test/java/com/netflix/iceberg/types/TestReadabilityChecks.java:116-126 | the position of the first field with the ID, or none when no field has it |
| CompatibilityProperties.WithoutOrderIssues | api/src/test/java/com/netflix/iceberg/types/TestReadabilityChecks.java:362-375 | keeps exactly the diagnostics that are not ordering problems |
| CompatibilityProperties.FieldReadModeIgnoresOrder | api/src/test/java/com/netflix/iceberg/types/TestReadabilityChecks.java:342-375 | a field's read-mode errors are its write-mode errors without the ordering ones |
| CompatibilityProperties.FieldsReadModeIgnoresOrder | api/src/test/java/com/netflix/iceberg/types/TestReadabilityChecks.java:342-375 | the same for a list of read fields |
| CompatibilityProperties.IndexByIdUnique | api/src/test/java/com/netflix/iceberg/types/TestReadabilityChecks.java:116-126 | with unique IDs, a field is found by its own ID at its own position |
| CompatibilityProperties.OrderErrorsInOrder | api/src/test/java/com/netflix/iceberg/types/TestReadabilityChecks.java:342-359 | fields written in read order give no ordering error |
| CompatibilityProperties.FieldsSelfCompatible | api/src/test/java/com/netflix/iceberg/types/TestReadabilityChecks.java:59-60 | read fields each matched by an identical write field give no error |
| CompatibilityProperties.IndexByIdIgnoresNames | api/src/test/java/com/netflix/iceberg/types/TestReadabilityChecks.java:116-126 | the lookup by ID does not depend on the fields' names |
| CompatibilityProperties.FieldMatchedById | api/src/test/java/com/netflix/iceberg/types/TestReadabilityChecks.java:116-126 | renaming write fields does not change a read field's errors |
| CompatibilityProperties.ReadModeIgnoresOrder | api/src/test/java/com/netflix/iceberg/types/TestReadabilityChecks.java:342-375 | read mode reports exactly the write-mode diagnostics minus the ordering ones, at every depth |
| CompatibilityProperties.ReadModeNeverOutOfOrder | api/src/test/java/com/netflix/iceberg/types/TestReadabilityChecks.java:362-375 | read mode never reports an ordering problem |
| CompatibilityProperties.OrderErrorsAreOrderIssues | api/src/test/java/com/netflix/iceberg/types/TestReadabilityChecks.java:342-359 | the ordering check reports only ordering problems |
| CompatibilityProperties.SelfCompatible | api/src/test/java/com/netflix/iceberg/types/TestReadabilityChecks.java:59-60 | a type with unique field IDs is compatible with itself in both modes |
| CompatibilityProperties.FieldsErrorsConcat | api/src/test/java/com/netflix/iceberg/types/TestReadabilityChecks.java:215-231 | the errors of consecutive read fields are concatenated in read order, without short-circuiting |
| CompatibilityProperties.FieldsErrorsEach | api/src/test/java/com/netflix/iceberg/types/TestReadabilityChecks.java:215-231 | each read field's errors appear, in place, among those of its struct |
| CompatibilityProperties.FieldsMatchedById | api/src/test/java/com/netflix/iceberg/types/TestReadabilityChecks.java:116-126 | renaming write fields does not change the errors: fields are matched by ID |
| CompatibilityProperties.ReadModeMatchedById | api/src/test/java/com/netflix/iceberg/types/TestReadabilityChecks.java:116-126 | the same for a whole struct in read mode |
| CompatibilityProperties.ShapeMismatch | api/src/test/java/com/netflix/iceberg/types/TestReadabilityChecks.java:201-212 | when the shapes differ there is exactly one diagnostic, "… cannot be read as a …", and nothing deeper |
| CompatibilityProperties.PrimitivePair | api/src/test/java/com/netflix/iceberg/types/TestReadabilityChecks.java:53-67 | two primitives give no error iff promotion is allowed, otherwise exactly one promotion error |
| ReadabilityChecks.PrimitiveTypes | api/src/test/java/com/netflix/iceberg/types/TestReadabilityChecks.java:52-67 | for every pair of primitives, write compatibility of one-field schemas gives 0 errors iff promotion is allowed, else exactly one containing "cannot be promoted to" |
| ReadabilityChecks.PromotionSamples | api/src/test/java/com/netflix/iceberg/types/TestReadabilityChecks.java:31-49 | int to int is allowed, int to float, double and string are not, and every test primitive promotes to itself |
| ReadabilityChecks.PrimitiveReadAsNested | api/src/test/java/com/netflix/iceberg/types/TestReadabilityChecks.java:69-111 | a primitive read as a struct, a list, or a map (as value or key) gives one error containing "cannot be read as a struct/list/map" |
| ReadabilityChecks.RequiredSchemaField | api/src/test/java/com/netflix/iceberg/types/TestReadabilityChecks.java:116-125 | a required read field that is optional in the write schema, under another name, gives exactly one "should be required, but is optional" |
| ReadabilityChecks.MissingSchemaField | api/src/test/java/com/netflix/iceberg/types/TestReadabilityChecks.java:128-137 | a required read field whose ID is absent gives exactly one "is required, but is missing" |
| ReadabilityChecks.RequiredStructField | api/src/test/java/com/netflix/iceberg/types/TestReadabilityChecks.java:140-153 | the same optionality error one struct down |
| ReadabilityChecks.OptionalStructField | api/src/test/java/com/netflix/iceberg/types/TestReadabilityChecks.java:140-153 | the exact diagnostics: one optionality error at the nested path |
| ReadabilityChecks.MissingStructField | api/src/test/java/com/netflix/iceberg/types/TestReadabilityChecks.java:156-182 | a missing nested field gives one "is required, but is missing" when required and no error when optional |
| ReadabilityChecks.IncompatibleStructField | api/src/test/java/com/netflix/iceberg/types/TestReadabilityChecks.java:185-198 | a nested primitive that cannot be promoted gives one "cannot be promoted to" error |
| ReadabilityChecks.FieldPromotion | api/src/test/java/com/netflix/iceberg/types/TestReadabilityChecks.java:185-198 | a field whose primitive cannot be promoted gives the optionality error when the write field is optional, then the promotion error |
| ReadabilityChecks.NestedPromotion | api/src/test/java/com/netflix/iceberg/types/TestReadabilityChecks.java:185-198 | the same one struct down, with the path through the struct |
| ReadabilityChecks.IncompatibleStructAndPrimitive | api/src/test/java/com/netflix/iceberg/types/TestReadabilityChecks.java:201-212 | a struct read as a primitive gives one "struct cannot be read as a …" error |
| ReadabilityChecks.StructColumnAsPrimitive | api/src/test/java/com/netflix/iceberg/types/TestReadabilityChecks.java:201-212 | the exact diagnostics: one "struct cannot be read as" error at the column, whatever the struct's fields |
| ReadabilityChecks.MultipleErrors | api/src/test/java/com/netflix/iceberg/types/TestReadabilityChecks.java:215-231 | a field that is optional and not promotable gives two errors, optionality first |
| ReadabilityChecks.RequiredMapValue | api/src/test/java/com/netflix/iceberg/types/TestReadabilityChecks.java:234-247 | a required read map value that is optional in the write map gives one "values should be required, but are optional" |
| ReadabilityChecks.IncompatibleMapKey | api/src/test/java/com/netflix/iceberg/types/TestReadabilityChecks.java:250-263 | a map key that cannot be promoted gives one promotion error |
| ReadabilityChecks.IncompatibleMapValue | api/src/test/java/com/netflix/iceberg/types/TestReadabilityChecks.java:266-279 | a map value that cannot be promoted gives one promotion error |
| ReadabilityChecks.IncompatibleNestedAndPrimitive | api/src/test/java/com/netflix/iceberg/types/TestReadabilityChecks.java:282-293 | a map or a list read as a primitive gives one "map/list cannot be read as a …" error |
| ReadabilityChecks.RequiredListElement | api/src/test/java/com/netflix/iceberg/types/TestReadabilityChecks.java:296-309 | a required read list element that is optional in the write list gives one "elements should be required, but are optional" |
| ReadabilityChecks.IncompatibleListElement | api/src/test/java/com/netflix/iceberg/types/TestReadabilityChecks.java:312-325 | a list element that cannot be promoted gives one promotion error |
| ReadabilityChecks.SwappedFields | api/src/test/java/com/netflix/iceberg/types/TestReadabilityChecks.java:342-375 | two swapped fields have no field errors, and the ordering check reports the second read field out of order, before the first |
| ReadabilityChecks.StructReordering | api/src/test/java/com/netflix/iceberg/types/TestReadabilityChecks.java:342-375 | write compatibility of a struct with swapped fields gives one message containing "<second read field> is out of order, before <first read field>"; read compatibility gives no error |
| ReadabilityChecks.RenderedFieldName | api/src/test/java/com/netflix/iceberg/types/TestReadabilityChecks.java:356-357 | the message of a field-level problem one struct down holds the inner field's name, a space, then the phrase |
| ReadabilityChecks.ReorderedColumn | api/src/test/java/com/netflix/iceberg/types/TestReadabilityChecks.java:342-375 | the exact diagnostics of a struct with two swapped fields: one ordering error in write mode, none in read mode |

## Left out

- **Appender construction.** The format-specific appenders (Parquet and Avro builders, the metrics
  configuration) are foreign libraries. An appender is a length and a record count. A new appender
  reports length 0 before its first row. The error for writing ORC ("Cannot write unknown format")
  is not modelled.
- **Output files.** `FileIO.newOutputFile`, the location provider and `EncryptionManager.encrypt` are
  given functions. The random UUID of each file name is a parameter `uuids(n)`. The epoch ID is unused.
- **Retry timing.** The exponential-backoff timing of the driver-side abort (multiplier, waits, time
  budget) is left out. The retry settings are still read, with their parse errors. `fails` gives the
  outcome of a deletion after its retries.
- **Logging.** Logging and the `System.currentTimeMillis` timing of the commit are left out.
- **Spark plumbing.** `DataSourceOptions`, `DataWriterFactory` and `InternalRow` are left out. The
  options are a map whose keys are already lower-case, since `DataSourceOptions` is case-insensitive
  in its keys.
- **Snapshot commit.** The snapshot store's own `commit()` with its conflict retry is an external
  collaborator. `CommitOperation` records that the update was committed.
- **I/O failures.** I/O errors from closing an appender are left out. The `deleteFile` of an empty file
  in `closeCurrent` (Writer.java:423 and 524) is modelled as always succeeding.
- **Table properties.** The Java driver re-reads `table.properties()` in `isWapTable`, `commitOperation`,
  `abort` and `propertyAsInt` (Writer.java:119-122, 145, 184-190, 210-212). The model reads them once,
  when the writer is created, so it assumes they do not change during the write.
- **TableProperties and FileFormat.** These classes are not part of this model. Their constants are the
  values of that code base: the `write.*` property names and defaults and the `commit.retry.*` names and
  defaults (spark_write.dfy, lines 10-23), and the format names and extensions (data_files.dfy,
  lines 8-42).
- **Metrics and split offsets.** Only the record count of the metrics is modelled.
- **PartitionKey.partition.** This is a given function `transform` from row to key.
- **PartitionKey.toPath.** It is only used in an error message; the error carries the key instead.
- SparkWrite.AddFiles: does not model the 32-bit wrap-around of the Java counter `numFiles`; the
  count only feeds a log message.
- **Character handling.** Upper-casing and digit parsing are ASCII-only. `Locale.ENGLISH` upper-casing
  and `Long.parseLong` agree with this except on non-ASCII letters and digits.
- **CheckCompatibility.java.** `CheckCompatibility.java` is not part of this model. The checker
  does what its tests assert. Where the tests leave a choice open, the model makes these choices:
  - ordering errors come after a struct's field errors;
  - nullability is checked in both modes;
  - a duplicate field ID resolves to the first field with it;
  - the messages name nested types only by their kind ("struct", "list", "map"), not by their full
    `toString`.
