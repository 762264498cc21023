/** The driver side of a Spark write: the configuration read from the write options and the table
    properties, the collection of the files the tasks committed, the snapshot update that adds
    them to the table, and the clean-up of an aborted job. */
module SparkWrite {
  import opened Results
  import opened Text
  import opened DataFiles

  // Table properties, and the values used when a property is not set.
  const DefaultFileFormat: string := "write.format.default"
  const DefaultFileFormatDefault: string := "parquet"
  const WriteTargetFileSize: string := "write.target-file-size-bytes"
  const WriteTargetFileSizeDefault: int := LongMax
  const WriteAuditPublishEnabled: string := "write.wap.enabled"
  const WriteAuditPublishEnabledDefault: string := "false"
  const CommitNumRetries: string := "commit.retry.num-retries"
  const CommitNumRetriesDefault: int := 4
  const CommitMinRetryWaitMs: string := "commit.retry.min-wait-ms"
  const CommitMinRetryWaitMsDefault: int := 100
  const CommitMaxRetryWaitMs: string := "commit.retry.max-wait-ms"
  const CommitMaxRetryWaitMsDefault: int := 60000
  const CommitTotalRetryTimeMs: string := "commit.retry.total-timeout-ms"
  const CommitTotalRetryTimeMsDefault: int := 1800000

  // Write options.
  const WriteFormatOption: string := "write-format"
  const TargetFileSizeOption: string := "target-file-size"

  function GetOrDefault(m: map<string, string>, key: string, default: string): string
  {
    if key in m then m[key] else default
  }

  datatype ConfigError =
    | UnknownFormat(name: string)                       // no file format has that name
    | NotANumber(property: string, value: string)       // a numeric setting does not parse

  /** The format name that applies: the write option, else the table's default format, else
      Parquet. */
  function FormatString(tableProperties: map<string, string>, options: map<string, string>): (s: string)
    ensures WriteFormatOption in options ==> s == options[WriteFormatOption]
    ensures WriteFormatOption !in options && DefaultFileFormat in tableProperties ==> s == tableProperties[DefaultFileFormat]
    ensures WriteFormatOption !in options && DefaultFileFormat !in tableProperties ==> s == DefaultFileFormatDefault
  {
    if WriteFormatOption in options then options[WriteFormatOption]
    else GetOrDefault(tableProperties, DefaultFileFormat, DefaultFileFormatDefault)
  }

  /** The file format of the write: the format whose name is the applicable format string in upper
      case, or an error when there is none. */
  function GetFileFormat(tableProperties: map<string, string>, options: map<string, string>): (r: Result<FileFormat, ConfigError>)
    ensures r.Ok? ==> FormatName(r.value) == ToUpper(FormatString(tableProperties, options))
    ensures r.Err? ==> r.error == UnknownFormat(FormatString(tableProperties, options))
                       && forall f: FileFormat :: FormatName(f) != ToUpper(FormatString(tableProperties, options))
  {
    var name := FormatString(tableProperties, options);
    match ParseFormat(ToUpper(name))
    case Some(f) => Ok(f)
    case None => Err(UnknownFormat(name))
  }

  /** With neither the option nor the table property set, a table is written in Parquet. */
  lemma DefaultFormatIsParquet(tableProperties: map<string, string>, options: map<string, string>)
    requires WriteFormatOption !in options && DefaultFileFormat !in tableProperties
    ensures GetFileFormat(tableProperties, options) == Ok(Parquet)
  {
    ParseFormatName(Parquet);
    assert ToUpper(DefaultFileFormatDefault) == FormatName(Parquet);
  }

  /** A format named in any letter case in the write option is used whatever the table says. */
  lemma FormatOptionWins(f: FileFormat, tableProperties: map<string, string>, options: map<string, string>)
    requires WriteFormatOption in options && ToUpper(options[WriteFormatOption]) == FormatName(f)
    ensures GetFileFormat(tableProperties, options) == Ok(f)
  {
    ParseFormatName(f);
  }

  /** The target file size: the table property, or the largest long when it is not set, is always
      parsed; the write option, when present, then takes its place. */
  function TargetFileSize(tableProperties: map<string, string>, options: map<string, string>): (r: Result<int, ConfigError>)
    ensures r.Ok? ==> LongMin <= r.value <= LongMax
    ensures ParseLong(GetOrDefault(tableProperties, WriteTargetFileSize, IntToString(WriteTargetFileSizeDefault))).None?
            ==> r == Err(NotANumber(WriteTargetFileSize, GetOrDefault(tableProperties, WriteTargetFileSize, IntToString(WriteTargetFileSizeDefault))))
    ensures r.Ok? && TargetFileSizeOption in options ==> ParseLong(options[TargetFileSizeOption]) == Some(r.value)
    ensures r.Ok? && TargetFileSizeOption !in options ==>
              ParseLong(GetOrDefault(tableProperties, WriteTargetFileSize, IntToString(WriteTargetFileSizeDefault))) == Some(r.value)
  {
    var tableValue := GetOrDefault(tableProperties, WriteTargetFileSize, IntToString(WriteTargetFileSizeDefault));
    match ParseLong(tableValue)
    case None => Err(NotANumber(WriteTargetFileSize, tableValue))
    case Some(tableSize) =>
      if TargetFileSizeOption !in options then Ok(tableSize)
      else match ParseLong(options[TargetFileSizeOption])
        case None => Err(NotANumber(TargetFileSizeOption, options[TargetFileSizeOption]))
        case Some(size) => Ok(size)
  }

  /** With neither the option nor the table property set, files are never rolled over for size:
      the target is the largest long. */
  lemma DefaultTargetFileSize(tableProperties: map<string, string>, options: map<string, string>)
    requires WriteTargetFileSize !in tableProperties && TargetFileSizeOption !in options
    ensures TargetFileSize(tableProperties, options) == Ok(LongMax)
  {
    ParseIntToString(LongMax, LongMin, LongMax);
  }

  /** A well-formed option overrides a well-formed table property. */
  lemma TargetFileSizeOptionWins(tableProperties: map<string, string>, options: map<string, string>, size: int, tableSize: int)
    requires LongMin <= size <= LongMax && LongMin <= tableSize <= LongMax
    requires TargetFileSizeOption in options && options[TargetFileSizeOption] == IntToString(size)
    requires WriteTargetFileSize in tableProperties && tableProperties[WriteTargetFileSize] == IntToString(tableSize)
    ensures TargetFileSize(tableProperties, options) == Ok(size)
  {
    ParseIntToString(size, LongMin, LongMax);
    ParseIntToString(tableSize, LongMin, LongMax);
  }

  /** An integer table property, or the default when the property is not set. */
  function PropertyAsInt(properties: map<string, string>, property: string, defaultValue: int): (r: Result<int, ConfigError>)
    ensures property !in properties ==> r == Ok(defaultValue)
    ensures property in properties ==>
              && (r.Ok? <==> ParseInt(properties[property]).Some?)
              && (r.Ok? ==> r.value == ParseInt(properties[property]).value && IntMin <= r.value <= IntMax)
  {
    if property in properties then
      match ParseInt(properties[property])
      case Some(v) => Ok(v)
      case None => Err(NotANumber(property, properties[property]))
    else Ok(defaultValue)
  }

  lemma PropertyAsIntOfString(properties: map<string, string>, property: string, defaultValue: int, n: int)
    requires IntMin <= n <= IntMax && property in properties && properties[property] == IntToString(n)
    ensures PropertyAsInt(properties, property, defaultValue) == Ok(n)
  {
    ParseIntToString(n, IntMin, IntMax);
  }

  /** Write-audit-publish is enabled when the table property reads "true" in any letter case. */
  predicate IsWapTable(tableProperties: map<string, string>)
  {
    EqualsIgnoreCase(GetOrDefault(tableProperties, WriteAuditPublishEnabled, WriteAuditPublishEnabledDefault), "true")
  }

  lemma WapDisabledByDefault(tableProperties: map<string, string>)
    requires WriteAuditPublishEnabled !in tableProperties
    ensures !IsWapTable(tableProperties)
  {
    assert ToUpper("false")[0] == 'F' && ToUpper("true")[0] == 'T';
  }

  lemma WapEnabledIgnoresCase(tableProperties: map<string, string>)
    requires WriteAuditPublishEnabled in tableProperties
    requires ToUpper(tableProperties[WriteAuditPublishEnabled]) == "TRUE"
    ensures IsWapTable(tableProperties)
  {
    assert ToUpper("true") == "TRUE";
  }

  /** The job-level writer, fixed when the write starts. */
  datatype Writer = Writer(
    tableProperties: map<string, string>,
    format: FileFormat,
    replacePartitions: bool,
    applicationId: Option<string>,
    wapId: Option<string>,
    targetFileSize: int)

  /** Reads the configuration of a new write; the format is looked up first, then the target file
      size. */
  function NewWriter(tableProperties: map<string, string>, options: map<string, string>, replacePartitions: bool,
                     applicationId: Option<string>, wapId: Option<string>): (r: Result<Writer, ConfigError>)
    ensures GetFileFormat(tableProperties, options).Err? ==> r == Err(GetFileFormat(tableProperties, options).error)
    ensures GetFileFormat(tableProperties, options).Ok? && TargetFileSize(tableProperties, options).Err? ==>
              r == Err(TargetFileSize(tableProperties, options).error)
    ensures r.Ok? ==>
              && GetFileFormat(tableProperties, options) == Ok(r.value.format)
              && TargetFileSize(tableProperties, options) == Ok(r.value.targetFileSize)
              && r.value.tableProperties == tableProperties && r.value.replacePartitions == replacePartitions
              && r.value.applicationId == applicationId && r.value.wapId == wapId
  {
    match GetFileFormat(tableProperties, options)
    case Err(e) => Err(e)
    case Ok(format) =>
      match TargetFileSize(tableProperties, options)
      case Err(e) => Err(e)
      case Ok(size) => Ok(Writer(tableProperties, format, replacePartitions, applicationId, wapId, size))
  }

  /** The files of all task commit messages, in message order; a missing message (a task that sent
      none) contributes nothing. */
  function Files<K>(messages: seq<Option<TaskCommit<K>>>): (r: seq<DataFile<K>>)
    ensures messages == [] ==> r == []
  {
    if messages == [] then []
    else Files(messages[..|messages| - 1]) + MessageFiles(messages[|messages| - 1])
  }

  function MessageFiles<K>(message: Option<TaskCommit<K>>): seq<DataFile<K>>
  {
    match message
    case None => []
    case Some(c) => c.files
  }

  lemma FilesSnoc<K>(messages: seq<Option<TaskCommit<K>>>, m: Option<TaskCommit<K>>)
    ensures Files(messages + [m]) == Files(messages) + MessageFiles(m)
  {
    assert (messages + [m])[..|messages|] == messages;
  }

  lemma {:induction false} FilesConcat<K>(a: seq<Option<TaskCommit<K>>>, b: seq<Option<TaskCommit<K>>>)
    ensures Files(a + b) == Files(a) + Files(b)
    decreases |b|
  {
    if b == [] {
      assert a + b == a;
    } else {
      var b', last := b[..|b| - 1], b[|b| - 1];
      calc {
        Files(a + b);
        { assert a + b == (a + b') + [last]; FilesSnoc(a + b', last); }
        Files(a + b') + MessageFiles(last);
        { FilesConcat(a, b'); }
        (Files(a) + Files(b')) + MessageFiles(last);
        { ConcatAssociative(Files(a), Files(b'), MessageFiles(last)); }
        Files(a) + (Files(b') + MessageFiles(last));
        { assert b == b' + [last]; FilesSnoc(b', last); }
        Files(a) + Files(b);
      }
    }
  }

  lemma ConcatAssociative<T>(x: seq<T>, y: seq<T>, z: seq<T>)
    ensures (x + y) + z == x + (y + z)
  {
  }

  /** A missing message can be dropped anywhere without changing the files. */
  lemma MissingMessageContributesNothing<K>(a: seq<Option<TaskCommit<K>>>, b: seq<Option<TaskCommit<K>>>)
    ensures Files(a + [None] + b) == Files(a + b)
  {
    var none: seq<Option<TaskCommit<K>>> := [None];
    assert none[..0] == [];
    assert Files(none) == [];
    FilesConcat(a + none, b);
    FilesConcat(a, none);
    FilesConcat(a, b);
  }

  /** A file is collected exactly when some message carries it. */
  lemma {:induction false} FilesMembership<K>(messages: seq<Option<TaskCommit<K>>>, f: DataFile<K>)
    ensures f in Files(messages) <==>
              exists i :: 0 <= i < |messages| && messages[i].Some? && f in messages[i].value.files
  {
    if messages != [] {
      var init, last := messages[..|messages| - 1], messages[|messages| - 1];
      assert messages == init + [last];
      FilesSnoc(init, last);
      FilesMembership(init, f);
      if f in Files(messages) {
        if f in Files(init) {
          var i :| 0 <= i < |init| && init[i].Some? && f in init[i].value.files;
          assert messages[i] == init[i];
        } else {
          assert f in MessageFiles(last);
          assert messages[|messages| - 1] == last;
        }
      }
      if exists i :: 0 <= i < |messages| && messages[i].Some? && f in messages[i].value.files {
        var i :| 0 <= i < |messages| && messages[i].Some? && f in messages[i].value.files;
        if i < |init| {
          assert init[i] == messages[i];
        } else {
          assert f in MessageFiles(last);
        }
      }
    }
  }

  /** The kind of snapshot update a job commits: appended files, or files replacing the partitions
      they belong to. */
  datatype UpdateKind = MergeAppend | DynamicOverwrite

  /** A snapshot update of the table being built and committed: its files, its summary properties,
      whether it is only staged without becoming the current snapshot, and whether it was committed. */
  datatype SnapshotUpdate<K> = SnapshotUpdate(
    kind: UpdateKind,
    files: seq<DataFile<K>>,
    summary: map<string, string>,
    stageOnly: bool,
    committed: bool)

  /** Commits an update: tagged with the Spark application ID when there is one, and with the
      write-audit-publish ID, staged only, when the table has write-audit-publish enabled and the
      job has such an ID. */
  function CommitOperation<K>(w: Writer, operation: SnapshotUpdate<K>): (r: SnapshotUpdate<K>)
    ensures r.kind == operation.kind && r.files == operation.files && r.committed
    ensures w.applicationId.Some? ==> "spark.app.id" in r.summary && r.summary["spark.app.id"] == w.applicationId.value
    ensures IsWapTable(w.tableProperties) && w.wapId.Some? ==>
              "wap.id" in r.summary && r.summary["wap.id"] == w.wapId.value && r.stageOnly
    ensures !(IsWapTable(w.tableProperties) && w.wapId.Some?) ==> r.stageOnly == operation.stageOnly
    ensures forall k :: k in r.summary ==>
              k in operation.summary || (k == "spark.app.id" && w.applicationId.Some?)
              || (k == "wap.id" && IsWapTable(w.tableProperties) && w.wapId.Some?)
    ensures forall k :: k in operation.summary && k != "spark.app.id" && k != "wap.id" ==>
              k in r.summary && r.summary[k] == operation.summary[k]
  {
    var tagged := if w.applicationId.Some? then operation.summary["spark.app.id" := w.applicationId.value]
                  else operation.summary;
    if IsWapTable(w.tableProperties) && w.wapId.Some? then
      operation.(summary := tagged["wap.id" := w.wapId.value], stageOnly := true, committed := true)
    else
      operation.(summary := tagged, committed := true)
  }

  /** On a new update, the tags are set exactly when their conditions hold. */
  lemma CommitTags<K>(w: Writer, kind: UpdateKind, files: seq<DataFile<K>>)
    ensures var r := CommitOperation(w, SnapshotUpdate(kind, files, map[], false, false));
            && ("spark.app.id" in r.summary <==> w.applicationId.Some?)
            && ("wap.id" in r.summary <==> IsWapTable(w.tableProperties) && w.wapId.Some?)
            && (r.stageOnly <==> IsWapTable(w.tableProperties) && w.wapId.Some?)
  {
  }

  /** Adds every file to a new update of the given kind, counting them. */
  method AddFiles<K>(kind: UpdateKind, files: seq<DataFile<K>>) returns (update: SnapshotUpdate<K>, numFiles: int)
    ensures update == SnapshotUpdate(kind, files, map[], false, false)
    ensures numFiles == |files|
  {
    update := SnapshotUpdate(kind, [], map[], false, false);
    numFiles := 0;
    var i := 0;
    while i < |files|
      invariant 0 <= i <= |files|
      invariant update == SnapshotUpdate(kind, files[..i], map[], false, false)
      invariant numFiles == i
    {
      assert files[..i + 1] == files[..i] + [files[i]];
      numFiles := numFiles + 1;
      update := update.(files := update.files + [files[i]]);
      i := i + 1;
    }
    assert files[..i] == files;
  }

  /** Appends the files of all task commits to the table. */
  method Append<K>(w: Writer, messages: seq<Option<TaskCommit<K>>>) returns (committed: SnapshotUpdate<K>, numFiles: int)
    ensures committed == CommitOperation(w, SnapshotUpdate(MergeAppend, Files(messages), map[], false, false))
    ensures numFiles == |Files(messages)|
  {
    var update;
    update, numFiles := AddFiles(MergeAppend, Files(messages));
    committed := CommitOperation(w, update);
  }

  /** Replaces the partitions the files of all task commits belong to with those files. */
  method ReplacePartitions<K>(w: Writer, messages: seq<Option<TaskCommit<K>>>) returns (committed: SnapshotUpdate<K>, numFiles: int)
    ensures committed == CommitOperation(w, SnapshotUpdate(DynamicOverwrite, Files(messages), map[], false, false))
    ensures numFiles == |Files(messages)|
  {
    var update;
    update, numFiles := AddFiles(DynamicOverwrite, Files(messages));
    committed := CommitOperation(w, update);
  }

  /** Commits the job: a dynamic partition overwrite when the writer replaces partitions, an append
      otherwise; either way every collected file is in the committed update. */
  method Commit<K>(w: Writer, messages: seq<Option<TaskCommit<K>>>) returns (committed: SnapshotUpdate<K>)
    ensures committed.kind == (if w.replacePartitions then DynamicOverwrite else MergeAppend)
    ensures committed.files == Files(messages) && committed.committed
    ensures committed == CommitOperation(w, SnapshotUpdate(committed.kind, Files(messages), map[], false, false))
  {
    var numFiles;
    if w.replacePartitions {
      committed, numFiles := ReplacePartitions(w, messages);
    } else {
      committed, numFiles := Append(w, messages);
    }
  }

  /** The retry settings of the clean-up of an aborted job. */
  datatype RetryPolicy = RetryPolicy(numRetries: int, minWaitMs: int, maxWaitMs: int, totalTimeoutMs: int)

  function RetryPolicyOf(tableProperties: map<string, string>): (r: Result<RetryPolicy, ConfigError>)
    ensures var num := PropertyAsInt(tableProperties, CommitNumRetries, CommitNumRetriesDefault);
            var min := PropertyAsInt(tableProperties, CommitMinRetryWaitMs, CommitMinRetryWaitMsDefault);
            var max := PropertyAsInt(tableProperties, CommitMaxRetryWaitMs, CommitMaxRetryWaitMsDefault);
            var total := PropertyAsInt(tableProperties, CommitTotalRetryTimeMs, CommitTotalRetryTimeMsDefault);
            // The settings are read in order, and the first bad one is the error.
            && (num.Err? ==> r == Err(num.error))
            && (num.Ok? && min.Err? ==> r == Err(min.error))
            && (num.Ok? && min.Ok? && max.Err? ==> r == Err(max.error))
            && (num.Ok? && min.Ok? && max.Ok? && total.Err? ==> r == Err(total.error))
            && (r.Ok? <==> num.Ok? && min.Ok? && max.Ok? && total.Ok?)
            && (r.Ok? ==> r.value == RetryPolicy(num.value, min.value, max.value, total.value))
  {
    match PropertyAsInt(tableProperties, CommitNumRetries, CommitNumRetriesDefault)
    case Err(e) => Err(e)
    case Ok(n) =>
      match PropertyAsInt(tableProperties, CommitMinRetryWaitMs, CommitMinRetryWaitMsDefault)
      case Err(e) => Err(e)
      case Ok(lo) =>
        match PropertyAsInt(tableProperties, CommitMaxRetryWaitMs, CommitMaxRetryWaitMsDefault)
        case Err(e) => Err(e)
        case Ok(hi) =>
          match PropertyAsInt(tableProperties, CommitTotalRetryTimeMs, CommitTotalRetryTimeMsDefault)
          case Err(e) => Err(e)
          case Ok(total) => Ok(RetryPolicy(n, lo, hi, total))
  }

  lemma DefaultRetryPolicy(tableProperties: map<string, string>)
    requires CommitNumRetries !in tableProperties && CommitMinRetryWaitMs !in tableProperties
    requires CommitMaxRetryWaitMs !in tableProperties && CommitTotalRetryTimeMs !in tableProperties
    ensures RetryPolicyOf(tableProperties) == Ok(RetryPolicy(4, 100, 60000, 1800000))
  {
  }

  datatype AbortError = BadRetryPolicy(error: ConfigError) | DeleteFailed(paths: seq<string>)

  /** Cleans up an aborted job: the retry settings are read first, then the deletion of every
      collected file is attempted, and the files that could not be deleted are reported once all
      have been attempted. `fails` stands for the final outcome of deleting a file. */
  method Abort<K>(w: Writer, messages: seq<Option<TaskCommit<K>>>, fails: string -> bool)
    returns (policy: Result<RetryPolicy, ConfigError>, attempted: seq<string>, failure: Option<AbortError>)
    ensures policy == RetryPolicyOf(w.tableProperties)
    ensures policy.Err? ==> attempted == [] && failure == Some(BadRetryPolicy(policy.error))
    ensures policy.Ok? ==>
              && attempted == Paths(Files(messages))
              && (failure.None? <==> Failures(attempted, fails) == [])
              && (failure.Some? ==> failure == Some(DeleteFailed(Failures(attempted, fails))))
  {
    policy := RetryPolicyOf(w.tableProperties);
    if policy.Err? {
      return policy, [], Some(BadRetryPolicy(policy.error));
    }
    var failed;
    attempted, failed := DeleteAll(Paths(Files(messages)), fails);
    failure := if failed == [] then None else Some(DeleteFailed(failed));
  }
}
