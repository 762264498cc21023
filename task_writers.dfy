/** The per-task writers. A task writes its rows into a sequence of data files: the current file is
    rolled over to a new one once it has reached the target size, and each closed file is either
    discarded (no rows) or becomes exactly one data-file descriptor. Commit hands the descriptors to
    the driver; abort deletes them. The partitioned writer additionally requires its rows to arrive
    grouped by partition and fails when a partition it has already closed comes back. */
module TaskWriters {
  import opened Results
  import opened DataFiles

  /** An open file appender as seen from the writer: the file being written, its length in bytes so
      far and the number of rows added to it. */
  datatype Appender = Appender(path: string, length: int, recordCount: nat)

  datatype WriteError<K> =
    | ClosedWriter            // commit or abort called on an unpartitioned writer with no open file
    | NoOpenAppender          // a row written while no appender is open (a null dereference)
    | DuplicatePartition(partition: K)  // rows of an already closed partition arrived again
    | DeleteFailed(paths: seq<string>)  // the files whose deletion failed during abort

  /** The descriptors closing the current appender leaves behind: one when it holds rows, none when
      it is empty or there is none. */
  function Closed<K>(current: Option<Appender>, format: FileFormat, partition: Option<K>): (fs: seq<DataFile<K>>)
    ensures |fs| <= 1
    ensures fs != [] <==> current.Some? && current.value.recordCount > 0
    ensures fs != [] ==> fs == [DataFile(current.value.path, format, partition, current.value.recordCount)]
  {
    match current
    case None => []
    case Some(a) => if a.recordCount == 0 then [] else [DataFile(a.path, format, partition, a.recordCount)]
  }

  /** The files closing the current appender leaves to be deleted: its own file when it holds no row. */
  function Discarded(current: Option<Appender>): (ps: seq<string>)
    ensures |ps| <= 1
    ensures ps != [] <==> current.Some? && current.value.recordCount == 0
    ensures ps != [] ==> ps == [current.value.path]
  {
    match current
    case None => []
    case Some(a) => if a.recordCount == 0 then [a.path] else []
  }

  /** Closing an open appender either deletes its file or produces exactly one descriptor, never
      both; with no open appender it does neither. */
  lemma ClosedOrDiscarded<K>(current: Option<Appender>, format: FileFormat, partition: Option<K>)
    ensures |Closed(current, format, partition)| + |Discarded(current)| == if current.Some? then 1 else 0
  {
  }

  /** The rows of consecutive files, in file order. */
  ghost function Flatten<R>(rows: seq<seq<R>>): (r: seq<R>)
    ensures rows == [] ==> r == []
  {
    if rows == [] then [] else Flatten(rows[..|rows| - 1]) + rows[|rows| - 1]
  }

  function TotalRecords<K>(files: seq<DataFile<K>>): nat
  {
    if files == [] then 0 else TotalRecords(files[..|files| - 1]) + files[|files| - 1].recordCount
  }

  /** When each file's record count is the number of its rows, the files hold all the rows. */
  lemma {:induction false} TotalRecordsFlatten<K, R>(files: seq<DataFile<K>>, rows: seq<seq<R>>)
    requires |files| == |rows|
    requires forall i :: 0 <= i < |files| ==> files[i].recordCount == |rows[i]|
    ensures TotalRecords(files) == |Flatten(rows)|
  {
    if files != [] {
      TotalRecordsFlatten(files[..|files| - 1], rows[..|rows| - 1]);
    }
  }

  /** The writer of a task on an unpartitioned table. */
  class UnpartitionedWriter<R, K> {
    const format: FileFormat
    const targetFileSize: int
    /** The location of the n-th file this writer opens (file name generation and location provider). */
    const newLocation: nat -> string
    /** How many bytes a row adds to the length of an appender. */
    const rowBytes: R -> nat

    var currentAppender: Option<Appender>
    var completedFiles: seq<DataFile<K>>
    /** The files this writer asked the file system to delete, in order. */
    var deleted: seq<string>
    /** How many files this writer has opened. */
    var filesOpened: nat

    /** Every row written so far, the rows of the open file, and the rows of each completed file. */
    ghost var written: seq<R>
    ghost var currentRows: seq<R>
    ghost var completedRows: seq<seq<R>>

    ghost predicate Valid()
      reads this
    {
      && (currentAppender.Some? ==>
            && filesOpened >= 1
            && currentAppender.value.path == newLocation(filesOpened - 1)
            && currentAppender.value.recordCount == |currentRows|)
      && (currentAppender.None? ==> currentRows == [])
      && |completedRows| == |completedFiles|
      && (forall i :: 0 <= i < |completedFiles| ==>
            && completedFiles[i] == DataFile(completedFiles[i].path, format, None, |completedRows[i]|)
            && completedRows[i] != [])
      && Flatten(completedRows) + currentRows == written
    }

    /** A new writer opens its first file straight away. */
    constructor (format: FileFormat, targetFileSize: int, newLocation: nat -> string, rowBytes: R -> nat)
      ensures Valid()
      ensures this.format == format && this.targetFileSize == targetFileSize
      ensures this.newLocation == newLocation && this.rowBytes == rowBytes
      ensures currentAppender == Some(Appender(newLocation(0), 0, 0)) && filesOpened == 1
      ensures completedFiles == [] && deleted == [] && written == []
    {
      this.format := format;
      this.targetFileSize := targetFileSize;
      this.newLocation := newLocation;
      this.rowBytes := rowBytes;
      currentAppender := None;
      completedFiles := [];
      deleted := [];
      filesOpened := 0;
      written := [];
      currentRows := [];
      completedRows := [];
      new;
      OpenCurrent();
    }

    /** Opens an empty appender on the next new file. */
    method OpenCurrent()
      requires Valid() && currentAppender.None?
      modifies this
      ensures Valid()
      ensures currentAppender == Some(Appender(newLocation(old(filesOpened)), 0, 0)) && filesOpened == old(filesOpened) + 1
      ensures completedFiles == old(completedFiles) && deleted == old(deleted) && written == old(written)
    {
      currentAppender := Some(Appender(newLocation(filesOpened), 0, 0));
      filesOpened := filesOpened + 1;
    }

    /** Closes the open appender, if any: an empty file is deleted, a non-empty one becomes the next
        completed file. Nothing else changes. */
    method CloseCurrent()
      requires Valid()
      modifies this
      ensures Valid()
      ensures currentAppender.None?
      ensures completedFiles == old(completedFiles) + Closed(old(currentAppender), format, None)
      ensures deleted == old(deleted) + Discarded(old(currentAppender))
      ensures written == old(written) && filesOpened == old(filesOpened)
    {
      if currentAppender.Some? {
        var a := currentAppender.value;
        currentAppender := None;
        if a.recordCount == 0 {
          deleted := deleted + [a.path];
        } else {
          completedFiles := completedFiles + [DataFile(a.path, format, None, a.recordCount)];
          completedRows := completedRows + [currentRows];
        }
        currentRows := [];
      }
    }

    /** Writes one row: when the open file has reached the target size it is closed first and a new
        one opened; then the row is added to the open appender. */
    method Write(row: R) returns (failure: Option<WriteError<K>>)
      requires Valid()
      modifies this
      ensures Valid()
      ensures old(currentAppender).None? ==>
                failure == Some(NoOpenAppender) && currentAppender.None? && written == old(written)
                && completedFiles == old(completedFiles) && deleted == old(deleted) && filesOpened == old(filesOpened)
      ensures old(currentAppender).Some? ==> failure.None? && written == old(written) + [row]
      ensures old(currentAppender).Some? && old(currentAppender.value.length) < targetFileSize ==>
                && currentAppender == Some(Appender(old(currentAppender.value.path),
                                                    old(currentAppender.value.length) + rowBytes(row),
                                                    old(currentAppender.value.recordCount) + 1))
                && completedFiles == old(completedFiles) && deleted == old(deleted) && filesOpened == old(filesOpened)
      ensures old(currentAppender).Some? && old(currentAppender.value.length) >= targetFileSize ==>
                && currentAppender == Some(Appender(newLocation(old(filesOpened)), rowBytes(row), 1))
                && completedFiles == old(completedFiles) + Closed(old(currentAppender), format, None)
                && deleted == old(deleted) + Discarded(old(currentAppender))
                && filesOpened == old(filesOpened) + 1
    {
      if currentAppender.None? {
        return Some(NoOpenAppender);
      }
      if currentAppender.value.length >= targetFileSize {
        CloseCurrent();
        OpenCurrent();
      }
      AddRow(row);
      failure := None;
    }

    /** Adds a row to the open appender. */
    method AddRow(row: R)
      requires Valid() && currentAppender.Some?
      modifies this
      ensures Valid()
      ensures currentAppender == Some(Appender(old(currentAppender.value.path),
                                               old(currentAppender.value.length) + rowBytes(row),
                                               old(currentAppender.value.recordCount) + 1))
      ensures written == old(written) + [row]
      ensures completedFiles == old(completedFiles) && deleted == old(deleted) && filesOpened == old(filesOpened)
    {
      var a := currentAppender.value;
      currentAppender := Some(Appender(a.path, a.length + rowBytes(row), a.recordCount + 1));
      currentRows := currentRows + [row];
      written := written + [row];
    }

    /** Closes the open file and returns every completed file, in close order; fails on a writer
        with no open file, so a second commit is refused. */
    method Commit() returns (r: Result<TaskCommit<K>, WriteError<K>>)
      requires Valid()
      modifies this
      ensures Valid()
      ensures old(currentAppender).None? ==> r == Err(ClosedWriter) && unchanged(this)
      ensures old(currentAppender).Some? ==>
                && r == Ok(TaskCommit(completedFiles))
                && completedFiles == old(completedFiles) + Closed(old(currentAppender), format, None)
                && deleted == old(deleted) + Discarded(old(currentAppender))
                && currentAppender.None?
      ensures written == old(written) && filesOpened == old(filesOpened)
      ensures r.Ok? ==> Flatten(completedRows) == written && TotalRecords(r.value.files) == |written|
    {
      if currentAppender.None? {
        return Err(ClosedWriter);
      }
      CloseCurrent();
      TotalRecordsFlatten(completedFiles, completedRows);
      r := Ok(TaskCommit(completedFiles));
    }

    /** Closes the open file and tries to delete every completed file, without retry; the files that
        could not be deleted are reported once all have been tried. Fails on a writer with no open
        file. */
    method Abort(fails: string -> bool) returns (failure: Option<WriteError<K>>)
      requires Valid()
      modifies this
      ensures Valid()
      ensures old(currentAppender).None? ==> failure == Some(ClosedWriter) && unchanged(this)
      ensures old(currentAppender).Some? ==>
                && completedFiles == old(completedFiles) + Closed(old(currentAppender), format, None)
                && deleted == old(deleted) + Discarded(old(currentAppender)) + Paths(completedFiles)
                && currentAppender.None?
                && (failure.None? <==> Failures(Paths(completedFiles), fails) == [])
                && (failure.Some? ==> failure == Some(DeleteFailed(Failures(Paths(completedFiles), fails))))
      ensures written == old(written) && filesOpened == old(filesOpened)
    {
      if currentAppender.None? {
        return Some(ClosedWriter);
      }
      CloseCurrent();
      var attempted, failed := DeleteAll(Paths(completedFiles), fails);
      deleted := deleted + attempted;
      failure := if failed == [] then None else Some(DeleteFailed(failed));
    }
  }

  /** Every row belongs to the partition `p`. */
  ghost predicate AllOfPartition<R, K>(rows: seq<R>, transform: R -> K, p: Option<K>)
  {
    rows == [] || (AllOfPartition(rows[..|rows| - 1], transform, p) && p == Some(transform(rows[|rows| - 1])))
  }

  /** The partition keys of a list of files. */
  function Keys<K(==)>(files: seq<DataFile<K>>): set<Option<K>>
  {
    if files == [] then {} else Keys(files[..|files| - 1]) + {files[|files| - 1].partition}
  }

  /** A key is among the keys exactly when some file has it. */
  lemma {:induction false} KeysMember<K>(files: seq<DataFile<K>>, k: Option<K>)
    ensures k in Keys(files) <==> exists i :: 0 <= i < |files| && files[i].partition == k
  {
    if files != [] {
      var init := files[..|files| - 1];
      KeysMember(init, k);
      if k in Keys(init) {
        var i :| 0 <= i < |init| && init[i].partition == k;
        assert files[i] == init[i];
      }
      if i :| 0 <= i < |files| - 1 && files[i].partition == k {
        assert init[i] == files[i];
      }
    }
  }

  /** The partition keys of consecutive files come in runs: each file either continues the run of
      the file before it or has a key no earlier file has. */
  predicate Contiguous<K(==)>(files: seq<DataFile<K>>)
  {
    files == [] ||
    var init, last := files[..|files| - 1], files[|files| - 1];
    && Contiguous(init)
    && ((init != [] && last.partition == init[|init| - 1].partition) || last.partition !in Keys(init))
  }

  /** The same property stated on positions: once the files of a key are followed by those of
      another key, that first key does not come back. */
  ghost predicate Runs<K>(files: seq<DataFile<K>>)
  {
    forall i, j, l :: 0 <= i < j < l < |files| && files[i].partition == files[l].partition ==>
      files[j].partition == files[i].partition
  }

  lemma ContiguousRuns<K>(files: seq<DataFile<K>>)
    ensures Contiguous(files) <==> Runs(files)
  {
    if Contiguous(files) {
      ContiguousIsRuns(files);
    }
    if Runs(files) {
      RunsIsContiguous(files);
    }
  }

  lemma {:induction false} ContiguousIsRuns<K>(files: seq<DataFile<K>>)
    requires Contiguous(files)
    ensures Runs(files)
  {
    if files != [] {
      var n := |files|;
      var init, last := files[..n - 1], files[n - 1];
      ContiguousIsRuns(init);
      KeysMember(init, last.partition);
      forall i, j, l | 0 <= i < j < l < n && files[i].partition == files[l].partition
        ensures files[j].partition == files[i].partition
      {
        if l < n - 1 {
          assert init[i] == files[i] && init[j] == files[j] && init[l] == files[l];
        } else {
          assert init[i] == files[i];
          if j < n - 2 {
            assert init[j] == files[j] && init[n - 2] == files[n - 2];
          }
        }
      }
    }
  }

  lemma {:induction false} RunsIsContiguous<K>(files: seq<DataFile<K>>)
    requires Runs(files)
    ensures Contiguous(files)
  {
    if files != [] {
      var n := |files|;
      var init, last := files[..n - 1], files[n - 1];
      forall i, j, l | 0 <= i < j < l < n - 1 && init[i].partition == init[l].partition
        ensures init[j].partition == init[i].partition
      {
        assert init[i] == files[i] && init[j] == files[j] && init[l] == files[l];
      }
      RunsIsContiguous(init);
      KeysMember(init, last.partition);
      if last.partition in Keys(init) {
        var i :| 0 <= i < n - 1 && init[i].partition == last.partition;
        if i < n - 2 {
          assert files[i] == init[i] && files[n - 2].partition == files[i].partition;
        }
      }
    }
  }

  /** A file whose key does not occur before it, or only in the last run, can be appended without
      breaking the runs. */
  lemma ContiguousAppend<K>(files: seq<DataFile<K>>, f: DataFile<K>)
    requires Contiguous(files)
    requires (files != [] && f.partition == files[|files| - 1].partition) || f.partition !in Keys(files)
    ensures Contiguous(files + [f]) && Keys(files + [f]) == Keys(files) + {f.partition}
  {
    assert (files + [f])[..|files|] == files;
  }

  /** Each completed file is described by its rows: the writer's format, its partition, as many
      records as rows, at least one row, and all rows of that partition. */
  ghost predicate FilesHold<R, K>(files: seq<DataFile<K>>, rows: seq<seq<R>>, format: FileFormat, transform: R -> K)
  {
    && |rows| == |files|
    && (files == [] ||
        var n := |files|;
        && FilesHold(files[..n - 1], rows[..n - 1], format, transform)
        && files[n - 1] == DataFile(files[n - 1].path, format, files[n - 1].partition, |rows[n - 1]|)
        && rows[n - 1] != []
        && AllOfPartition(rows[n - 1], transform, files[n - 1].partition))
  }

  lemma FilesHoldAppend<R, K>(files: seq<DataFile<K>>, rows: seq<seq<R>>, format: FileFormat, transform: R -> K,
                              f: DataFile<K>, r: seq<R>)
    requires FilesHold(files, rows, format, transform)
    requires f == DataFile(f.path, format, f.partition, |r|) && r != [] && AllOfPartition(r, transform, f.partition)
    ensures FilesHold(files + [f], rows + [r], format, transform)
  {
    assert (files + [f])[..|files|] == files && (rows + [r])[..|rows|] == rows;
  }

  /** The completed files hold as many records as their rows together. */
  lemma {:induction false} FilesHoldRecords<R, K>(files: seq<DataFile<K>>, rows: seq<seq<R>>, format: FileFormat, transform: R -> K)
    requires FilesHold(files, rows, format, transform)
    ensures TotalRecords(files) == |Flatten(rows)|
  {
    if files != [] {
      FilesHoldRecords(files[..|files| - 1], rows[..|rows| - 1], format, transform);
    }
  }

  /** The files of a partitioned writer are grouped: each belongs to a completed key or to the
      current one, the current key's files come last, and keys come in runs. */
  predicate Grouped<K(==)>(files: seq<DataFile<K>>, completed: set<Option<K>>, current: Option<K>)
  {
    && Keys(files) <= completed + {current}
    && (current in Keys(files) ==> files != [] && files[|files| - 1].partition == current)
    && Contiguous(files)
  }

  /** A new file of the current key keeps the files grouped. */
  lemma GroupedAppend<K>(files: seq<DataFile<K>>, completed: set<Option<K>>, current: Option<K>, f: DataFile<K>)
    requires Grouped(files, completed, current) && f.partition == current
    ensures Grouped(files + [f], completed, current)
  {
    ContiguousAppend(files, f);
  }

  /** Once the current key is completed, every file belongs to a completed key. */
  lemma GroupedComplete<K>(files: seq<DataFile<K>>, completed: set<Option<K>>, current: Option<K>)
    requires Grouped(files, completed, current)
    ensures Grouped(files, completed + {current}, current) && Keys(files) <= completed + {current}
  {
  }

  /** A key that was never completed can become current: it has no file yet. */
  lemma GroupedNewKey<K>(files: seq<DataFile<K>>, completed: set<Option<K>>, k: Option<K>)
    requires Contiguous(files) && k !in completed && Keys(files) <= completed
    ensures Grouped(files, completed, k) && k !in Keys(files)
  {
  }

  /** The partition key of a row: a reusable accumulator that `Partition` overwrites with the
      partition values of the next row. */
  class PartitionKey<R, K(==)> {
    /** The partition spec's transforms, applied to a row. */
    const transform: R -> K
    var data: K

    constructor (transform: R -> K, initial: K)
      ensures this.transform == transform && data == initial
    {
      this.transform := transform;
      data := initial;
    }

    method Partition(row: R)
      modifies this`data
      ensures data == transform(row)
    {
      data := transform(row);
    }

    /** Keys are equal when the other one is not null and holds the same values. */
    predicate Equals(other: PartitionKey?<R, K>)
      reads this, other
    {
      other != null && data == other.data
    }

    /** A new key with the same values, which later calls of `Partition` on this one leave alone. */
    method Copy() returns (c: PartitionKey<R, K>)
      ensures fresh(c) && c.transform == transform && c.data == data
    {
      c := new PartitionKey(transform, data);
    }
  }

  /** The writer of a task on a partitioned table. */
  class PartitionedWriter<R, K(==)> {
    const format: FileFormat
    const targetFileSize: int
    /** The location of the n-th file this writer opens, in the directory of its partition. */
    const newLocation: (K, nat) -> string
    const rowBytes: R -> nat
    /** The accumulator the partition of each row is computed into. */
    const key: PartitionKey<R, K>

    /** A copy of the key of the rows being written; null before the first row. */
    var currentKey: PartitionKey?<R, K>
    var currentAppender: Option<Appender>
    var completedFiles: seq<DataFile<K>>
    /** The keys whose files have been closed for good; `None` stands for the null key of the first
        row's key change. */
    var completedPartitions: set<Option<K>>
    var deleted: seq<string>
    var filesOpened: nat

    ghost var written: seq<R>
    ghost var currentRows: seq<R>
    ghost var completedRows: seq<seq<R>>

    /** The value of the current key, `None` while it is null. */
    function CurrentPartition(): Option<K>
      reads this`currentKey, currentKey
    {
      if currentKey == null then None else Some(currentKey.data)
    }

    ghost predicate Valid()
      reads this`currentKey, this`currentAppender, this`completedFiles, this`completedPartitions
      reads this`filesOpened, this`written, this`currentRows, this`completedRows, currentKey
    {
      && key != currentKey
      && (currentKey != null ==> currentKey.transform == key.transform)
      && (currentAppender.Some? ==>
            && currentKey != null
            && filesOpened >= 1
            && currentAppender.value.path == newLocation(currentKey.data, filesOpened - 1)
            && currentAppender.value.recordCount == |currentRows|
            && CurrentPartition() !in completedPartitions)
      && (currentAppender.None? ==> currentRows == [])
      && AllOfPartition(currentRows, key.transform, CurrentPartition())
      && FilesHold(completedFiles, completedRows, format, key.transform)
      && Grouped(completedFiles, completedPartitions, CurrentPartition())
      && Flatten(completedRows) + currentRows == written
    }

    /** A new writer has no open file and no current key. */
    constructor (format: FileFormat, targetFileSize: int, newLocation: (K, nat) -> string,
                 rowBytes: R -> nat, transform: R -> K, initial: K)
      ensures Valid() && fresh(key)
      ensures this.format == format && this.targetFileSize == targetFileSize
      ensures this.newLocation == newLocation && this.rowBytes == rowBytes && key.transform == transform
      ensures currentKey == null && currentAppender.None? && filesOpened == 0
      ensures completedFiles == [] && completedPartitions == {} && deleted == [] && written == []
    {
      this.format := format;
      this.targetFileSize := targetFileSize;
      this.newLocation := newLocation;
      this.rowBytes := rowBytes;
      this.key := new PartitionKey(transform, initial);
      currentKey := null;
      currentAppender := None;
      completedFiles := [];
      completedPartitions := {};
      deleted := [];
      filesOpened := 0;
      written := [];
      currentRows := [];
      completedRows := [];
    }

    /** Opens an empty appender on the next new file of the current key's partition. */
    method OpenCurrent()
      requires Valid() && currentAppender.None? && currentKey != null
      requires CurrentPartition() !in completedPartitions
      modifies this`currentAppender, this`filesOpened
      ensures Valid()
      ensures currentKey != null && currentAppender == Some(Appender(newLocation(currentKey.data, old(filesOpened)), 0, 0))
      ensures filesOpened == old(filesOpened) + 1
      ensures currentKey == old(currentKey) && completedPartitions == old(completedPartitions)
      ensures completedFiles == old(completedFiles) && deleted == old(deleted) && written == old(written)
    {
      currentAppender := Some(Appender(newLocation(currentKey.data, filesOpened), 0, 0));
      filesOpened := filesOpened + 1;
    }

    /** Closes the open appender, if any: an empty file is deleted, a non-empty one becomes the next
        completed file, tagged with the current key. Nothing else changes. */
    method CloseCurrent()
      requires Valid()
      modifies this`currentAppender, this`currentRows, this`deleted, this`completedFiles, this`completedRows
      ensures Valid()
      ensures currentAppender.None?
      ensures completedFiles == old(completedFiles) + Closed(old(currentAppender), format, CurrentPartition())
      ensures deleted == old(deleted) + Discarded(old(currentAppender))
      ensures currentKey == old(currentKey) && completedPartitions == old(completedPartitions)
      ensures written == old(written) && filesOpened == old(filesOpened)
    {
      if currentAppender.Some? {
        if currentAppender.value.recordCount == 0 {
          DiscardCurrent();
        } else {
          CompleteCurrent();
        }
      }
    }

    /** Closing an empty appender: its file is deleted. */
    method DiscardCurrent()
      requires Valid() && currentAppender.Some? && currentAppender.value.recordCount == 0
      modifies this`currentAppender, this`currentRows, this`deleted
      ensures Valid()
      ensures currentAppender.None? && deleted == old(deleted) + [old(currentAppender.value.path)]
    {
      deleted := deleted + [currentAppender.value.path];
      currentAppender := None;
      currentRows := [];
    }

    /** Closing an appender with rows: it becomes the next completed file, tagged with the current
        key. */
    method CompleteCurrent()
      requires Valid() && currentAppender.Some? && currentAppender.value.recordCount > 0
      modifies this`currentAppender, this`currentRows, this`completedFiles, this`completedRows
      ensures Valid()
      ensures currentAppender.None?
      ensures completedFiles == old(completedFiles) + [DataFile(old(currentAppender.value.path), format, CurrentPartition(), old(currentAppender.value.recordCount))]
    {
      var a, p := currentAppender.value, CurrentPartition();
      var f := DataFile(a.path, format, p, a.recordCount);
      var files, rows := completedFiles + [f], completedRows + [currentRows];
      FilesHoldAppend(completedFiles, completedRows, format, key.transform, f, currentRows);
      GroupedAppend(completedFiles, completedPartitions, p, f);
      assert rows[..|rows| - 1] == completedRows;
      assert Flatten(rows) == written;
      completedFiles, completedRows, currentAppender, currentRows := files, rows, None, [];
    }
  
    /** Writes one row. The row's key is computed into the accumulator; when it differs from the
        current key, the current file is closed, the current key (null for the first row) is
        recorded as completed, and the write fails if the row's key was completed before; otherwise
        a copy of the key becomes current and a file is opened for it. Then, as for an unpartitioned
        table, a file at the target size is rolled over and the row is added. */
    method Write(row: R) returns (failure: Option<WriteError<K>>)
      requires Valid()
      modifies this`currentAppender, this`currentRows, this`deleted, this`completedFiles, this`completedRows
      modifies this`completedPartitions, this`currentKey, this`filesOpened, this`written, key`data
      ensures Valid()
      ensures key.data == key.transform(row)
      ensures old(completedFiles) <= completedFiles && old(completedPartitions) <= completedPartitions
      ensures failure.None? ==> written == old(written) + [row] && CurrentPartition() == Some(key.data)
      ensures failure.Some? ==> written == old(written) && currentAppender.None?
      // The row continues the current key's rows.
      ensures old(CurrentPartition()) == Some(key.data) ==>
                && completedPartitions == old(completedPartitions)
                && currentKey == old(currentKey)
                && (old(currentAppender).None? ==>
                      failure == Some(NoOpenAppender) && completedFiles == old(completedFiles)
                      && deleted == old(deleted) && filesOpened == old(filesOpened))
                && (old(currentAppender).Some? ==> failure.None? && Added(old(currentAppender.value), old(filesOpened), old(completedFiles), old(deleted), row))
      // The row starts a new key.
      ensures old(CurrentPartition()) != Some(key.data) ==>
                && completedPartitions == old(completedPartitions) + {old(CurrentPartition())}
                && (Some(key.data) in old(completedPartitions) ==>
                      && failure == Some(DuplicatePartition(key.data)) && currentKey == old(currentKey)
                      && completedFiles == old(completedFiles) + Closed(old(currentAppender), format, old(CurrentPartition()))
                      && deleted == old(deleted) + Discarded(old(currentAppender))
                      && filesOpened == old(filesOpened))
                && (Some(key.data) !in old(completedPartitions) ==>
                      && failure.None?
                      && fresh(currentKey)
                      && Added(Appender(newLocation(key.data, old(filesOpened)), 0, 0), old(filesOpened) + 1,
                               old(completedFiles) + Closed(old(currentAppender), format, old(CurrentPartition())),
                               old(deleted) + Discarded(old(currentAppender)), row))
    {
      ghost var p := CurrentPartition();
      key.Partition(row);
      assert CurrentPartition() == p;
      if key.Equals(currentKey) {
        failure := ContinuePartition(row);
      } else {
        failure := ChangePartition(row);
      }
    }

    /** A row of the current key goes to its open file, rolled over if need be. */
    method ContinuePartition(row: R) returns (failure: Option<WriteError<K>>)
      requires Valid() && CurrentPartition() == Some(key.data) && key.data == key.transform(row)
      modifies this`currentAppender, this`currentRows, this`deleted, this`completedFiles, this`completedRows
      modifies this`filesOpened, this`written
      ensures Valid()
      ensures failure.None? ==> written == old(written) + [row]
      ensures failure.Some? ==> written == old(written) && currentAppender.None?
      ensures old(currentAppender).None? ==>
                failure == Some(NoOpenAppender) && completedFiles == old(completedFiles)
                && deleted == old(deleted) && filesOpened == old(filesOpened)
      ensures old(currentAppender).Some? ==>
                failure.None? && Added(old(currentAppender.value), old(filesOpened), old(completedFiles), old(deleted), row)
    {
      if currentAppender.None? {
        return Some(NoOpenAppender);
      }
      RollAndAdd(row);
      failure := None;
    }

    /** A row of another key: the key is changed, and the row goes to the new key's first file. */
    method ChangePartition(row: R) returns (failure: Option<WriteError<K>>)
      requires Valid() && CurrentPartition() != Some(key.data) && key.data == key.transform(row)
      modifies this`currentAppender, this`currentRows, this`deleted, this`completedFiles, this`completedRows
      modifies this`completedPartitions, this`currentKey, this`filesOpened, this`written
      ensures Valid()
      ensures failure.None? ==> written == old(written) + [row] && CurrentPartition() == Some(key.data)
      ensures failure.Some? ==> written == old(written) && currentAppender.None?
      ensures completedPartitions == old(completedPartitions) + {old(CurrentPartition())}
      ensures Some(key.data) in old(completedPartitions) ==>
                && failure == Some(DuplicatePartition(key.data)) && currentKey == old(currentKey)
                && completedFiles == old(completedFiles) + Closed(old(currentAppender), format, old(CurrentPartition()))
                && deleted == old(deleted) + Discarded(old(currentAppender))
                && filesOpened == old(filesOpened)
      ensures Some(key.data) !in old(completedPartitions) ==>
                && failure.None?
                && fresh(currentKey)
                && Added(Appender(newLocation(key.data, old(filesOpened)), 0, 0), old(filesOpened) + 1,
                         old(completedFiles) + Closed(old(currentAppender), format, old(CurrentPartition())),
                         old(deleted) + Discarded(old(currentAppender)), row)
    {
      failure := StartPartition();
      if failure.Some? {
        return;
      }
      RollAndAdd(row);
    }

    /** The state after `row` went to the current key's file, from an appender `a` with `n` files
        opened, `files` completed and `dels` deleted before: if `a` had reached the target size it
        was closed and the row went to a new file, otherwise the row went to `a`. */
    ghost predicate Added(a: Appender, n: nat, files: seq<DataFile<K>>, dels: seq<string>, row: R)
      reads this`currentAppender, this`completedFiles, this`deleted, this`filesOpened, this`currentKey, currentKey
    {
      if a.length >= targetFileSize then
        && currentKey != null && currentAppender == Some(Appender(newLocation(currentKey.data, n), rowBytes(row), 1))
        && completedFiles == files + Closed(Some(a), format, CurrentPartition())
        && deleted == dels + Discarded(Some(a))
        && filesOpened == n + 1
      else
        && currentAppender == Some(Appender(a.path, a.length + rowBytes(row), a.recordCount + 1))
        && completedFiles == files && deleted == dels && filesOpened == n
    }

    /** Rolls the open file over if it has reached the target size, then adds the row. */
    method RollAndAdd(row: R)
      requires Valid() && currentAppender.Some? && CurrentPartition() == Some(key.transform(row))
      requires currentKey != null && currentKey.data == key.data
      modifies this`currentAppender, this`currentRows, this`deleted, this`completedFiles, this`completedRows
      modifies this`filesOpened, this`written
      ensures Valid()
      ensures written == old(written) + [row]
      ensures currentKey == old(currentKey) && completedPartitions == old(completedPartitions)
      ensures Added(old(currentAppender.value), old(filesOpened), old(completedFiles), old(deleted), row)
    {
      if currentAppender.value.length >= targetFileSize {
        CloseCurrent();
        OpenCurrent();
      }
      AddRow(row);
    }

    /** The key change of `Write`: closes the current file and completes the current key; fails if
        the accumulator's key was completed before, and otherwise makes a copy of it current and
        opens a file for it. */
    method StartPartition() returns (failure: Option<WriteError<K>>)
      requires Valid() && CurrentPartition() != Some(key.data)
      modifies this`currentAppender, this`currentRows, this`deleted, this`completedFiles, this`completedRows
      modifies this`completedPartitions, this`currentKey, this`filesOpened
      ensures Valid()
      ensures completedPartitions == old(completedPartitions) + {old(CurrentPartition())}
      ensures completedFiles == old(completedFiles) + Closed(old(currentAppender), format, old(CurrentPartition()))
      ensures deleted == old(deleted) + Discarded(old(currentAppender))
      ensures written == old(written)
      ensures Some(key.data) in old(completedPartitions) ==>
                && failure == Some(DuplicatePartition(key.data)) && currentKey == old(currentKey)
                && currentAppender.None? && filesOpened == old(filesOpened)
      ensures Some(key.data) !in old(completedPartitions) ==>
                && failure.None? && fresh(currentKey) && CurrentPartition() == Some(key.data)
                && currentAppender == Some(Appender(newLocation(key.data, old(filesOpened)), 0, 0))
                && filesOpened == old(filesOpened) + 1
    {
      CloseCurrent();
      CompleteKey();
      if Some(key.data) in completedPartitions {
        return Some(DuplicatePartition(key.data));
      }
      NewKey();
      failure := None;
    }

    /** Records the current key as completed once its file is closed; all completed files then
        belong to completed keys. */
    method CompleteKey()
      requires Valid() && currentAppender.None?
      modifies this`completedPartitions
      ensures Valid()
      ensures completedPartitions == old(completedPartitions) + {CurrentPartition()}
      ensures Keys(completedFiles) <= completedPartitions
    {
      GroupedComplete(completedFiles, completedPartitions, CurrentPartition());
      completedPartitions := completedPartitions + {CurrentPartition()};
    }

    /** Makes a copy of the accumulator's key current and opens a file for it. */
    method NewKey()
      requires Valid() && currentAppender.None? && Some(key.data) !in completedPartitions
      requires Keys(completedFiles) <= completedPartitions
      modifies this`currentKey, this`currentAppender, this`filesOpened
      ensures Valid()
      ensures fresh(currentKey) && CurrentPartition() == Some(key.data)
      ensures currentAppender == Some(Appender(newLocation(key.data, old(filesOpened)), 0, 0))
      ensures filesOpened == old(filesOpened) + 1
    {
      GroupedNewKey(completedFiles, completedPartitions, Some(key.data));
      currentKey := key.Copy();
      OpenCurrent();
    }

    /** Adds a row of the current key to the open appender. */
    method AddRow(row: R)
      requires Valid() && currentAppender.Some? && CurrentPartition() == Some(key.transform(row))
      modifies this`currentAppender, this`currentRows, this`written
      ensures Valid()
      ensures currentAppender == Some(Appender(old(currentAppender.value.path),
                                               old(currentAppender.value.length) + rowBytes(row),
                                               old(currentAppender.value.recordCount) + 1))
      ensures written == old(written) + [row]
      ensures completedFiles == old(completedFiles) && deleted == old(deleted) && filesOpened == old(filesOpened)
      ensures currentKey == old(currentKey) && completedPartitions == old(completedPartitions)
    {
      var a := currentAppender.value;
      currentAppender := Some(Appender(a.path, a.length + rowBytes(row), a.recordCount + 1));
      currentRows := currentRows + [row];
      written := written + [row];
    }

    /** Closes the open file, if any, and returns every completed file in close order. There is no
        check for an open file: a second commit returns the same files again. */
    method Commit() returns (r: TaskCommit<K>)
      requires Valid()
      modifies this`currentAppender, this`currentRows, this`deleted, this`completedFiles, this`completedRows
      ensures Valid()
      ensures written == old(written) && currentKey == old(currentKey)
      ensures completedPartitions == old(completedPartitions) && filesOpened == old(filesOpened)
      ensures completedFiles == old(completedFiles) + Closed(old(currentAppender), format, CurrentPartition())
      ensures deleted == old(deleted) + Discarded(old(currentAppender))
      ensures r == TaskCommit(completedFiles) && currentAppender.None?
      ensures Flatten(completedRows) == written && TotalRecords(r.files) == |written|
      ensures Contiguous(r.files) && Runs(r.files)
    {
      CloseCurrent();
      ContiguousRuns(completedFiles);
      FilesHoldRecords(completedFiles, completedRows, format, key.transform);
      r := TaskCommit(completedFiles);
    }

    /** Closes the open file, if any, and tries to delete every completed file, without retry; the
        files that could not be deleted are reported once all have been tried. */
    method Abort(fails: string -> bool) returns (failure: Option<WriteError<K>>)
      requires Valid()
      modifies this`currentAppender, this`currentRows, this`deleted, this`completedFiles, this`completedRows
      ensures Valid()
      ensures completedFiles == old(completedFiles) + Closed(old(currentAppender), format, CurrentPartition())
      ensures deleted == old(deleted) + Discarded(old(currentAppender)) + Paths(completedFiles)
      ensures currentAppender.None?
      ensures failure.None? <==> Failures(Paths(completedFiles), fails) == []
      ensures failure.Some? ==> failure == Some(DeleteFailed(Failures(Paths(completedFiles), fails)))
      ensures written == old(written) && currentKey == old(currentKey)
      ensures completedPartitions == old(completedPartitions) && filesOpened == old(filesOpened)
    {
      CloseCurrent();
      failure := DeleteCompleted(fails);
    }

    /** Tries to delete every completed file and reports the failures after all attempts. */
    method DeleteCompleted(fails: string -> bool) returns (failure: Option<WriteError<K>>)
      requires Valid()
      modifies this`deleted
      ensures Valid()
      ensures deleted == old(deleted) + Paths(completedFiles)
      ensures failure.None? <==> Failures(Paths(completedFiles), fails) == []
      ensures failure.Some? ==> failure == Some(DeleteFailed(Failures(Paths(completedFiles), fails)))
    {
      var attempted, failed := DeleteAll(Paths(completedFiles), fails);
      deleted := deleted + attempted;
      failure := if failed == [] then None else Some(DeleteFailed(failed));
    }
  }

  /** The writer a task gets: one for an unpartitioned table, one for a partitioned table. */
  datatype DataWriter<R, K(==)> = Unpartitioned(u: UnpartitionedWriter<R, K>) | Partitioned(p: PartitionedWriter<R, K>)

  /** Creates the writer of one task: an unpartitioned writer when the partition spec has no field,
      a partitioned one otherwise. Either names its n-th file from the Spark partition ID, the task
      ID and the n-th unique ID, and places it with the table's location provider (`dataLocation`
      for an unpartitioned table, `partitionLocation` inside the directory of a partition). */
  method CreateDataWriter<R, K(==)>(partitionFieldCount: nat, format: FileFormat, targetFileSize: int,
                                    partitionId: int, taskId: int, uuids: nat -> string,
                                    dataLocation: string -> string, partitionLocation: (K, string) -> string,
                                    rowBytes: R -> nat, transform: R -> K, initial: K)
    returns (w: DataWriter<R, K>)
    ensures w.Unpartitioned? <==> partitionFieldCount == 0
    ensures w.Unpartitioned? ==>
              && fresh(w.u) && w.u.Valid()
              && w.u.format == format && w.u.targetFileSize == targetFileSize && w.u.rowBytes == rowBytes
              && w.u.completedFiles == [] && w.u.written == []
              && w.u.currentAppender == Some(Appender(dataLocation(GenerateFilename(format, partitionId, taskId, uuids(0))), 0, 0))
              && (forall n: nat :: w.u.newLocation(n) == dataLocation(GenerateFilename(format, partitionId, taskId, uuids(n))))
    ensures w.Partitioned? ==>
              && fresh(w.p) && fresh(w.p.key) && w.p.Valid()
              && w.p.format == format && w.p.targetFileSize == targetFileSize && w.p.rowBytes == rowBytes
              && w.p.key.transform == transform
              && w.p.completedFiles == [] && w.p.written == [] && w.p.currentKey == null
              && (forall k, n: nat :: w.p.newLocation(k, n) == partitionLocation(k, GenerateFilename(format, partitionId, taskId, uuids(n))))
  {
    if partitionFieldCount == 0 {
      var u := new UnpartitionedWriter(format, targetFileSize,
                                       (n: nat) => dataLocation(GenerateFilename(format, partitionId, taskId, uuids(n))), rowBytes);
      w := Unpartitioned(u);
    } else {
      var p := new PartitionedWriter(format, targetFileSize,
                                     (k: K, n: nat) => partitionLocation(k, GenerateFilename(format, partitionId, taskId, uuids(n))),
                                     rowBytes, transform, initial);
      w := Partitioned(p);
    }
  }
}
