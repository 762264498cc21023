/** The values the writers produce and exchange: file formats and their extensions, generated file
    names, the descriptors of completed data files, the commit message of one task, and the
    attempt-every-file deletion loop used when a write is aborted. */
module DataFiles {
  import opened Results
  import opened Text

  datatype FileFormat = Orc | Parquet | Avro

  /** The enum constant's name, as `FileFormat.valueOf` expects it. */
  function FormatName(f: FileFormat): string
  {
    match f
    case Orc => "ORC"
    case Parquet => "PARQUET"
    case Avro => "AVRO"
  }

  /** `FileFormat.valueOf`: the constant whose name is exactly `s`, or nothing. */
  function ParseFormat(s: string): (r: Option<FileFormat>)
    ensures r.Some? ==> FormatName(r.value) == s
    ensures r.None? ==> forall f: FileFormat :: FormatName(f) != s
  {
    if s == "ORC" then Some(Orc)
    else if s == "PARQUET" then Some(Parquet)
    else if s == "AVRO" then Some(Avro)
    else None
  }

  lemma ParseFormatName(f: FileFormat)
    ensures ParseFormat(FormatName(f)) == Some(f)
  {
  }

  /** The file-name extension of a format, dot included. */
  function Extension(f: FileFormat): string
  {
    match f
    case Orc => ".orc"
    case Parquet => ".parquet"
    case Avro => ".avro"
  }

  /** `FileFormat.addExtension`: the name, ending in the format's extension, with the extension added
      only when it is not already there. */
  function AddExtension(f: FileFormat, name: string): (r: string)
    ensures EndsWith(r, Extension(f))
    ensures EndsWith(name, Extension(f)) ==> r == name
    ensures !EndsWith(name, Extension(f)) ==> |r| == |name| + |Extension(f)|
    ensures |name| <= |r| && r[..|name|] == name
  {
    if EndsWith(name, Extension(f)) then name
    else
      var r := name + Extension(f);
      assert r[|r| - |Extension(f)|..] == Extension(f);
      assert r[..|name|] == name;
      r
  }

  lemma AddExtensionIdempotent(f: FileFormat, name: string)
    ensures AddExtension(f, AddExtension(f, name)) == AddExtension(f, name)
  {
  }

  /** A generated data file name: the Spark partition ID padded to five digits, the task ID and a
      unique ID, dash-separated, with the format's extension. */
  function GenerateFilename(f: FileFormat, partitionId: int, taskId: int, uuid: string): (r: string)
    ensures EndsWith(r, Extension(f))
    ensures 5 <= |ZeroPad(partitionId, 5)| <= |r|
    ensures r[..|ZeroPad(partitionId, 5)|] == ZeroPad(partitionId, 5)
    ensures var base := ZeroPad(partitionId, 5) + ("-" + IntToString(taskId) + "-" + uuid);
            |base| <= |r| && r[..|base|] == base
  {
    var pad := ZeroPad(partitionId, 5);
    var rest := "-" + IntToString(taskId) + "-" + uuid;
    var r := AddExtension(f, pad + rest);
    PrefixOfPrefix(r, pad, rest);
    r
  }

  lemma PrefixOfPrefix(r: string, a: string, b: string)
    requires |a + b| <= |r| && r[..|a + b|] == a + b
    ensures r[..|a|] == a
  {
    assert r[..|a|] == r[..|a + b|][..|a|];
  }

  /** The partition ID can be read back from the generated name: for every non-negative Spark
      partition ID below 100000 it is the first five characters. */
  lemma GenerateFilenamePartition(f: FileFormat, partitionId: int, taskId: int, uuid: string)
    requires 0 <= partitionId < 100000
    ensures var r := GenerateFilename(f, partitionId, taskId, uuid);
            |r| >= 5 && ParseInt(r[..5]) == Some(partitionId)
  {
    assert |NatToString(partitionId)| <= 5 by {
      if partitionId >= 10000 {
        NatToStringLength(partitionId, 5);
      } else {
        NatToStringLength(partitionId, 4);
      }
    }
    assert |IntToString(partitionId)| <= 5;
    ParseZeroPad(partitionId, 5, IntMin, IntMax);
  }

  /** A number below 10^k has at most k digits. */
  lemma {:induction false} NatToStringLength(n: nat, k: nat)
    requires n < Pow10(k)
    ensures |NatToString(n)| <= k || (n < 10 && k == 0)
    decreases k
  {
    if n >= 10 {
      assert k >= 2;
      NatToStringLength(n / 10, k - 1);
    }
  }

  function Pow10(k: nat): (p: nat)
    ensures p >= 1
  {
    if k == 0 then 1 else 10 * Pow10(k - 1)
  }

  /** The descriptor of a completed data file: where it is, its format, the partition its rows
      belong to (`None` for an unpartitioned table) and how many rows it holds. */
  datatype DataFile<K> = DataFile(path: string, format: FileFormat, partition: Option<K>, recordCount: nat)

  /** The commit message one task sends to the driver: the files it completed, in close order. */
  datatype TaskCommit<K> = TaskCommit(files: seq<DataFile<K>>)

  function Paths<K>(files: seq<DataFile<K>>): (ps: seq<string>)
    ensures |ps| == |files| && forall i :: 0 <= i < |files| ==> ps[i] == files[i].path
  {
    seq(|files|, i requires 0 <= i < |files| => files[i].path)
  }

  /** The paths whose deletion fails, in the order they were attempted. */
  function Failures(paths: seq<string>, fails: string -> bool): (r: seq<string>)
    ensures |r| <= |paths|
    ensures forall p :: p in r <==> p in paths && fails(p)
  {
    if paths == [] then []
    else (if fails(paths[0]) then [paths[0]] else []) + Failures(paths[1..], fails)
  }

  lemma {:induction false} FailuresConcat(a: seq<string>, b: seq<string>, fails: string -> bool)
    ensures Failures(a + b, fails) == Failures(a, fails) + Failures(b, fails)
  {
    if a == [] {
      assert a + b == b;
    } else {
      assert (a + b)[1..] == a[1..] + b;
      FailuresConcat(a[1..], b, fails);
    }
  }

  /** Deletes every path with no retry, going on after a failure: every path is attempted, in
      order, and the failed ones are reported only once all have been attempted. `fails` stands for
      the outcome of the file system's delete call. */
  method DeleteAll(paths: seq<string>, fails: string -> bool) returns (attempted: seq<string>, failed: seq<string>)
    ensures attempted == paths
    ensures failed == Failures(paths, fails)
    ensures failed == [] <==> forall i :: 0 <= i < |paths| ==> !fails(paths[i])
  {
    attempted := [];
    failed := [];
    var i := 0;
    while i < |paths|
      invariant 0 <= i <= |paths|
      invariant attempted == paths[..i]
      invariant failed == Failures(paths[..i], fails)
    {
      FailuresConcat(paths[..i], [paths[i]], fails);
      assert paths[..i + 1] == paths[..i] + [paths[i]];
      if fails(paths[i]) {
        failed := failed + [paths[i]];
      }
      attempted := attempted + [paths[i]];
      i := i + 1;
    }
    assert paths[..i] == paths;
    if failed != [] {
      assert failed[0] in failed;
    }
  }
}
