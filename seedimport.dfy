/**
 * The seed script: it walks the local `s3` directory, uploads the first file
 * of every sub-directory under a key derived from the directory path, then
 * batch-writes the seed rows into the post table. The walk, file contents and
 * the outcome of each upload are inputs.
 */
module SeedImport {
  import opened Wrappers
  import opened Values
  import opened Text
  import opened Store

  // ---------------------------------------------------------------------
  // Object keys

  /** One `(dirpath, dirnames, filenames)` triple of the walk; sub-directory names play no part. */
  datatype WalkEntry = WalkEntry(dirpath: string, filenames: seq<string>)

  /** `"/".join(dirpath.split(os.sep)[1:]) + "/" + f` on a POSIX system. */
  function S3Key(dirpath: string, f: string): (key: string)
    ensures EndsWith(key, "/" + f)
  {
    Join(Split(dirpath, '/')[1..], "/") + "/" + f
  }

  /** `os.path.join(dirpath, f)`. */
  function LocalPath(dirpath: string, f: string): (path: string)
    ensures EndsWith(path, f)
    ensures |f| > 0 && f[0] == '/' ==> path == f
    ensures !(|f| > 0 && f[0] == '/') ==> StartsWith(path, dirpath)
  {
    if |f| > 0 && f[0] == '/' then f
    else if dirpath == "" || dirpath[|dirpath| - 1] == '/' then dirpath + f
    else dirpath + "/" + f
  }

  /** A file directly in the top directory gets a key that starts with `/`. */
  lemma RootKeyStartsWithSlash(dirpath: string, f: string)
    requires '/' !in dirpath
    ensures S3Key(dirpath, f) == "/" + f
    ensures StartsWith(S3Key(dirpath, f), "/")
  {
    SplitWithoutSeparator(dirpath, '/');
    assert Split(dirpath, '/')[1..] == [];
  }

  /** Below the top directory, the key is the rest of the directory path, `/`, and the file name. */
  lemma SubdirectoryKey(top: string, rest: string, f: string)
    requires '/' !in top
    ensures S3Key(top + "/" + rest, f) == rest + "/" + f
  {
    assert top + "/" + rest == top + ['/'] + rest;
    SplitAfterPiece(top, '/', rest);
    assert Split(top + "/" + rest, '/')[1..] == Split(rest, '/');
    JoinSplit(rest, '/');
  }

  /** A sub-directory's key starts with `/` only when the path has an empty segment after the top. */
  lemma SubdirectoryKeyKept(top: string, rest: string, f: string)
    requires '/' !in top && rest != "" && rest[0] != '/'
    ensures !StartsWith(S3Key(top + "/" + rest, f), "/")
  {
    SubdirectoryKey(top, rest, f);
    assert (rest + "/" + f)[0] == rest[0];
  }

  // ---------------------------------------------------------------------
  // Uploads

  /** The line the script prints for a directory's first file. */
  datatype LogLine =
    | Uploaded(local: string, key: string)
    | UploadFailed(local: string, key: string)
    | SkippedAtRoot(local: string)

  /**
   * What one walk entry produces: nothing for a directory without files,
   * otherwise one line about `filenames[0]` only. `accepts` says whether
   * reading the file and putting the object succeeded.
   */
  function EntryLines(e: WalkEntry, accepts: string -> bool): (r: seq<LogLine>)
    ensures |r| == if e.filenames == [] then 0 else 1
    ensures e.filenames != [] ==>
              var key := S3Key(e.dirpath, e.filenames[0]);
              var local := LocalPath(e.dirpath, e.filenames[0]);
              r[0] == if StartsWith(key, "/") then SkippedAtRoot(local)
                      else if accepts(key) then Uploaded(local, key)
                      else UploadFailed(local, key)
  {
    if e.filenames == [] then []
    else
      var f := e.filenames[0];
      var key := S3Key(e.dirpath, f);
      var local := LocalPath(e.dirpath, f);
      if StartsWith(key, "/") then [SkippedAtRoot(local)]
      else if accepts(key) then [Uploaded(local, key)]
      else [UploadFailed(local, key)]
  }

  /** The whole upload log, directory by directory in walk order. */
  function SeedLog(walk: seq<WalkEntry>, accepts: string -> bool): (log: seq<LogLine>)
    ensures |log| <= |walk|
  {
    if walk == [] then []
    else SeedLog(walk[..|walk| - 1], accepts) + EntryLines(walk[|walk| - 1], accepts)
  }

  /** The keys the log reports as uploaded. */
  function UploadedKeys(log: seq<LogLine>): (keys: set<string>)
    ensures forall i :: 0 <= i < |log| && log[i].Uploaded? ==> log[i].key in keys
  {
    if log == [] then {}
    else UploadedKeys(log[..|log| - 1])
         + (if log[|log| - 1].Uploaded? then {log[|log| - 1].key} else {})
  }

  lemma {:induction false} UploadedKeysAppend(a: seq<LogLine>, b: seq<LogLine>)
    ensures UploadedKeys(a + b) == UploadedKeys(a) + UploadedKeys(b)
    decreases |b|
  {
    if b == [] {
      assert a + b == a;
    } else {
      var n := |b| - 1;
      assert (a + b)[..|a + b| - 1] == a + b[..n];
      UploadedKeysAppend(a, b[..n]);
    }
  }

  /** Every key in the uploaded set was reported by an `Uploaded` line. */
  lemma {:induction false} UploadedKeysReported(log: seq<LogLine>, key: string)
    requires key in UploadedKeys(log)
    ensures exists i :: 0 <= i < |log| && log[i] == Uploaded(log[i].local, key)
    decreases |log|
  {
    var n := |log| - 1;
    if key in UploadedKeys(log[..n]) {
      UploadedKeysReported(log[..n], key);
      var i :| 0 <= i < n && log[..n][i] == Uploaded(log[..n][i].local, key);
      assert log[i] == log[..n][i];
    } else {
      assert log[n] == Uploaded(log[n].local, key);
    }
  }

  /** The number of directories that hold at least one file. */
  function DirectoriesWithFiles(walk: seq<WalkEntry>): nat
  {
    if walk == [] then 0
    else DirectoriesWithFiles(walk[..|walk| - 1]) + (if walk[|walk| - 1].filenames == [] then 0 else 1)
  }

  /** A failed upload does not stop the walk: every directory with files gets exactly one line. */
  lemma {:induction false} OneLinePerDirectory(walk: seq<WalkEntry>, accepts: string -> bool)
    ensures |SeedLog(walk, accepts)| == DirectoriesWithFiles(walk)
    decreases |walk|
  {
    if walk != [] {
      OneLinePerDirectory(walk[..|walk| - 1], accepts);
    }
  }

  /** Dropping the last element of `a + b` drops it from `b`. */
  lemma InitOfAppend<T>(a: seq<T>, b: seq<T>)
    requires b != []
    ensures (a + b)[..|a + b| - 1] == a + b[..|b| - 1]
    ensures (a + b)[|a + b| - 1] == b[|b| - 1]
  {
    assert (a + b)[..|a + b| - 1] == a + b[..|b| - 1];
  }

  /** The log of a walk is the log of its first part followed by the log of the rest. */
  lemma {:induction false} SeedLogAppend(a: seq<WalkEntry>, b: seq<WalkEntry>, accepts: string -> bool)
    ensures SeedLog(a + b, accepts) == SeedLog(a, accepts) + SeedLog(b, accepts)
    decreases |b|
  {
    if b == [] {
      assert a + b == a;
    } else {
      var n := |b| - 1;
      InitOfAppend(a, b);
      SeedLogAppend(a, b[..n], accepts);
    }
  }

  /** One more walk entry adds its lines to the log. */
  lemma SeedLogStep(walk: seq<WalkEntry>, i: nat, accepts: string -> bool)
    requires i < |walk|
    ensures SeedLog(walk[..i + 1], accepts) == SeedLog(walk[..i], accepts) + EntryLines(walk[i], accepts)
  {
    assert walk[..i + 1][..i] == walk[..i] && walk[..i + 1][i] == walk[i];
  }

  /** The keys one walk entry reports as uploaded: its first file's key, when that upload went ahead and succeeded. */
  lemma EntryUploadedKeys(e: WalkEntry, accepts: string -> bool)
    ensures e.filenames == [] ==> UploadedKeys(EntryLines(e, accepts)) == {}
    ensures e.filenames != [] ==>
              var key := S3Key(e.dirpath, e.filenames[0]);
              UploadedKeys(EntryLines(e, accepts)) == if !StartsWith(key, "/") && accepts(key) then {key} else {}
  {
    var lines := EntryLines(e, accepts);
    if lines != [] {
      assert lines[..0] == [];
    }
  }

  /** The upload loop over the walk. */
  method UploadSeedFiles(walk: seq<WalkEntry>, bucket: Bucket, accepts: string -> bool) returns (log: seq<LogLine>)
    modifies bucket
    ensures log == SeedLog(walk, accepts)
    ensures bucket.objects == old(bucket.objects) + UploadedKeys(log)
  {
    log := [];
    for i := 0 to |walk|
      invariant log == SeedLog(walk[..i], accepts)
      invariant bucket.objects == old(bucket.objects) + UploadedKeys(log)
    {
      var e := walk[i];
      SeedLogStep(walk, i, accepts);
      EntryUploadedKeys(e, accepts);
      var lines := EntryLines(e, accepts);
      if e.filenames != [] {
        var key := S3Key(e.dirpath, e.filenames[0]);
        if !StartsWith(key, "/") && accepts(key) {
          bucket.PutObject(key);
        }
      }
      UploadedKeysAppend(log, lines);
      log := log + lines;
    }
    assert walk[..|walk|] == walk;
  }

  // ---------------------------------------------------------------------
  // Batch write

  /** `data`, or the empty list when it could not be imported. */
  function ImportedRows(imported: Option<seq<Item>>): seq<Item>
  {
    if imported.Some? then imported.value else []
  }

  /** The key `put_item` accepts for a seed row: non-empty string `user` and `id`. */
  function RowKey(row: Item): (k: Option<StoreKey>)
    ensures k.Some? ==> KeyOf(row) == k
  {
    KeyFrom(Get(row, "user", Null), Get(row, "id", Null))
  }

  /** The index of the first row without a non-empty string `user` and `id`, or the row count. */
  function FirstUnkeyed(rows: seq<Item>): (j: nat)
    ensures j <= |rows|
    ensures forall i :: 0 <= i < j ==> RowKey(rows[i]).Some?
    ensures j < |rows| ==> RowKey(rows[j]).None?
  {
    if rows == [] then 0
    else if RowKey(rows[0]).None? then 0
    else 1 + FirstUnkeyed(rows[1..])
  }

  /** The table after putting the rows one after the other. */
  function PutAll(items: map<StoreKey, Item>, rows: seq<Item>): (r: map<StoreKey, Item>)
    requires AllKeyed(rows)
    ensures items.Keys <= r.Keys
    ensures WellKeyed(items) ==> WellKeyed(r)
  {
    if rows == [] then items
    else
      var last := rows[|rows| - 1];
      PutAll(items, rows[..|rows| - 1])[RowKey(last).value := last]
  }

  predicate DistinctKeys(rows: seq<Item>)
  {
    forall i, j :: 0 <= i < j < |rows| ==> RowKey(rows[i]) != RowKey(rows[j])
  }

  predicate AllKeyed(rows: seq<Item>)
  {
    forall i :: 0 <= i < |rows| ==> RowKey(rows[i]).Some?
  }

  /** The keys the rows name. */
  function RowKeys(rows: seq<Item>): set<StoreKey>
    requires AllKeyed(rows)
  {
    if rows == [] then {} else RowKeys(rows[..|rows| - 1]) + {RowKey(rows[|rows| - 1]).value}
  }

  /** The table gains exactly the keys the rows name. */
  lemma {:induction false} PutAllKeys(items: map<StoreKey, Item>, rows: seq<Item>)
    requires AllKeyed(rows)
    ensures PutAll(items, rows).Keys == items.Keys + RowKeys(rows)
    decreases |rows|
  {
    if rows != [] {
      PutAllKeys(items, rows[..|rows| - 1]);
    }
  }

  /** Every record that no row names is kept. */
  lemma {:induction false} PutAllKeepsOthers(items: map<StoreKey, Item>, rows: seq<Item>, k: StoreKey)
    requires AllKeyed(rows)
    requires k in items && forall i :: 0 <= i < |rows| ==> RowKey(rows[i]) != Some(k)
    ensures k in PutAll(items, rows) && PutAll(items, rows)[k] == items[k]
    decreases |rows|
  {
    if rows != [] {
      var n := |rows| - 1;
      assert forall i :: 0 <= i < n ==> rows[..n][i] == rows[i];
      PutAllKeepsOthers(items, rows[..n], k);
    }
  }

  /** Rows with distinct keys are all stored exactly as given. */
  lemma {:induction false} PutAllStoresEveryRow(items: map<StoreKey, Item>, rows: seq<Item>, i: nat)
    requires AllKeyed(rows) && DistinctKeys(rows)
    requires i < |rows|
    ensures RowKey(rows[i]).value in PutAll(items, rows)
    ensures PutAll(items, rows)[RowKey(rows[i]).value] == rows[i]
    decreases |rows|
  {
    var n := |rows| - 1;
    if i < n {
      var init := rows[..n];
      assert forall m :: 0 <= m < n ==> init[m] == rows[m];
      assert DistinctKeys(init);
      PutAllStoresEveryRow(items, init, i);
      assert RowKey(rows[i]) != RowKey(rows[n]);
    }
  }

  /** A keyed prefix followed by an unkeyed row: that row is the first unkeyed one. */
  lemma FirstUnkeyedAt(rows: seq<Item>, i: nat)
    requires i < |rows| && AllKeyed(rows[..i]) && RowKey(rows[i]).None?
    ensures FirstUnkeyed(rows) == i
  {
    assert forall m :: 0 <= m < i ==> rows[..i][m] == rows[m];
  }

  /** When every row is keyed, none is unkeyed. */
  lemma FirstUnkeyedNone(rows: seq<Item>)
    requires AllKeyed(rows[..|rows|])
    ensures rows[..|rows|] == rows && FirstUnkeyed(rows) == |rows|
  {
    assert rows[..|rows|] == rows;
  }

  /** Putting one more keyed row extends the prefix by one put. */
  lemma PutAllStep(items: map<StoreKey, Item>, rows: seq<Item>, i: nat)
    requires i < |rows| && AllKeyed(rows[..i]) && RowKey(rows[i]).Some?
    ensures AllKeyed(rows[..i + 1])
    ensures PutAll(items, rows[..i + 1]) == PutAll(items, rows[..i])[RowKey(rows[i]).value := rows[i]]
  {
    var next := rows[..i + 1];
    assert next[..i] == rows[..i] && next[i] == rows[i];
    assert forall m :: 0 <= m < i ==> next[m] == rows[..i][m];
  }

  /** What the batch step reports. */
  datatype BatchOutcome =
    | NoData
    | Written(count: nat)
    | BatchFailed(sent: nat)

  /**
   * The batch loop: nothing is written when there is no data; otherwise each
   * row is put and counted, and a row the store cannot key ends the batch
   * with an error after the rows before it.
   */
  method BatchWrite(imported: Option<seq<Item>>, table: PostTable) returns (outcome: BatchOutcome)
    requires table.Valid()
    modifies table
    ensures table.Valid()
    ensures var data := ImportedRows(imported);
            var j := FirstUnkeyed(data);
            if data == [] then outcome == NoData && table.items == old(table.items)
            else if j == |data| then outcome == Written(|data|) && table.items == PutAll(old(table.items), data)
            else outcome == BatchFailed(j) && table.items == PutAll(old(table.items), data[..j])
  {
    var data := ImportedRows(imported);
    if data == [] {
      return NoData;
    }
    var itemCount := 0;
    var i := 0;
    while i < |data|
      invariant 0 <= i <= |data|
      invariant itemCount == i
      invariant table.Valid()
      invariant AllKeyed(data[..i])
      invariant table.items == PutAll(old(table.items), data[..i])
    {
      var row := data[i];
      var k := RowKey(row);
      if k.None? {
        FirstUnkeyedAt(data, i);
        return BatchFailed(itemCount);
      }
      PutAllStep(old(table.items), data, i);
      table.PutItem(k.value, row);
      itemCount := itemCount + 1;
      i := i + 1;
    }
    FirstUnkeyedNone(data);
    outcome := Written(itemCount);
  }
}
