/** `CacheDatasetMixin.cache_dataset` (workflow/mixins.py): fetch the
    ".csv" files of a remote dataset repository, check each against the
    task's column mapping, reconcile row ids, save one row per table row,
    and mark the dataset cached only after every file went in. */
module Ingest {
  import opened Results
  import opened Text
  import opened Uuid
  import opened Records
  import opened Failures

  /** A CSV file as read into a table: its header and its rows, each row
      holding a value under every column. */
  datatype RawTable = RawTable(columns: seq<string>, rows: seq<map<string, string>>)

  type Table = t: RawTable | forall r :: r in t.rows ==> forall c :: c in t.columns ==> c in r
    witness RawTable([], [])

  /** No task key occurs twice (the mapping is a Python dict). */
  predicate DistinctKeys(m: seq<(string, string)>) {
    forall i, j :: 0 <= i < j < |m| ==> m[i].0 != m[j].0
  }

  /** A task's column mapping, in dict order: (task key, CSV column). */
  type Mapping = m: seq<(string, string)> | DistinctKeys(m) witness []

  /** The remote repository service: existing repositories by reference
      ("owner/name"), each with its current commit hash and file list; where
      a downloaded file lands; and the table a local file reads as. */
  datatype Repo = Repo(sha: string, files: seq<string>)
  datatype Remote = Remote(
    repos: map<string, Repo>,
    download: (string, string) -> string,
    read: string -> Table)

  /** The repository's files whose names end in ".csv" (letter case
      counts), kept in listing order. */
  function CsvNames(files: seq<string>): (r: seq<string>)
    ensures forall f :: f in r <==> f in files && EndsWith(f, ".csv")
    ensures |r| <= |files|
    decreases |files|
  {
    if |files| == 0 then []
    else if EndsWith(files[0], ".csv") then [files[0]] + CsvNames(files[1..])
    else CsvNames(files[1..])
  }

  /** Listing one more file keeps the ".csv" files listed so far, in their
      order, and puts the new one last when it is a ".csv" file: the
      filter follows the listing order. */
  lemma {:induction false} CsvNamesAppend(files: seq<string>, f: string)
    ensures CsvNames(files + [f]) == CsvNames(files) + (if EndsWith(f, ".csv") then [f] else [])
    decreases |files|
  {
    if |files| == 0 {
      assert files + [f] == [f];
      assert [f][1..] == [];
    } else {
      assert (files + [f])[0] == files[0];
      assert (files + [f])[1..] == files[1..] + [f];
      CsvNamesAppend(files[1..], f);
    }
  }

  /** The first mapped CSV column (in dict order) that the file lacks. */
  function AbsentColumn(m: Mapping, columns: seq<string>): (r: Option<string>)
    ensures r.None? <==> forall i :: 0 <= i < |m| ==> m[i].1 in columns
    ensures r.Some? ==> r.value !in columns
                        && exists i :: 0 <= i < |m| && m[i].1 == r.value
                                       && forall j :: 0 <= j < i ==> m[j].1 in columns
  {
    match First(m, (p: (string, string)) => p.1 !in columns)
    case None => None
    case Some(i) => Some(m[i].1)
  }

  /** The task keys of a mapping. */
  function KeySet(m: seq<(string, string)>): (r: set<string>)
    ensures forall i :: 0 <= i < |m| ==> m[i].0 in r
    decreases |m|
  {
    if |m| == 0 then {} else KeySet(m[..|m| - 1]) + {m[|m| - 1].0}
  }

  /** The fields of a saved row: each task key of the mapping, in dict
      order, set to the row's cell under that key's CSV column. */
  function Fields(m: seq<(string, string)>, row: map<string, string>): (r: map<string, string>)
    requires forall i :: 0 <= i < |m| ==> m[i].1 in row
    ensures r.Keys == KeySet(m)
    ensures DistinctKeys(m) ==> forall i :: 0 <= i < |m| ==> r[m[i].0] == row[m[i].1]
    decreases |m|
  {
    if |m| == 0 then map[]
    else
      var last := m[|m| - 1];
      var front := m[..|m| - 1];
      assert forall i :: 0 <= i < |front| ==> front[i] == m[i];
      Fields(front, row)[last.0 := row[last.1]]
  }

  /** Whether the table has an "id" column and row `i` keeps its id: the
      cell is in the canonical version-4 form, which is what `is_valid_uuid`
      accepts (see `KeepsIdIsValidUuid`). */
  predicate KeepsId(t: Table, i: nat)
    requires i < |t.rows|
  {
    "id" in t.columns && CanonicalV4(t.rows[i]["id"])
  }

  /** Row `i` keeps its id exactly when the table has an "id" column and
      `is_valid_uuid` accepts the cell. */
  lemma KeepsIdIsValidUuid(t: Table, i: nat)
    requires i < |t.rows|
    ensures KeepsId(t, i) <==> "id" in t.columns && IsValidUuid(t.rows[i]["id"])
  {
    if "id" in t.columns {
      ValidUuidIsCanonicalV4(t.rows[i]["id"]);
    }
  }

  /** `entropy(n)`, ..., `entropy(m - 1)`: the ids that `m - n` calls of
      `uuid.uuid4()` produce. */
  function Draws(e: Entropy, n: nat, m: nat): (r: seq<Uuid4>)
    requires n <= m
    ensures |r| == m - n && forall k :: 0 <= k < m - n ==> r[k] == e(n + k)
  {
    seq(m - n, k requires 0 <= k < m - n => e(n + k))
  }

  /** The ids of the rows that did not keep their own, in row order. */
  function ReplacedIds(t: Table, ids: seq<Uuid4>, from: nat): seq<Uuid4>
    requires from <= |t.rows| && |ids| == |t.rows|
    decreases |t.rows| - from
  {
    if from == |t.rows| then []
    else if KeepsId(t, from) then ReplacedIds(t, ids, from + 1)
    else [ids[from]] + ReplacedIds(t, ids, from + 1)
  }

  datatype Reconciled = Reconciled(ids: seq<Uuid4>, drawn: nat)

  /** Row-id reconciliation from row `from` on, with `n` draws consumed: a
      row keeps an "id" that passes `is_valid_uuid`, every other row (and
      every row of a table without an "id" column) gets the next
      `uuid.uuid4()`. */
  function ReconcileIds(t: Table, e: Entropy, n: nat, from: nat): (r: Reconciled)
    requires from <= |t.rows|
    ensures |r.ids| == |t.rows| - from && n <= r.drawn
    ensures forall i :: from <= i < |t.rows| && KeepsId(t, i) ==> r.ids[i - from] == t.rows[i]["id"]
    decreases |t.rows| - from
  {
    if from == |t.rows| then Reconciled([], n)
    else if KeepsId(t, from) then
      var cell := t.rows[from]["id"];
      var rest := ReconcileIds(t, e, n, from + 1);
      Reconciled([cell] + rest.ids, rest.drawn)
    else
      var rest := ReconcileIds(t, e, n + 1, from + 1);
      Reconciled([e(n)] + rest.ids, rest.drawn)
  }

  /** The replaced ids are exactly the fresh draws, each used once, in row
      order. */
  lemma {:induction false} ReconcileDrawsInOrder(t: Table, e: Entropy, n: nat, from: nat, ids: seq<Uuid4>)
    requires from <= |t.rows| && |ids| == |t.rows|
    requires ids[from..] == ReconcileIds(t, e, n, from).ids
    ensures ReplacedIds(t, ids, from) == Draws(e, n, ReconcileIds(t, e, n, from).drawn)
    decreases |t.rows| - from
  {
    if from < |t.rows| {
      assert ids[from + 1..] == ids[from..][1..];
      if KeepsId(t, from) {
        ReconcileDrawsInOrder(t, e, n, from + 1, ids);
      } else {
        ReconcileDrawsInOrder(t, e, n + 1, from + 1, ids);
        var m := ReconcileIds(t, e, n, from).drawn;
        assert ids[from] == e(n);
        assert Draws(e, n, m) == [e(n)] + Draws(e, n + 1, m);
      }
    }
  }

  /** The rows saved for one file: row `i` of the table becomes a record of
      dataset `did`, named after the file, with the reconciled id and the
      mapped fields. */
  predicate RowsMatch(block: seq<Row>, did: nat, file: string, m: Mapping, t: Table) {
    |block| == |t.rows| && forall i :: 0 <= i < |block| ==> RowMatches(block[i], did, file, m, t.rows[i])
  }

  /** One saved row: its dataset, its file name, and exactly the mapped
      fields, each holding its source column's cell as the table reads
      after id reconciliation, where the "id" column holds the row's
      reconciled id. */
  predicate RowMatches(row: Row, did: nat, file: string, m: Mapping, cells: map<string, string>) {
    var reconciled := cells["id" := row.id];
    && row.datasetId == did
    && row.file == file
    && row.fields.Keys == KeySet(m)
    && forall k :: 0 <= k < |m| ==> m[k].1 in reconciled && row.fields[m[k].0] == reconciled[m[k].1]
  }

  /** Every saved row whose table row kept its id carries that id. */
  predicate IdsKept(block: seq<Row>, t: Table) {
    |block| == |t.rows| && forall i :: 0 <= i < |block| && KeepsId(t, i) ==> block[i].id == t.rows[i]["id"]
  }

  datatype FileOutcome = FileOutcome(store: Store, saved: seq<Row>, failure: Option<Failure>)

  /** One iteration of the per-file loop: column check, id reconciliation
      (which rewrites the table's "id" column before any row is read), then
      one saved row per table row. */
  function IngestFile(s: Store, did: nat, m: Mapping, path: string, t: Table, e: Entropy): (r: FileOutcome)
    ensures r.failure.Some? <==> AbsentColumn(m, t.columns).Some?
    ensures r.failure.Some? ==>
              r.store == s && r.saved == []
              && r.failure == Some(MissingColumn(AbsentColumn(m, t.columns).value, LastSegment(path)))
    ensures r.failure.None? ==>
              && r.store == s.(rows := s.rows + r.saved, drawn := r.store.drawn)
              && s.drawn <= r.store.drawn
              && RowsMatch(r.saved, did, LastSegment(path), m, t)
  {
    match AbsentColumn(m, t.columns)
    case Some(c) => FileOutcome(s, [], Some(MissingColumn(c, LastSegment(path))))
    case None =>
      var rec := ReconcileIds(t, e, s.drawn, 0);
      var file := LastSegment(path);
      var block := seq(|t.rows|, i requires 0 <= i < |t.rows| =>
        Row(rec.ids[i], did, file, Fields(m, t.rows[i]["id" := rec.ids[i]])));
      FileOutcome(s.(rows := s.rows + block, drawn := rec.drawn), block, None)
  }

  /** A saved file's rows keep every id that passed `is_valid_uuid`. */
  lemma IngestFileIds(s: Store, did: nat, m: Mapping, path: string, t: Table, e: Entropy)
    requires AbsentColumn(m, t.columns).None?
    ensures IdsKept(IngestFile(s, did, m, path, t, e).saved, t)
  {
  }

  /** A task key mapped to the "id" column stores the row's reconciled id:
      the kept valid id, or the fresh one that replaced the cell. */
  lemma IngestFileIdColumn(s: Store, did: nat, m: Mapping, path: string, t: Table, e: Entropy, i: nat, k: nat)
    requires AbsentColumn(m, t.columns).None?
    requires k < |m| && m[k].1 == "id"
    requires i < |IngestFile(s, did, m, path, t, e).saved|
    ensures var row := IngestFile(s, did, m, path, t, e).saved[i];
            row.fields[m[k].0] == row.id
            && (KeepsId(t, i) ==> row.fields[m[k].0] == t.rows[i]["id"])
  {
    IngestFileIds(s, did, m, path, t, e);
  }

  /** The fresh ids of one saved file are the next draws, used once each. */
  lemma IngestFileDraws(s: Store, did: nat, m: Mapping, path: string, t: Table, e: Entropy)
    requires AbsentColumn(m, t.columns).None?
    ensures var r := IngestFile(s, did, m, path, t, e);
            ReplacedIds(t, seq(|r.saved|, i requires 0 <= i < |r.saved| => r.saved[i].id), 0)
              == Draws(e, s.drawn, r.store.drawn)
  {
    var r := IngestFile(s, did, m, path, t, e);
    var ids := seq(|r.saved|, i requires 0 <= i < |r.saved| => r.saved[i].id);
    assert ids[0..] == ReconcileIds(t, e, s.drawn, 0).ids;
    ReconcileDrawsInOrder(t, e, s.drawn, 0, ids);
  }

  function Flatten(blocks: seq<seq<Row>>): seq<Row>
    decreases |blocks|
  {
    if |blocks| == 0 then [] else Flatten(blocks[..|blocks| - 1]) + blocks[|blocks| - 1]
  }

  /** Flattening one more block appends its rows after the others. */
  lemma FlattenSnoc(rows: seq<Row>, blocks: seq<seq<Row>>, b: seq<Row>)
    ensures rows + Flatten(blocks + [b]) == (rows + Flatten(blocks)) + b
  {
    assert (blocks + [b])[..|blocks|] == blocks;
  }

  datatype Ingested = Ingested(store: Store, saved: seq<seq<Row>>, failure: Option<Failure>)

  /** The per-file loop over the first `n` downloaded paths, in order: it
      stops at the first file that lacks a mapped column, keeping what
      earlier files saved, and otherwise saves one block of rows per file. */
  function IngestFiles(s: Store, did: nat, m: Mapping, paths: seq<string>, n: nat, read: string -> Table, e: Entropy): (r: Ingested)
    requires n <= |paths|
    ensures r.store == s.(rows := s.rows + Flatten(r.saved), drawn := r.store.drawn)
    ensures s.drawn <= r.store.drawn
    ensures |r.saved| <= n
    ensures r.failure.None? <==> |r.saved| == n
    ensures r.failure.Some? ==> r.failure.value.MissingColumn?
    decreases n
  {
    if n == 0 then Ingested(s, [], None)
    else
      var front := IngestFiles(s, did, m, paths, n - 1, read, e);
      if front.failure.Some? then front
      else
        var last := paths[n - 1];
        var f := IngestFile(front.store, did, m, last, read(last), e);
        if f.failure.Some? then Ingested(f.store, front.saved, f.failure)
        else
          var saved := front.saved + [f.saved];
          FlattenSnoc(s.rows, front.saved, f.saved);
          Ingested(f.store, saved, None)
  }

  /** Block `j` of the saved rows is file `j`, which has every mapped column,
      saved row for row with the ids it kept. */
  lemma {:induction false} IngestFilesBlock(s: Store, did: nat, m: Mapping, paths: seq<string>, n: nat, read: string -> Table, e: Entropy, j: nat)
    requires n <= |paths| && j < |IngestFiles(s, did, m, paths, n, read, e).saved|
    ensures var b := IngestFiles(s, did, m, paths, n, read, e).saved[j];
            && AbsentColumn(m, read(paths[j]).columns).None?
            && RowsMatch(b, did, LastSegment(paths[j]), m, read(paths[j]))
            && IdsKept(b, read(paths[j]))
    decreases n
  {
    if j < |IngestFiles(s, did, m, paths, n - 1, read, e).saved| {
      IngestFilesPrefix(s, did, m, paths, n, read, e, j);
      IngestFilesBlock(s, did, m, paths, n - 1, read, e, j);
    } else {
      IngestFilesLast(s, did, m, paths, n, read, e, j);
    }
  }

  /** The loop over `n` files keeps the blocks the loop over `n - 1` saved. */
  lemma IngestFilesPrefix(s: Store, did: nat, m: Mapping, paths: seq<string>, n: nat, read: string -> Table, e: Entropy, j: nat)
    requires 0 < n <= |paths| && j < |IngestFiles(s, did, m, paths, n - 1, read, e).saved|
    ensures j < |IngestFiles(s, did, m, paths, n, read, e).saved|
    ensures IngestFiles(s, did, m, paths, n, read, e).saved[j] == IngestFiles(s, did, m, paths, n - 1, read, e).saved[j]
  {
    IngestFilesStep(s, did, m, paths, n, read, e);
    AdvanceKeeps(IngestFiles(s, did, m, paths, n, read, e), IngestFiles(s, did, m, paths, n - 1, read, e), did, m, paths, read, n, j);
  }

  /** A block beyond those of the loop over `n - 1` files is the last
      file's, saved whole. */
  lemma IngestFilesLast(s: Store, did: nat, m: Mapping, paths: seq<string>, n: nat, read: string -> Table, e: Entropy, j: nat)
    requires 0 < n <= |paths|
    requires |IngestFiles(s, did, m, paths, n - 1, read, e).saved| <= j < |IngestFiles(s, did, m, paths, n, read, e).saved|
    ensures var b := IngestFiles(s, did, m, paths, n, read, e).saved[j];
            && AbsentColumn(m, read(paths[j]).columns).None?
            && RowsMatch(b, did, LastSegment(paths[j]), m, read(paths[j]))
            && IdsKept(b, read(paths[j]))
  {
    IngestFilesStep(s, did, m, paths, n, read, e);
    AdvanceAdds(IngestFiles(s, did, m, paths, n, read, e), IngestFiles(s, did, m, paths, n - 1, read, e), did, m, paths, read, n, j);
  }

  /** From loop state `front` over `n - 1` files to `r` over `n`: a failure
      adds no block; getting through adds exactly the block of file `n - 1`,
      with every mapped column present, saved row for row with its kept ids. */
  predicate Advances(r: Ingested, front: Ingested, did: nat, m: Mapping, paths: seq<string>, read: string -> Table, n: nat)
    requires 0 < n <= |paths|
  {
    && (r.failure.Some? ==> r.saved == front.saved)
    && (|front.saved| < |r.saved| ==> r.failure.None? && |front.saved| == n - 1 && |r.saved| == n)
    && (r.failure.None? ==>
          && front.failure.None?
          && |r.saved| == n
          && r.saved == front.saved + [r.saved[n - 1]]
          && AbsentColumn(m, read(paths[n - 1]).columns).None?
          && RowsMatch(r.saved[n - 1], did, LastSegment(paths[n - 1]), m, read(paths[n - 1]))
          && IdsKept(r.saved[n - 1], read(paths[n - 1])))
  }

  /** A step keeps every block already saved. */
  lemma AdvanceKeeps(r: Ingested, front: Ingested, did: nat, m: Mapping, paths: seq<string>, read: string -> Table, n: nat, j: nat)
    requires 0 < n <= |paths| && Advances(r, front, did, m, paths, read, n)
    requires j < |front.saved| && (r.failure.None? ==> |front.saved| == n - 1)
    ensures j < |r.saved| && r.saved[j] == front.saved[j]
  {
  }

  /** A block a step adds is the block of file `n - 1`. */
  lemma AdvanceAdds(r: Ingested, front: Ingested, did: nat, m: Mapping, paths: seq<string>, read: string -> Table, n: nat, j: nat)
    requires 0 < n <= |paths| && Advances(r, front, did, m, paths, read, n)
    requires |front.saved| <= j < |r.saved|
    ensures j < |paths|
    ensures var b := r.saved[j];
            && AbsentColumn(m, read(paths[j]).columns).None?
            && RowsMatch(b, did, LastSegment(paths[j]), m, read(paths[j]))
            && IdsKept(b, read(paths[j]))
  {
  }

  /** A loop over `n` files that failed saved what the loop over the first
      `n - 1` saved; one that got through got through the first `n - 1` and
      then saved file `n - 1` whole. */
  lemma IngestFilesStep(s: Store, did: nat, m: Mapping, paths: seq<string>, n: nat, read: string -> Table, e: Entropy)
    requires 0 < n <= |paths|
    ensures Advances(IngestFiles(s, did, m, paths, n, read, e), IngestFiles(s, did, m, paths, n - 1, read, e), did, m, paths, read, n)
    ensures IngestFiles(s, did, m, paths, n, read, e).failure.None? ==> |IngestFiles(s, did, m, paths, n - 1, read, e).saved| == n - 1
  {
    var front := IngestFiles(s, did, m, paths, n - 1, read, e);
    var last := paths[n - 1];
    if front.failure.None? && AbsentColumn(m, read(last).columns).None? {
      IngestFileIds(front.store, did, m, last, read(last), e);
    }
  }

  /** A failed loop stopped at file `k`, the number of files saved, with the
      first mapped column that file lacks. */
  lemma {:induction false} IngestFilesFailure(s: Store, did: nat, m: Mapping, paths: seq<string>, n: nat, read: string -> Table, e: Entropy)
    requires n <= |paths|
    ensures var r := IngestFiles(s, did, m, paths, n, read, e);
            r.failure.Some? ==> |r.saved| < n && StoppedAt(m, paths, read, |r.saved|, r.failure.value)
    decreases n
  {
    if n > 0 {
      IngestFilesFailure(s, did, m, paths, n - 1, read, e);
      IngestFilesStop(s, did, m, paths, n, read, e);
      StopCarries(IngestFiles(s, did, m, paths, n, read, e), IngestFiles(s, did, m, paths, n - 1, read, e), m, paths, read, n);
    }
  }

  /** The failure of the last step, or the one carried over from the step
      before, is where the loop stopped. */
  lemma StopCarries(r: Ingested, front: Ingested, m: Mapping, paths: seq<string>, read: string -> Table, n: nat)
    requires 0 < n
    requires front.failure.Some? ==> |front.saved| < n - 1 && StoppedAt(m, paths, read, |front.saved|, front.failure.value)
    requires r.failure.Some? ==>
               (front.failure.Some? && r.failure == front.failure && r.saved == front.saved)
               || (front.failure.None? && |r.saved| == n - 1 && StoppedAt(m, paths, read, n - 1, r.failure.value))
    ensures r.failure.Some? ==> |r.saved| < n && StoppedAt(m, paths, read, |r.saved|, r.failure.value)
  {
  }

  /** File `k` is where the loop stops: it lacks a mapped column, and the
      failure names the first one it lacks and the file. */
  predicate StoppedAt(m: Mapping, paths: seq<string>, read: string -> Table, k: nat, f: Failure) {
    var c := if k < |paths| then AbsentColumn(m, read(paths[k]).columns) else None;
    k < |paths| && c.Some? && f == MissingColumn(c.value, LastSegment(paths[k]))
  }

  /** A loop over `n` files fails either as the loop over `n - 1` failed, or
      at file `n - 1`, after all earlier files. */
  lemma IngestFilesStop(s: Store, did: nat, m: Mapping, paths: seq<string>, n: nat, read: string -> Table, e: Entropy)
    requires 0 < n <= |paths|
    ensures var r := IngestFiles(s, did, m, paths, n, read, e);
            var front := IngestFiles(s, did, m, paths, n - 1, read, e);
            r.failure.Some? ==>
              (front.failure.Some? && r.failure == front.failure && r.saved == front.saved)
              || (front.failure.None? && |r.saved| == n - 1 && StoppedAt(m, paths, read, n - 1, r.failure.value))
  {
  }

  datatype Cached = Cached(store: Store, failure: Option<Failure>)

  /** The downloaded local paths of a repository's ".csv" files, in listing
      order. */
  function CsvPaths(ref: string, remote: Remote): (paths: seq<string>)
    requires ref in remote.repos
    ensures |paths| == |CsvNames(remote.repos[ref].files)|
  {
    var names := CsvNames(remote.repos[ref].files);
    seq(|names|, i requires 0 <= i < |names| => remote.download(ref, names[i]))
  }

  /** `cache_dataset(dataset_object, task_mapping, ref)`. */
  function CacheDataset(s: Store, did: nat, m: Mapping, ref: string, remote: Remote, e: Entropy): (r: Cached)
    ensures r.store.users == s.users && r.store.workflows == s.workflows
    ensures r.store.nextKey == s.nextKey && s.drawn <= r.store.drawn
    ensures |s.rows| <= |r.store.rows| && r.store.rows[..|s.rows|] == s.rows
    ensures r.failure.Some? ==> r.store.datasets == s.datasets
    ensures r.failure.Some? ==>
              r.failure.value in {RepoNotFound, NoCsvFiles} || r.failure.value.MissingColumn?
    ensures r.failure.None? ==>
              ref in remote.repos
              && r.store.datasets == MarkCached(s.datasets, did, remote.repos[ref].sha)
  {
    if ref !in remote.repos then Cached(s, Some(RepoNotFound))
    else
      var paths := CsvPaths(ref, remote);
      if |paths| == 0 then Cached(s, Some(NoCsvFiles))
      else
        var r := IngestFiles(s, did, m, paths, |paths|, remote.read, e);
        assert r.store.rows[..|s.rows|] == s.rows;
        if r.failure.Some? then Cached(r.store, r.failure)
        else Cached(r.store.(datasets := MarkCached(r.store.datasets, did, remote.repos[ref].sha)), None)
  }

  /** Ingestion succeeds exactly when the repository exists, has at least
      one ".csv" file, and every such file has every mapped column; its
      failures are ordered: missing repository, then no ".csv" file, then
      the first file (and its first column) that lacks a mapped column. */
  lemma CacheDatasetOutcome(s: Store, did: nat, m: Mapping, ref: string, remote: Remote, e: Entropy)
    ensures var r := CacheDataset(s, did, m, ref, remote, e);
            r.failure.None? <==>
              ref in remote.repos && |CsvPaths(ref, remote)| > 0
              && forall j :: 0 <= j < |CsvPaths(ref, remote)| ==>
                   AbsentColumn(m, remote.read(CsvPaths(ref, remote)[j]).columns).None?
    ensures ref !in remote.repos ==>
              CacheDataset(s, did, m, ref, remote, e) == Cached(s, Some(RepoNotFound))
    ensures ref in remote.repos && |CsvPaths(ref, remote)| == 0 ==>
              CacheDataset(s, did, m, ref, remote, e) == Cached(s, Some(NoCsvFiles))
    ensures ref in remote.repos && CacheDataset(s, did, m, ref, remote, e).failure.Some? ==>
              var paths := CsvPaths(ref, remote);
              |paths| == 0
              || exists k :: 0 <= k < |paths|
                   && (forall j :: 0 <= j < k ==> AbsentColumn(m, remote.read(paths[j]).columns).None?)
                   && AbsentColumn(m, remote.read(paths[k]).columns).Some?
                   && CacheDataset(s, did, m, ref, remote, e).failure
                      == Some(MissingColumn(AbsentColumn(m, remote.read(paths[k]).columns).value, LastSegment(paths[k])))
  {
    if ref in remote.repos && |CsvPaths(ref, remote)| > 0 {
      var paths := CsvPaths(ref, remote);
      IngestFilesFailure(s, did, m, paths, |paths|, remote.read, e);
      var ing := IngestFiles(s, did, m, paths, |paths|, remote.read, e);
      forall j | 0 <= j < |ing.saved|
        ensures AbsentColumn(m, remote.read(paths[j]).columns).None?
      {
        IngestFilesBlock(s, did, m, paths, |paths|, remote.read, e, j);
      }
      if ing.failure.Some? {
        var k := |ing.saved|;
        assert forall j :: 0 <= j < k ==> AbsentColumn(m, remote.read(paths[j]).columns).None?;
        assert !(forall j :: 0 <= j < |paths| ==> AbsentColumn(m, remote.read(paths[j]).columns).None?) by {
          assert AbsentColumn(m, remote.read(paths[k]).columns).Some?;
        }
      }
    }
  }

  /** On success every table row of every ".csv" file was saved exactly
      once, file after file, as a row of the dataset. */
  lemma CacheDatasetRows(s: Store, did: nat, m: Mapping, ref: string, remote: Remote, e: Entropy)
    requires CacheDataset(s, did, m, ref, remote, e).failure.None?
    ensures ref in remote.repos
    ensures var r := CacheDataset(s, did, m, ref, remote, e);
            var paths := CsvPaths(ref, remote);
            exists saved: seq<seq<Row>> ::
              && |saved| == |paths|
              && r.store.rows == s.rows + Flatten(saved)
              && forall j :: 0 <= j < |paths| ==>
                   RowsMatch(saved[j], did, LastSegment(paths[j]), m, remote.read(paths[j]))
                   && IdsKept(saved[j], remote.read(paths[j]))
  {
    var paths := CsvPaths(ref, remote);
    var ing := IngestFiles(s, did, m, paths, |paths|, remote.read, e);
    assert |ing.saved| == |paths|;
    forall j | 0 <= j < |paths|
      ensures RowsMatch(ing.saved[j], did, LastSegment(paths[j]), m, remote.read(paths[j]))
      ensures IdsKept(ing.saved[j], remote.read(paths[j]))
    {
      IngestFilesBlock(s, did, m, paths, |paths|, remote.read, e, j);
    }
    assert CacheDataset(s, did, m, ref, remote, e).store.rows == s.rows + Flatten(ing.saved);
  }

  /** A file that lacks a mapped column stops ingestion with none of its own
      rows saved, while the rows of every earlier file stay saved, and the
      dataset stays unmarked. */
  lemma CacheDatasetKeepsEarlierRows(s: Store, did: nat, m: Mapping, ref: string, remote: Remote, e: Entropy)
    requires CacheDataset(s, did, m, ref, remote, e).failure.Some?
    requires ref in remote.repos && |CsvPaths(ref, remote)| > 0
    ensures var r := CacheDataset(s, did, m, ref, remote, e);
            var paths := CsvPaths(ref, remote);
            && r.store.datasets == s.datasets
            && exists saved: seq<seq<Row>> ::
                 && |saved| < |paths|
                 && r.store.rows == s.rows + Flatten(saved)
                 && StoppedAt(m, paths, remote.read, |saved|, r.failure.value)
                 && forall j :: 0 <= j < |saved| ==>
                      RowsMatch(saved[j], did, LastSegment(paths[j]), m, remote.read(paths[j]))
                      && IdsKept(saved[j], remote.read(paths[j]))
  {
    var paths := CsvPaths(ref, remote);
    var ing := IngestFiles(s, did, m, paths, |paths|, remote.read, e);
    IngestFilesFailure(s, did, m, paths, |paths|, remote.read, e);
    forall j | 0 <= j < |ing.saved|
      ensures RowsMatch(ing.saved[j], did, LastSegment(paths[j]), m, remote.read(paths[j]))
      ensures IdsKept(ing.saved[j], remote.read(paths[j]))
    {
      IngestFilesBlock(s, did, m, paths, |paths|, remote.read, e, j);
    }
    assert CacheDataset(s, did, m, ref, remote, e).store.rows == s.rows + Flatten(ing.saved);
  }

  /** Ingestion keeps the store valid: it adds rows and marks a dataset, and
      hands out no primary key. */
  lemma CacheDatasetValid(s: Store, did: nat, m: Mapping, ref: string, remote: Remote, e: Entropy)
    requires Valid(s)
    ensures Valid(CacheDataset(s, did, m, ref, remote, e).store)
  {
  }
}
