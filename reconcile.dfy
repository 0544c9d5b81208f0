/**
 * The reconciliation performed by `ImageScanService`, as functions of the store contents and
 * the filesystem: the per-file pass shared by `scanFolder` and `scanAllFolders`, the single-folder
 * scan, the per-folder step of the all-folders scan and the cleanup pass. The service methods are
 * proved to produce exactly these states; the lemmas here state what the source promises of them.
 */
module Reconcile {
  import opened Wrappers
  import opened Text
  import opened Entities
  import opened ImageStore
  import opened FolderStore
  import opened FileTree

  /**
   * Where store calls throw. An upsert of a path in `failingUpserts` throws; the interim count
   * write after a path in `failingCheckpoints` throws; the scans' read of the images of a folder
   * in `failingFolders` throws, and so does the cleanup's read of a folder in
   * `failingCleanupReads`. `message` is the exception message.
   */
  datatype Faults = Faults(
    failingUpserts: set<string>,
    failingCheckpoints: set<string>,
    failingFolders: set<string>,
    failingCleanupReads: set<string>,
    message: string)

  predicate IsContentUri(folderPath: string)
  {
    StartsWith(folderPath, ContentScheme)
  }

  /** Which loop a pass belongs to: `scanFolder` (with checkpoints) or `scanAllFolders` (with progress). */
  datatype Mode = SingleFolder | AllFolders(base: int, total: int)

  /** The parameters of one pass over a folder's listing; `existing` is the snapshot read before it. */
  datatype Pass = Pass(
    existing: ImageRows,
    folderPath: string,
    ocr: string -> string,
    now: int,
    faults: Faults,
    mode: Mode)

  /** An interim folder-count write: the processed count that triggered it and the count written. */
  datatype Checkpoint = Checkpoint(processed: nat, imageCount: nat)

  /** The state a pass carries from file to file. */
  datatype Tally = Tally(rows: ImageRows, processed: nat, added: nat, trace: seq<Checkpoint>, progress: ScanProgress)

  /** The record written for a new or modified file. */
  function Record(pass: Pass, info: ImageFileInfo): ImageEntity
  {
    ImageEntity(info.path, info.name, pass.folderPath, pass.ocr(info.path), info.lastModified, info.size, pass.now)
  }

  /** A listed file whose snapshot record has the same `lastModified` is skipped. */
  predicate Unchanged(existing: ImageRows, info: ImageFileInfo)
  {
    info.path in existing && existing[info.path].lastModified == info.lastModified
  }

  function PathsOf(files: seq<ImageFileInfo>): set<string>
  {
    set i | 0 <= i < |files| :: files[i].path
  }

  predicate DistinctPaths(files: seq<ImageFileInfo>)
  {
    forall a, b :: 0 <= a < b < |files| ==> files[a].path != files[b].path
  }

  /** One iteration of the per-file loop, including what its `catch` does. */
  function ProcessFile(pass: Pass, t: Tally, info: ImageFileInfo): Tally
  {
    if Unchanged(pass.existing, info) then t.(processed := t.processed + 1)
    else
      var progress := if pass.mode.AllFolders? then Scanning(info.name, pass.mode.base + t.processed, pass.mode.total) else t.progress;
      if info.path in pass.faults.failingUpserts then t.(processed := t.processed + 1, progress := progress)
      else
        var rows := t.rows[info.path := Record(pass, info)];
        var added := if info.path in pass.existing then t.added else t.added + 1;
        var processed := t.processed + 1;
        if pass.mode.SingleFolder? && processed % 10 == 0 then
          if info.path in pass.faults.failingCheckpoints then Tally(rows, processed + 1, added, t.trace, progress)
          else Tally(rows, processed, added, t.trace + [Checkpoint(processed, |InFolder(rows, pass.folderPath)|)], progress)
        else Tally(rows, processed, added, t.trace, progress)
  }

  /** The per-file loop over `files`, from the first file to the last. */
  function FoldFiles(pass: Pass, t: Tally, files: seq<ImageFileInfo>): Tally
  {
    if files == [] then t else ProcessFile(pass, FoldFiles(pass, t, files[..|files| - 1]), files[|files| - 1])
  }

  lemma FoldFilesStep(pass: Pass, t: Tally, files: seq<ImageFileInfo>, i: nat)
    requires i < |files|
    ensures FoldFiles(pass, t, files[..i + 1]) == ProcessFile(pass, FoldFiles(pass, t, files[..i]), files[i])
  {
    assert files[..i + 1][..i] == files[..i];
  }

  // ---------------------------------------------------------------------------------------
  // Properties of one pass

  /**
   * Every listed file is counted once, and once more when its checkpoint throws; a file counts
   * as new only after its upsert, so new never exceeds processed.
   */
  lemma {:induction false} FoldCounts(pass: Pass, t: Tally, files: seq<ImageFileInfo>)
    ensures var r := FoldFiles(pass, t, files);
      && t.processed + |files| <= r.processed
      && r.added - t.added <= r.processed - t.processed
      && t.added <= r.added <= t.added + |files|
      && (pass.mode.AllFolders? || pass.faults.failingCheckpoints == {} ==> r.processed == t.processed + |files|)
  {
    if files != [] {
      FoldCounts(pass, t, files[..|files| - 1]);
    }
  }

  /** A pass never deletes: every row survives, and rows of unlisted paths are untouched. */
  lemma {:induction false} FoldKeepsRows(pass: Pass, t: Tally, files: seq<ImageFileInfo>)
    ensures var r := FoldFiles(pass, t, files);
      && t.rows.Keys <= r.rows.Keys
      && (forall k :: k in t.rows && k !in PathsOf(files) ==> r.rows[k] == t.rows[k])
      && (forall k :: k in r.rows && k !in t.rows ==> k in PathsOf(files))
  {
    if files != [] {
      var init := files[..|files| - 1];
      FoldKeepsRows(pass, t, init);
      assert PathsOf(init) <= PathsOf(files) by {
        forall k | k in PathsOf(init) ensures k in PathsOf(files) {
          var i :| 0 <= i < |init| && init[i].path == k;
          assert files[i].path == k;
        }
      }
      assert files[|files| - 1].path in PathsOf(files);
    }
  }

  /** The row a listed file ends up with when its upsert does not throw. */
  function Expected(pass: Pass, info: ImageFileInfo): ImageEntity
    requires info.path in pass.existing || !Unchanged(pass.existing, info)
  {
    if Unchanged(pass.existing, info) then pass.existing[info.path] else Record(pass, info)
  }

  /** The snapshot agrees with the rows the pass starts from. */
  ghost predicate SnapshotOf(existing: ImageRows, rows: ImageRows)
  {
    forall k :: k in existing ==> k in rows && rows[k] == existing[k]
  }

  /**
   * With distinct paths and no failing upsert, every listed file ends with its snapshot record
   * when unchanged, and otherwise with its path, name, the folder, the extracted text, and the
   * listed `lastModified` and size.
   */
  lemma {:induction false} FoldWritesRecords(pass: Pass, t: Tally, files: seq<ImageFileInfo>)
    requires DistinctPaths(files) && SnapshotOf(pass.existing, t.rows)
    requires forall i :: 0 <= i < |files| ==> files[i].path !in pass.faults.failingUpserts
    ensures var r := FoldFiles(pass, t, files);
      forall i :: 0 <= i < |files| ==> files[i].path in r.rows && r.rows[files[i].path] == Expected(pass, files[i])
  {
    if files != [] {
      var init, last := files[..|files| - 1], files[|files| - 1];
      FoldWritesRecords(pass, t, init);
      var p := FoldFiles(pass, t, init);
      FoldKeepsRows(pass, t, init);
      if Unchanged(pass.existing, last) {
        forall i | 0 <= i < |init| ensures init[i].path != last.path {
          assert init[i] == files[i];
        }
      }
      forall i | 0 <= i < |files|
        ensures files[i].path in FoldFiles(pass, t, files).rows
        ensures FoldFiles(pass, t, files).rows[files[i].path] == Expected(pass, files[i])
      {
        if i < |files| - 1 {
          assert init[i] == files[i];
          assert files[i].path != last.path;
        }
      }
    }
  }

  /** A pass over files that are all unchanged only counts them. */
  lemma {:induction false} FoldAllUnchanged(pass: Pass, t: Tally, files: seq<ImageFileInfo>)
    requires forall i :: 0 <= i < |files| ==> Unchanged(pass.existing, files[i])
    ensures FoldFiles(pass, t, files) == t.(processed := t.processed + |files|)
  {
    if files != [] {
      FoldAllUnchanged(pass, t, files[..|files| - 1]);
    }
  }

  /**
   * Interim checkpoints are written only at positive multiples of 10 processed files, in
   * increasing order, and only in `scanFolder`.
   */
  lemma {:induction false} FoldCheckpoints(pass: Pass, t: Tally, files: seq<ImageFileInfo>)
    requires forall j :: 0 <= j < |t.trace| ==> t.trace[j].processed <= t.processed
    ensures var r := FoldFiles(pass, t, files);
      && |t.trace| <= |r.trace| && r.trace[..|t.trace|] == t.trace
      && (pass.mode.AllFolders? ==> r.trace == t.trace)
      && t.processed <= r.processed
      && forall j :: |t.trace| <= j < |r.trace| ==>
           r.trace[j].processed % 10 == 0 && t.processed < r.trace[j].processed <= r.processed
           && (j > |t.trace| ==> r.trace[j - 1].processed < r.trace[j].processed)
    ensures forall j :: 0 <= j < |FoldFiles(pass, t, files).trace| ==>
      FoldFiles(pass, t, files).trace[j].processed <= FoldFiles(pass, t, files).processed
  {
    if files != [] {
      var m := FoldFiles(pass, t, files[..|files| - 1]);
      FoldCheckpoints(pass, t, files[..|files| - 1]);
      ProcessFileCheckpoint(pass, m, files[|files| - 1]);
    }
  }

  /**
   * One file: it counts once, and once more when its checkpoint throws. It is new exactly when
   * its path is not in the snapshot and its upsert completes. A checkpoint is due only in
   * `scanFolder`, after a completed upsert of a changed file that brings the count to a multiple
   * of 10; unless it throws, it records that count and the folder's row count after the upsert.
   */
  lemma ProcessFileCheckpoint(pass: Pass, t: Tally, info: ImageFileInfo)
    ensures var r := ProcessFile(pass, t, info);
      var upserted := !Unchanged(pass.existing, info) && info.path !in pass.faults.failingUpserts;
      var due := pass.mode.SingleFolder? && upserted && (t.processed + 1) % 10 == 0;
      && t.processed < r.processed
      && r.added == t.added + (if upserted && info.path !in pass.existing then 1 else 0)
      && r.processed == t.processed + (if due && info.path in pass.faults.failingCheckpoints then 2 else 1)
      && (if due && info.path !in pass.faults.failingCheckpoints
          then r.processed % 10 == 0 && r.trace == t.trace + [Checkpoint(r.processed, |InFolder(r.rows, pass.folderPath)|)]
          else r.trace == t.trace)
  {
  }

  /** The number of listed files that are new to the snapshot and whose upsert completes. */
  function NewFiles(existing: ImageRows, failingUpserts: set<string>, files: seq<ImageFileInfo>): (n: nat)
    ensures n <= |files|
  {
    if files == [] then 0
    else
      var last := files[|files| - 1];
      NewFiles(existing, failingUpserts, files[..|files| - 1]) + (if last.path !in existing && last.path !in failingUpserts then 1 else 0)
  }

  /** The new count a pass reports is exactly the number of new files whose upsert completed. */
  lemma {:induction false} FoldAddedExact(pass: Pass, t: Tally, files: seq<ImageFileInfo>)
    ensures FoldFiles(pass, t, files).added == t.added + NewFiles(pass.existing, pass.faults.failingUpserts, files)
  {
    if files != [] {
      FoldAddedExact(pass, t, files[..|files| - 1]);
      ProcessFileCheckpoint(pass, FoldFiles(pass, t, files[..|files| - 1]), files[|files| - 1]);
    }
  }

  /**
   * Every checkpoint a pass writes records the processed count and the folder's row count as
   * they stand right after the file that triggered it.
   */
  lemma {:induction false} FoldCheckpointCounts(pass: Pass, t: Tally, files: seq<ImageFileInfo>)
    ensures var r := FoldFiles(pass, t, files);
      && |t.trace| <= |r.trace| && r.trace[..|t.trace|] == t.trace
      && forall j :: |t.trace| <= j < |r.trace| ==>
           exists i :: 0 < i <= |files| && r.trace[j] == CheckpointAfter(pass, t, files[..i])
  {
    if files != [] {
      var init := files[..|files| - 1];
      var m := FoldFiles(pass, t, init);
      var r := FoldFiles(pass, t, files);
      FoldCheckpointCounts(pass, t, init);
      ProcessFileCheckpoint(pass, m, files[|files| - 1]);
      assert files[..|files|] == files;
      forall j | |t.trace| <= j < |r.trace|
        ensures exists i :: 0 < i <= |files| && r.trace[j] == CheckpointAfter(pass, t, files[..i])
      {
        if j < |m.trace| {
          var i :| 0 < i <= |init| && m.trace[j] == CheckpointAfter(pass, t, init[..i]);
          assert init[..i] == files[..i];
        } else {
          assert r.trace[j] == CheckpointAfter(pass, t, files[..|files|]);
        }
      }
    }
  }

  /** The checkpoint that would record the state after the files `done`. */
  function CheckpointAfter(pass: Pass, t: Tally, done: seq<ImageFileInfo>): Checkpoint
  {
    var m := FoldFiles(pass, t, done);
    Checkpoint(m.processed, |InFolder(m.rows, pass.folderPath)|)
  }

  // ---------------------------------------------------------------------------------------
  // scanFolder

  /** What `scanFolder` returns and leaves behind. `wroteInfo` says whether the final folder write ran. */
  datatype FolderScan = FolderScan(result: ScanResult, rows: ImageRows, trace: seq<Checkpoint>, wroteInfo: bool)

  function ScanFolderOutcome(rows: ImageRows, fs: FileSystem, folderPath: string, ocr: string -> string, now: int, faults: Faults): FolderScan
  {
    var root := RootOf(fs, folderPath);
    if !IsContentUri(folderPath) && root.Missing? then
      FolderScan(Error("Folder does not exist: " + folderPath), rows, [], false)
    else if !IsContentUri(folderPath) && root.NotDirectory? then
      FolderScan(Error("Path is not a directory: " + folderPath), rows, [], false)
    else if !IsContentUri(folderPath) && root.Unreadable? then
      FolderScan(Error("Cannot read folder: " + folderPath), rows, [], false)
    else
      var files := Listing(root);
      if files == [] then FolderScan(Success(0, 0), rows, [], false)
      else if folderPath in faults.failingFolders then
        FolderScan(Error("Error scanning folder: " + faults.message), rows, [], false)
      else
        var pass := Pass(InFolder(rows, folderPath), folderPath, ocr, now, faults, SingleFolder);
        var t := FoldFiles(pass, Tally(rows, 0, 0, [], Idle), files);
        FolderScan(Success(t.processed, t.added), t.rows, t.trace, true)
  }

  /** A missing, non-directory or unreadable direct path: the matching error and no store write. */
  lemma ScanFolderRootErrors(rows: ImageRows, fs: FileSystem, folderPath: string, ocr: string -> string, now: int, faults: Faults)
    requires !IsContentUri(folderPath)
    requires !RootOf(fs, folderPath).Directory?
    ensures var o := ScanFolderOutcome(rows, fs, folderPath, ocr, now, faults);
      && o.rows == rows && !o.wroteInfo && o.trace == []
      && o.result == Error(
           match RootOf(fs, folderPath)
           case Missing => "Folder does not exist: " + folderPath
           case NotDirectory => "Path is not a directory: " + folderPath
           case Unreadable => "Cannot read folder: " + folderPath)
  {
  }

  /** An empty listing is `Success(0, 0)` and writes nothing, not even the folder's scan info. */
  lemma ScanFolderEmptyListing(rows: ImageRows, fs: FileSystem, folderPath: string, ocr: string -> string, now: int, faults: Faults)
    requires IsContentUri(folderPath) || RootOf(fs, folderPath).Directory?
    requires Listing(RootOf(fs, folderPath)) == []
    ensures ScanFolderOutcome(rows, fs, folderPath, ocr, now, faults) == FolderScan(Success(0, 0), rows, [], false)
  {
  }

  /**
   * On `Success(p, n)`: `n <= p`, every listed file was counted (`p` is the listing size plus
   * one per throwing checkpoint, so exactly the listing size when no checkpoint throws), and
   * nothing was deleted.
   */
  lemma ScanFolderCounts(rows: ImageRows, fs: FileSystem, folderPath: string, ocr: string -> string, now: int, faults: Faults)
    requires ScanFolderOutcome(rows, fs, folderPath, ocr, now, faults).result.Success?
    ensures var o := ScanFolderOutcome(rows, fs, folderPath, ocr, now, faults);
      var files := Listing(RootOf(fs, folderPath));
      && 0 <= o.result.newImagesCount <= o.result.processedCount
      && |files| <= o.result.processedCount
      && o.result.newImagesCount <= |files|
      && (faults.failingCheckpoints == {} ==> o.result.processedCount == |files|)
      && o.result.newImagesCount == NewFiles(InFolder(rows, folderPath), faults.failingUpserts, files)
      && rows.Keys <= o.rows.Keys
      && forall k :: k in rows && k !in PathsOf(files) ==> o.rows[k] == rows[k]
  {
    var files := Listing(RootOf(fs, folderPath));
    if files != [] && folderPath !in faults.failingFolders {
      var pass := Pass(InFolder(rows, folderPath), folderPath, ocr, now, faults, SingleFolder);
      FoldCounts(pass, Tally(rows, 0, 0, [], Idle), files);
      FoldAddedExact(pass, Tally(rows, 0, 0, [], Idle), files);
      FoldKeepsRows(pass, Tally(rows, 0, 0, [], Idle), files);
    }
  }

  /**
   * On success with distinct listed paths and no failing upsert, every listed file is in the
   * store under the scanned folder with its listed `lastModified`: a modified file was
   * re-extracted, an unchanged one kept its record.
   */
  lemma ScanFolderRecords(rows: ImageRows, fs: FileSystem, folderPath: string, ocr: string -> string, now: int, faults: Faults)
    requires ScanFolderOutcome(rows, fs, folderPath, ocr, now, faults).result.Success?
    requires DistinctPaths(Listing(RootOf(fs, folderPath)))
    requires forall f :: f in Listing(RootOf(fs, folderPath)) ==> f.path !in faults.failingUpserts
    ensures var o := ScanFolderOutcome(rows, fs, folderPath, ocr, now, faults);
      forall f :: f in Listing(RootOf(fs, folderPath)) ==>
        && f.path in o.rows && o.rows[f.path].folderPath == folderPath
        && o.rows[f.path].lastModified == f.lastModified
        && (Unchanged(InFolder(rows, folderPath), f) ==> o.rows[f.path] == rows[f.path])
        && (!Unchanged(InFolder(rows, folderPath), f) ==>
              o.rows[f.path] == ImageEntity(f.path, f.name, folderPath, ocr(f.path), f.lastModified, f.size, now))
  {
    var files := Listing(RootOf(fs, folderPath));
    if files != [] && folderPath !in faults.failingFolders {
      var pass := Pass(InFolder(rows, folderPath), folderPath, ocr, now, faults, SingleFolder);
      FoldWritesRecords(pass, Tally(rows, 0, 0, [], Idle), files);
    }
  }

  /** Checkpoints of a successful scan come at positive multiples of 10, increasing, within the count. */
  lemma ScanFolderCheckpoints(rows: ImageRows, fs: FileSystem, folderPath: string, ocr: string -> string, now: int, faults: Faults)
    ensures var o := ScanFolderOutcome(rows, fs, folderPath, ocr, now, faults);
      forall j :: 0 <= j < |o.trace| ==>
        && o.trace[j].processed % 10 == 0 && 0 < o.trace[j].processed
        && (o.result.Success? ==> o.trace[j].processed <= o.result.processedCount)
        && (j > 0 ==> o.trace[j - 1].processed < o.trace[j].processed)
    ensures var o := ScanFolderOutcome(rows, fs, folderPath, ocr, now, faults);
      var files := Listing(RootOf(fs, folderPath));
      var pass := Pass(InFolder(rows, folderPath), folderPath, ocr, now, faults, SingleFolder);
      forall j :: 0 <= j < |o.trace| ==>
        exists i :: 0 < i <= |files| && o.trace[j] == CheckpointAfter(pass, Tally(rows, 0, 0, [], Idle), files[..i])
  {
    var files := Listing(RootOf(fs, folderPath));
    var pass := Pass(InFolder(rows, folderPath), folderPath, ocr, now, faults, SingleFolder);
    FoldCheckpoints(pass, Tally(rows, 0, 0, [], Idle), files);
    FoldCheckpointCounts(pass, Tally(rows, 0, 0, [], Idle), files);
  }

  /**
   * Idempotence: scanning again with no filesystem change re-extracts nothing, rewrites no
   * image row, records no checkpoint and reports every listed file as processed and none as new.
   */
  lemma ScanFolderIdempotent(rows: ImageRows, fs: FileSystem, folderPath: string, ocr: string -> string, now: int, faults: Faults,
                             ocr2: string -> string, now2: int, faults2: Faults)
    requires ScanFolderOutcome(rows, fs, folderPath, ocr, now, faults).result.Success?
    requires DistinctPaths(Listing(RootOf(fs, folderPath)))
    requires forall f :: f in Listing(RootOf(fs, folderPath)) ==> f.path !in faults.failingUpserts
    requires folderPath !in faults2.failingFolders
    ensures var o := ScanFolderOutcome(rows, fs, folderPath, ocr, now, faults);
      var again := ScanFolderOutcome(o.rows, fs, folderPath, ocr2, now2, faults2);
      && again.rows == o.rows
      && again.trace == []
      && again.result == Success(|Listing(RootOf(fs, folderPath))|, 0)
  {
    var o := ScanFolderOutcome(rows, fs, folderPath, ocr, now, faults);
    var files := Listing(RootOf(fs, folderPath));
    if files != [] {
      ScanFolderRecords(rows, fs, folderPath, ocr, now, faults);
      var pass2 := Pass(InFolder(o.rows, folderPath), folderPath, ocr2, now2, faults2, SingleFolder);
      forall i | 0 <= i < |files| ensures Unchanged(pass2.existing, files[i]) {
        assert files[i] in files;
      }
      FoldAllUnchanged(pass2, Tally(o.rows, 0, 0, [], Idle), files);
    }
  }

  // ---------------------------------------------------------------------------------------
  // scanAllFolders

  /** The state `scanAllFolders` carries from folder to folder; `error` is set once a store read throws. */
  datatype AllScan = AllScan(rows: ImageRows, folders: FolderRows, processed: nat, added: nat, progress: ScanProgress, error: Option<string>)

  /** A direct folder that no longer exists or is not a directory is skipped by `scanAllFolders`. */
  predicate Skipped(fs: FileSystem, folderPath: string)
  {
    !IsContentUri(folderPath) && (RootOf(fs, folderPath).Missing? || RootOf(fs, folderPath).NotDirectory?)
  }

  /**
   * One folder of `scanAllFolders`: read the snapshot, skip a vanished folder, delete the
   * snapshot rows whose paths are not listed, run the pass without checkpoints, then write the
   * folder's scan info with the count of its rows.
   */
  function ReconcileFolder(s: AllScan, folderPath: string, fs: FileSystem, ocr: string -> string, now: int, faults: Faults): AllScan
    requires s.error.None?
  {
    if folderPath in faults.failingFolders then s.(error := Some("Error scanning all folders: " + faults.message))
    else if Skipped(fs, folderPath) then s
    else
      var existing := InFolder(s.rows, folderPath);
      var files := Listing(RootOf(fs, folderPath));
      var pass := Pass(existing, folderPath, ocr, now, faults, AllFolders(s.processed, |files|));
      var t := FoldFiles(pass, Tally(s.rows - (existing.Keys - PathsOf(files)), 0, 0, [], s.progress), files);
      AllScan(t.rows, ScanInfoUpdated(s.folders, folderPath, now, |InFolder(t.rows, folderPath)|),
              s.processed + t.processed, s.added + t.added, t.progress, None)
  }

  /** The folder loop of `scanAllFolders`, in `order`; after an error the remaining folders are not visited. */
  function ScanFolders(s: AllScan, order: seq<string>, fs: FileSystem, ocr: string -> string, now: int, faults: Faults): AllScan
  {
    if order == [] then s
    else
      var p := ScanFolders(s, order[..|order| - 1], fs, ocr, now, faults);
      if p.error.Some? then p else ReconcileFolder(p, order[|order| - 1], fs, ocr, now, faults)
  }

  lemma ScanFoldersStep(s: AllScan, order: seq<string>, i: nat, fs: FileSystem, ocr: string -> string, now: int, faults: Faults)
    requires i < |order|
    ensures ScanFolders(s, order[..i + 1], fs, ocr, now, faults)
         == (var p := ScanFolders(s, order[..i], fs, ocr, now, faults);
             if p.error.Some? then p else ReconcileFolder(p, order[i], fs, ocr, now, faults))
  {
    assert order[..i + 1][..i] == order[..i];
  }

  /** The number of files the folders in `order` list, skipped folders counting none. */
  function ListedTotal(order: seq<string>, fs: FileSystem): nat
  {
    if order == [] then 0
    else
      var last := order[|order| - 1];
      ListedTotal(order[..|order| - 1], fs) + (if Skipped(fs, last) then 0 else |Listing(RootOf(fs, last))|)
  }

  /**
   * One folder's effect on the image table: a skipped folder changes nothing; otherwise a row of
   * the folder survives exactly when its path is still listed, rows of other folders are kept
   * unless listed again, every new row is a listed path, each listed file is counted exactly
   * once, and the folder's row gets the scan date and the count of its rows.
   */
  lemma ReconcileFolderEffect(s: AllScan, folderPath: string, fs: FileSystem, ocr: string -> string, now: int, faults: Faults)
    requires s.error.None? && folderPath !in faults.failingFolders
    ensures var r := ReconcileFolder(s, folderPath, fs, ocr, now, faults);
      var files := Listing(RootOf(fs, folderPath));
      && r.error.None?
      && (Skipped(fs, folderPath) ==> r == s)
      && (!Skipped(fs, folderPath) ==>
            && (forall k :: k in s.rows && s.rows[k].folderPath == folderPath ==> (k in r.rows <==> k in PathsOf(files)))
            && (forall k :: k in s.rows && s.rows[k].folderPath != folderPath && k !in PathsOf(files) ==> k in r.rows && r.rows[k] == s.rows[k])
            && (forall k :: k in r.rows && k !in s.rows ==> k in PathsOf(files))
            && r.processed == s.processed + |files|
            && s.added <= r.added <= s.added + |files|
            && r.added == s.added + NewFiles(InFolder(s.rows, folderPath), faults.failingUpserts, files)
            && r.folders == ScanInfoUpdated(s.folders, folderPath, now, |InFolder(r.rows, folderPath)|))
  {
    if !Skipped(fs, folderPath) {
      var existing := InFolder(s.rows, folderPath);
      var files := Listing(RootOf(fs, folderPath));
      var pass := Pass(existing, folderPath, ocr, now, faults, AllFolders(s.processed, |files|));
      var t0 := Tally(s.rows - (existing.Keys - PathsOf(files)), 0, 0, [], s.progress);
      FoldKeepsRows(pass, t0, files);
      FoldCounts(pass, t0, files);
      FoldAddedExact(pass, t0, files);
    }
  }

  /**
   * `scanAllFolders` does not check readability: an unreadable direct folder, or an
   * inaccessible document tree, lists no file, so every indexed image of that folder is deleted.
   */
  lemma UnlistableFolderLosesIndex(s: AllScan, folderPath: string, fs: FileSystem, ocr: string -> string, now: int, faults: Faults)
    requires s.error.None? && folderPath !in faults.failingFolders
    requires RootOf(fs, folderPath).Unreadable? || RootOf(fs, folderPath) == Directory(false, [])
    ensures var r := ReconcileFolder(s, folderPath, fs, ocr, now, faults);
      && InFolder(r.rows, folderPath) == map[]
      && r.rows == s.rows - InFolder(s.rows, folderPath).Keys
      && r.processed == s.processed && r.added == s.added
  {
    var existing := InFolder(s.rows, folderPath);
    var files := Listing(RootOf(fs, folderPath));
    assert files == [];
    assert PathsOf(files) == {};
    assert existing.Keys - PathsOf(files) == existing.Keys;
    var t0 := Tally(s.rows - existing.Keys, 0, 0, [], s.progress);
    var pass := Pass(existing, folderPath, ocr, now, faults, AllFolders(s.processed, 0));
    assert FoldFiles(pass, t0, files) == t0;
    FolderRowsRemoved(s.rows, folderPath);
  }

  lemma FolderRowsRemoved(rows: ImageRows, f: string)
    ensures InFolder(rows - InFolder(rows, f).Keys, f) == map[]
  {
    var r := rows - InFolder(rows, f).Keys;
    forall k | k in r
      ensures r[k].folderPath != f
    {
      assert k !in InFolder(rows, f);
    }
    assert InFolder(r, f).Keys == {};
  }

  /** The folder loop ends in error exactly when one of the folders in `order` has a throwing read. */
  lemma {:induction false} ScanFoldersError(s: AllScan, order: seq<string>, fs: FileSystem, ocr: string -> string, now: int, faults: Faults)
    requires s.error.None?
    ensures var r := ScanFolders(s, order, fs, ocr, now, faults);
      && (r.error.Some? <==> exists i :: 0 <= i < |order| && order[i] in faults.failingFolders)
      && (r.error.Some? ==> r.error == Some("Error scanning all folders: " + faults.message))
  {
    if order != [] {
      var init, last := order[..|order| - 1], order[|order| - 1];
      ScanFoldersError(s, init, fs, ocr, now, faults);
      var p := ScanFolders(s, init, fs, ocr, now, faults);
      assert forall i :: 0 <= i < |init| ==> init[i] == order[i];
      if p.error.None? && last !in faults.failingFolders {
        ReconcileFolderEffect(p, last, fs, ocr, now, faults);
      }
    }
  }

  /**
   * Without error every listed file of every folder was counted once and new never exceeds
   * processed; the folder table keeps its keys and folders outside `order` keep their rows.
   */
  lemma {:induction false} ScanFoldersTotals(s: AllScan, order: seq<string>, fs: FileSystem, ocr: string -> string, now: int, faults: Faults)
    requires s.error.None? && s.added <= s.processed
    ensures var r := ScanFolders(s, order, fs, ocr, now, faults);
      && (r.error.None? ==> r.processed == s.processed + ListedTotal(order, fs))
      && s.processed <= r.processed && r.added <= r.processed
      && r.folders.Keys == s.folders.Keys
      && (forall k :: k in s.folders && k !in order ==> r.folders[k] == s.folders[k])
  {
    if order != [] {
      var init, last := order[..|order| - 1], order[|order| - 1];
      ScanFoldersTotals(s, init, fs, ocr, now, faults);
      var p := ScanFolders(s, init, fs, ocr, now, faults);
      if p.error.None? && last !in faults.failingFolders {
        ReconcileFolderEffect(p, last, fs, ocr, now, faults);
      }
      assert forall k :: k in init ==> k in order;
    }
  }

  // ---------------------------------------------------------------------------------------
  // cleanupDeletedImages

  /** The store after the cleanup loop; `aborted` is set once a store read throws (the exception is swallowed). */
  datatype Cleaned = Cleaned(rows: ImageRows, folders: FolderRows, aborted: bool)

  /** The rows of a folder whose files no longer exist. */
  function Vanished(rows: ImageRows, folderPath: string, fs: FileSystem): (r: set<string>)
    ensures forall k :: k in r <==> k in rows && rows[k].folderPath == folderPath && k !in fs.present
  {
    set k | k in InFolder(rows, folderPath) && k !in fs.present
  }

  /**
   * One folder of the cleanup: delete its rows whose files are gone, then write its image count
   * as the number of rows that remain, keeping the scan date it had when the loop began.
   */
  function CleanFolder(c: Cleaned, folder: FolderEntity, fs: FileSystem, faults: Faults): Cleaned
  {
    if c.aborted then c
    else if folder.folderPath in faults.failingCleanupReads then c.(aborted := true)
    else
      var gone := Vanished(c.rows, folder.folderPath, fs);
      var kept := set k | k in InFolder(c.rows, folder.folderPath) && k in fs.present;
      Cleaned(c.rows - gone, ScanInfoUpdated(c.folders, folder.folderPath, folder.lastScanDate, |kept|), false)
  }

  function CleanFolders(c: Cleaned, order: seq<FolderEntity>, fs: FileSystem, faults: Faults): Cleaned
  {
    if order == [] then c else CleanFolder(CleanFolders(c, order[..|order| - 1], fs, faults), order[|order| - 1], fs, faults)
  }

  lemma CleanFoldersStep(c: Cleaned, order: seq<FolderEntity>, i: nat, fs: FileSystem, faults: Faults)
    requires i < |order|
    ensures CleanFolders(c, order[..i + 1], fs, faults) == CleanFolder(CleanFolders(c, order[..i], fs, faults), order[i], fs, faults)
  {
    assert order[..i + 1][..i] == order[..i];
  }

  /** The folder paths of `order`. */
  function FolderPaths(order: seq<FolderEntity>): set<string>
  {
    set i | 0 <= i < |order| :: order[i].folderPath
  }

  /**
   * The count written for a cleaned folder is the number of its rows left afterwards, and
   * exactly the rows of that folder whose files are missing are deleted.
   */
  lemma CleanFolderEffect(c: Cleaned, folder: FolderEntity, fs: FileSystem, faults: Faults)
    requires !c.aborted && folder.folderPath !in faults.failingCleanupReads
    requires folder.folderPath in c.folders
    ensures var r := CleanFolder(c, folder, fs, faults);
      && !r.aborted
      && r.rows == c.rows - Vanished(c.rows, folder.folderPath, fs)
      && r.folders[folder.folderPath].imageCount == |InFolder(r.rows, folder.folderPath)|
      && r.folders[folder.folderPath].lastScanDate == folder.lastScanDate
  {
    var r := CleanFolder(c, folder, fs, faults);
    var kept := set k | k in InFolder(c.rows, folder.folderPath) && k in fs.present;
    assert InFolder(r.rows, folder.folderPath).Keys == kept;
  }

  /**
   * Without a throwing read, the cleanup deletes exactly the rows of the listed folders whose
   * files are missing, keeps every other row as it was, and changes no folder row outside the list.
   */
  lemma {:induction false} CleanFoldersEffect(c: Cleaned, order: seq<FolderEntity>, fs: FileSystem, faults: Faults)
    requires !c.aborted
    requires forall i :: 0 <= i < |order| ==> order[i].folderPath !in faults.failingCleanupReads
    ensures var r := CleanFolders(c, order, fs, faults);
      && !r.aborted
      && (forall k :: k in r.rows <==> k in c.rows && !(c.rows[k].folderPath in FolderPaths(order) && k !in fs.present))
      && (forall k :: k in r.rows ==> r.rows[k] == c.rows[k])
      && r.folders.Keys == c.folders.Keys
      && (forall k :: k in c.folders && k !in FolderPaths(order) ==> r.folders[k] == c.folders[k])
  {
    if order != [] {
      var init, last := order[..|order| - 1], order[|order| - 1];
      CleanFoldersEffect(c, init, fs, faults);
      assert FolderPaths(order) == FolderPaths(init) + {last.folderPath} by {
        forall k | k in FolderPaths(order) ensures k in FolderPaths(init) + {last.folderPath} {
          var i :| 0 <= i < |order| && order[i].folderPath == k;
          if i < |init| { assert init[i] == order[i]; }
        }
        forall k | k in FolderPaths(init) ensures k in FolderPaths(order) {
          var i :| 0 <= i < |init| && init[i].folderPath == k;
          assert order[i] == init[i];
        }
      }
    }
  }

  /** A folder whose read throws ends the cleanup: no later folder is cleaned. */
  lemma {:induction false} CleanAbortPersists(c: Cleaned, order: seq<FolderEntity>, i: nat, fs: FileSystem, faults: Faults)
    requires i <= |order| && CleanFolders(c, order[..i], fs, faults).aborted
    ensures CleanFolders(c, order, fs, faults) == CleanFolders(c, order[..i], fs, faults)
  {
    if i < |order| {
      assert order[..|order| - 1][..i] == order[..i];
      CleanAbortPersists(c, order[..|order| - 1], i, fs, faults);
    } else {
      assert order[..i] == order;
    }
  }

  /** Once a folder's read throws, `scanAllFolders` visits no further folder. */
  lemma {:induction false} ScanErrorPersists(s: AllScan, order: seq<string>, i: nat, fs: FileSystem, ocr: string -> string, now: int, faults: Faults)
    requires i <= |order| && ScanFolders(s, order[..i], fs, ocr, now, faults).error.Some?
    ensures ScanFolders(s, order, fs, ocr, now, faults) == ScanFolders(s, order[..i], fs, ocr, now, faults)
  {
    if i < |order| {
      assert order[..|order| - 1][..i] == order[..i];
      ScanErrorPersists(s, order[..|order| - 1], i, fs, ocr, now, faults);
    } else {
      assert order[..i] == order;
    }
  }
}
