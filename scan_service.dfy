/**
 * The scan service: it walks the registered folders, brings the image table in line with the
 * files on disk and keeps each folder's scan date and image count. Every method is proved to
 * leave exactly the state the corresponding function of `Reconcile` describes.
 */
module ScanService {
  import opened Wrappers
  import opened Entities
  import opened ImageStore
  import opened FolderStore
  import opened FileTree
  import opened Reconcile

  /** `getAllFolders().filter { it.isActive }`. */
  function ActiveOnly(fs: seq<FolderEntity>): (r: seq<FolderEntity>)
    ensures forall f :: f in r <==> f in fs && f.isActive
    ensures |r| <= |fs|
  {
    if fs == [] then []
    else ActiveOnly(fs[..|fs| - 1]) + (if fs[|fs| - 1].isActive then [fs[|fs| - 1]] else [])
  }

  /** No two folders of `order` share a path. */
  ghost predicate DistinctPaths(order: seq<FolderEntity>)
  {
    forall a, b :: 0 <= a < b < |order| ==> order[a].folderPath != order[b].folderPath
  }

  /** `order` holds every active folder row of `rows` exactly once, and nothing else. */
  ghost predicate ActiveOrder(rows: FolderRows, order: seq<FolderEntity>)
  {
    && (forall i :: 0 <= i < |order| ==> order[i].folderPath in rows && rows[order[i].folderPath] == order[i] && order[i].isActive)
    && (forall k :: k in rows && rows[k].isActive ==> rows[k] in order)
    && DistinctPaths(order)
  }

  /** The active filter keeps a list of distinct paths distinct. */
  lemma {:induction false} ActiveOnlyDistinct(fs: seq<FolderEntity>)
    requires DistinctPaths(fs)
    ensures DistinctPaths(ActiveOnly(fs))
  {
    if fs != [] {
      var init := fs[..|fs| - 1];
      var last := fs[|fs| - 1];
      assert DistinctPaths(init) by {
        forall a, b | 0 <= a < b < |init| ensures init[a].folderPath != init[b].folderPath {
          assert init[a] == fs[a] && init[b] == fs[b];
        }
      }
      ActiveOnlyDistinct(init);
      forall x | x in ActiveOnly(init) ensures x.folderPath != last.folderPath {
        var a :| 0 <= a < |init| && init[a] == x;
        assert fs[a] == x;
      }
    }
  }

  /** Filtering what `getAllFolders` returns gives every active row once. */
  lemma ActiveOnlyOrder(rows: FolderRows, all: seq<FolderEntity>)
    requires forall i :: 0 <= i < |all| ==> all[i].folderPath in rows && rows[all[i].folderPath] == all[i]
    requires forall k :: k in rows ==> rows[k] in all
    requires DistinctPaths(all)
    ensures ActiveOrder(rows, ActiveOnly(all))
  {
    ActiveOnlyDistinct(all);
    var active := ActiveOnly(all);
    forall i | 0 <= i < |active|
      ensures active[i].folderPath in rows && rows[active[i].folderPath] == active[i] && active[i].isActive
    {
      assert active[i] in all;
    }
  }

  function FolderPathList(order: seq<FolderEntity>): (r: seq<string>)
    ensures |r| == |order| && forall i :: 0 <= i < |order| ==> r[i] == order[i].folderPath
  {
    seq(|order|, i requires 0 <= i < |order| => order[i].folderPath)
  }

  /** The paths of the listed records whose files still exist (`existingPaths`). */
  function PresentPaths(images: seq<ImageEntity>, fs: FileSystem): (r: seq<string>)
    ensures forall p :: p in r <==> exists i :: 0 <= i < |images| && images[i].filePath == p && p in fs.present
    ensures |r| <= |images|
  {
    if images == [] then []
    else
      var last := images[|images| - 1];
      var init := PresentPaths(images[..|images| - 1], fs);
      assert forall i :: 0 <= i < |images| - 1 ==> images[..|images| - 1][i] == images[i];
      init + (if last.filePath in fs.present then [last.filePath] else [])
  }

  /** The listed records whose files are gone (`deletedImages`). */
  function MissingImages(images: seq<ImageEntity>, fs: FileSystem): (r: seq<ImageEntity>)
    ensures forall e :: e in r <==> e in images && e.filePath !in fs.present
  {
    if images == [] then []
    else
      var last := images[|images| - 1];
      MissingImages(images[..|images| - 1], fs) + (if last.filePath !in fs.present then [last] else [])
  }

  /** A sequence without repetitions is as long as the set of its elements. */
  lemma {:induction false} DistinctCard(r: seq<string>)
    requires forall a, b :: 0 <= a < b < |r| ==> r[a] != r[b]
    ensures |set p | p in r| == |r|
  {
    if r != [] {
      var init := r[..|r| - 1];
      DistinctCard(init);
      assert r == init + [r[|r| - 1]];
      assert (set p | p in r) == (set p | p in init) + {r[|r| - 1]};
    }
  }

  /** Filtering a path-distinct list of records keeps the paths distinct. */
  lemma {:induction false} PresentPathsDistinct(images: seq<ImageEntity>, fs: FileSystem)
    requires forall a, b :: 0 <= a < b < |images| ==> images[a].filePath != images[b].filePath
    ensures forall a, b :: 0 <= a < b < |PresentPaths(images, fs)| ==> PresentPaths(images, fs)[a] != PresentPaths(images, fs)[b]
  {
    if images != [] {
      var init := images[..|images| - 1];
      var last := images[|images| - 1];
      PresentPathsDistinct(init, fs);
      forall i | 0 <= i < |init| ensures init[i].filePath != last.filePath {
        assert init[i] == images[i];
      }
    }
  }

  /** `list` is what `getImagesInFolder(folderPath)` returns for `rows`: each row of the folder once. */
  ghost predicate ListsFolder(list: seq<ImageEntity>, rows: ImageRows, folderPath: string)
  {
    && (forall i :: 0 <= i < |list| ==> list[i].filePath in rows && rows[list[i].filePath] == list[i] && list[i].folderPath == folderPath)
    && (forall k :: k in rows && rows[k].folderPath == folderPath ==> exists i :: 0 <= i < |list| && list[i].filePath == k)
    && (forall a, b :: 0 <= a < b < |list| ==> list[a].filePath != list[b].filePath)
  }

  /** The records the cleanup deletes are exactly the folder's rows whose files are gone. */
  lemma MissingImagesVanished(list: seq<ImageEntity>, rows: ImageRows, folderPath: string, fs: FileSystem)
    requires ListsFolder(list, rows, folderPath)
    ensures Paths(MissingImages(list, fs)) == Vanished(rows, folderPath, fs)
  {
    var missing := MissingImages(list, fs);
    forall k ensures k in Paths(missing) <==> k in Vanished(rows, folderPath, fs) {
      PathsMembership(missing, k);
      if k in Vanished(rows, folderPath, fs) {
        var n :| 0 <= n < |list| && list[n].filePath == k;
        assert list[n] in missing;
        var m :| 0 <= m < |missing| && missing[m] == list[n];
      }
    }
  }

  /** The count the cleanup writes is the number of the folder's rows whose files exist. */
  lemma PresentPathsCount(list: seq<ImageEntity>, rows: ImageRows, folderPath: string, fs: FileSystem)
    requires ListsFolder(list, rows, folderPath)
    ensures |PresentPaths(list, fs)| == |set k | k in InFolder(rows, folderPath) && k in fs.present|
  {
    var present := PresentPaths(list, fs);
    PresentPathsDistinct(list, fs);
    DistinctCard(present);
    assert (set p | p in present) == (set k | k in InFolder(rows, folderPath) && k in fs.present) by {
      forall k | k in InFolder(rows, folderPath) && k in fs.present ensures k in present {
        var n :| 0 <= n < |list| && list[n].filePath == k;
      }
    }
  }

  class ImageScanService {
    const images: ImageDao
    const folders: FolderDao
    /** The last value published on the progress state. */
    var progress: ScanProgress

    ghost predicate Valid()
      reads this, images, folders
    {
      images.Valid() && folders.Valid()
    }

    constructor (images: ImageDao, folders: FolderDao)
      requires images.Valid() && folders.Valid()
      ensures Valid() && this.images == images && this.folders == folders && progress == Idle
    {
      this.images := images;
      this.folders := folders;
      progress := Idle;
    }

    /**
     * `scanFolder`: the image table, the folder table and the result are exactly those of
     * `ScanFolderOutcome`; the final folder write overrides every interim checkpoint, and the
     * published progress is `Complete` on success and `Failed` with the same message on error.
     */
    method ScanFolder(folderPath: string, fs: FileSystem, ocr: string -> string, now: int, faults: Faults)
      returns (r: ScanResult, ghost trace: seq<Checkpoint>)
      requires Valid()
      modifies this, images, folders
      ensures Valid()
      ensures var o := ScanFolderOutcome(old(images.rows), fs, folderPath, ocr, now, faults);
        && r == o.result && images.rows == o.rows && trace == o.trace
        && folders.rows == (if o.wroteInfo then ScanInfoUpdated(old(folders.rows), folderPath, now, |InFolder(o.rows, folderPath)|)
                            else old(folders.rows))
      ensures progress == (if r.Success? then Complete(r.processedCount, r.newImagesCount) else Failed(r.message))
    {
      progress := Scanning("Initializing...", 0, 0);
      trace := [];
      var root := RootOf(fs, folderPath);
      var imageFiles;
      if IsContentUri(folderPath) {
        imageFiles := GetAllImageFilesFromUri(root);
      } else {
        if root.Missing? {
          var error := "Folder does not exist: " + folderPath;
          progress := Failed(error);
          return Error(error), trace;
        }
        if root.NotDirectory? {
          var error := "Path is not a directory: " + folderPath;
          progress := Failed(error);
          return Error(error), trace;
        }
        if root.Unreadable? {
          var error := "Cannot read folder: " + folderPath;
          progress := Failed(error);
          return Error(error), trace;
        }
        imageFiles := GetAllImageFiles(root);
      }
      var totalFiles := |imageFiles|;
      if totalFiles == 0 {
        progress := Complete(0, 0);
        return Success(0, 0), trace;
      }
      if folderPath in faults.failingFolders {
        // reading the folder's records throws
        var error := "Error scanning folder: " + faults.message;
        progress := Failed(error);
        return Error(error), trace;
      }
      var list := images.GetImagesInFolder(folderPath);
      var existingImages := AssociateByPath(list);
      var processedCount, newImagesCount;
      processedCount, newImagesCount, trace := IndexFiles(imageFiles, existingImages, folderPath, ocr, now, faults);
      var finalCount := images.GetImageCountInFolder(folderPath);
      if trace != [] {
        ScanInfoLastWriteWins(old(folders.rows), folderPath, now, trace[|trace| - 1].imageCount, now, finalCount);
      }
      folders.UpdateFolderScanInfo(folderPath, now, finalCount);
      progress := Complete(processedCount, newImagesCount);
      r := Success(processedCount, newImagesCount);
    }

    /**
     * The per-file loop of `scanFolder`: the image table, the counters and the checkpoints are
     * those of the pass over `imageFiles`, and the folder table holds the last checkpoint's count.
     */
    method IndexFiles(imageFiles: seq<ImageFileInfo>, existingImages: ImageRows, folderPath: string, ocr: string -> string, now: int, faults: Faults)
      returns (processedCount: nat, newImagesCount: nat, ghost trace: seq<Checkpoint>)
      requires Valid()
      modifies this, images, folders
      ensures Valid()
      ensures Tally(images.rows, processedCount, newImagesCount, trace, Idle)
           == FoldFiles(Pass(existingImages, folderPath, ocr, now, faults, SingleFolder), Tally(old(images.rows), 0, 0, [], Idle), imageFiles)
      ensures trace == [] ==> folders.rows == old(folders.rows)
      ensures trace != [] ==> folders.rows == ScanInfoUpdated(old(folders.rows), folderPath, now, trace[|trace| - 1].imageCount)
    {
      processedCount, newImagesCount, trace := 0, 0, [];
      ghost var pass := Pass(existingImages, folderPath, ocr, now, faults, SingleFolder);
      ghost var t0 := Tally(images.rows, 0, 0, [], Idle);
      for i := 0 to |imageFiles|
        invariant Valid()
        invariant Tally(images.rows, processedCount, newImagesCount, trace, Idle) == FoldFiles(pass, t0, imageFiles[..i])
        invariant trace == [] ==> folders.rows == old(folders.rows)
        invariant trace != [] ==> folders.rows == ScanInfoUpdated(old(folders.rows), folderPath, now, trace[|trace| - 1].imageCount)
      {
        processedCount, newImagesCount, trace := IndexNextFile(imageFiles, i, existingImages, folderPath, ocr, now, faults,
                                                               processedCount, newImagesCount, trace, t0, old(folders.rows));
      }
      assert imageFiles[..|imageFiles|] == imageFiles;
    }

    /**
     * One turn of the per-file loop of `scanFolder`: the state of the pass over `imageFiles[..i]`
     * becomes that over `imageFiles[..i + 1]`, and the folder table still holds the last checkpoint.
     */
    method IndexNextFile(imageFiles: seq<ImageFileInfo>, i: nat, existingImages: ImageRows, folderPath: string, ocr: string -> string, now: int, faults: Faults,
                         processed: nat, added: nat, ghost checkpoints: seq<Checkpoint>, ghost t0: Tally, ghost base: FolderRows)
      returns (processedCount: nat, newImagesCount: nat, ghost trace: seq<Checkpoint>)
      requires Valid() && i < |imageFiles|
      requires Tally(images.rows, processed, added, checkpoints, Idle)
            == FoldFiles(Pass(existingImages, folderPath, ocr, now, faults, SingleFolder), t0, imageFiles[..i])
      requires checkpoints == [] ==> folders.rows == base
      requires checkpoints != [] ==> folders.rows == ScanInfoUpdated(base, folderPath, now, checkpoints[|checkpoints| - 1].imageCount)
      modifies this, images, folders
      ensures Valid()
      ensures Tally(images.rows, processedCount, newImagesCount, trace, Idle)
           == FoldFiles(Pass(existingImages, folderPath, ocr, now, faults, SingleFolder), t0, imageFiles[..i + 1])
      ensures trace == [] ==> folders.rows == base
      ensures trace != [] ==> folders.rows == ScanInfoUpdated(base, folderPath, now, trace[|trace| - 1].imageCount)
    {
      FoldFilesStep(Pass(existingImages, folderPath, ocr, now, faults, SingleFolder), t0, imageFiles, i);
      processedCount, newImagesCount, trace := IndexFile(imageFiles[i], |imageFiles|, existingImages, folderPath, ocr, now, faults,
                                                         processed, added, checkpoints);
      if trace != checkpoints && checkpoints != [] {
        ScanInfoLastWriteWins(base, folderPath, now, checkpoints[|checkpoints| - 1].imageCount, now, trace[|trace| - 1].imageCount);
      }
    }

    /** One iteration of the per-file loop of `scanFolder`, with the `catch` that ends it when a store call throws. */
    method IndexFile(imageInfo: ImageFileInfo, totalFiles: nat, existingImages: ImageRows, folderPath: string, ocr: string -> string, now: int, faults: Faults,
                     processed: nat, added: nat, ghost checkpoints: seq<Checkpoint>)
      returns (processedCount: nat, newImagesCount: nat, ghost trace: seq<Checkpoint>)
      requires Valid()
      modifies this, images, folders
      ensures Valid()
      ensures Tally(images.rows, processedCount, newImagesCount, trace, Idle)
           == ProcessFile(Pass(existingImages, folderPath, ocr, now, faults, SingleFolder), Tally(old(images.rows), processed, added, checkpoints, Idle), imageInfo)
      ensures trace == checkpoints ==> folders.rows == old(folders.rows)
      ensures trace != checkpoints ==> folders.rows == ScanInfoUpdated(old(folders.rows), folderPath, now, trace[|trace| - 1].imageCount)
    {
      processedCount, newImagesCount, trace := processed, added, checkpoints;
      progress := Scanning(imageInfo.name, processedCount, totalFiles);
      var existingImage := if imageInfo.path in existingImages then Some(existingImages[imageInfo.path]) else None;
      if existingImage.Some? && existingImage.value.lastModified == imageInfo.lastModified {
        processedCount := processedCount + 1;
        return;
      }
      if imageInfo.path in faults.failingUpserts {
        // text extraction or the upsert throws; the catch still counts the file
        processedCount := processedCount + 1;
        return;
      }
      var extractedText := ocr(imageInfo.path);
      var imageEntity := ImageEntity(imageInfo.path, imageInfo.name, folderPath, extractedText, imageInfo.lastModified, imageInfo.size, now);
      images.InsertImage(imageEntity);
      if existingImage.None? {
        newImagesCount := newImagesCount + 1;
      }
      processedCount := processedCount + 1;
      if processedCount % 10 == 0 {
        if imageInfo.path in faults.failingCheckpoints {
          // the interim count write throws; the catch counts the file a second time
          processedCount := processedCount + 1;
        } else {
          var currentCount := images.GetImageCountInFolder(folderPath);
          folders.UpdateFolderScanInfo(folderPath, now, currentCount);
          trace := trace + [Checkpoint(processedCount, currentCount)];
        }
      }
    }

    /** Deletes each record of `deleted` in turn. */
    method DeleteImages(deleted: seq<ImageEntity>)
      requires Valid()
      modifies images
      ensures Valid()
      ensures images.rows == old(images.rows) - Paths(deleted)
    {
      for j := 0 to |deleted|
        invariant Valid()
        invariant images.rows == old(images.rows) - Paths(deleted[..j])
      {
        images.DeleteImage(deleted[j]);
        assert deleted[..j + 1][..j] == deleted[..j];
      }
      assert deleted[..|deleted|] == deleted;
    }

    /**
     * One folder of `cleanupDeletedImages`: delete its records whose files are gone and write
     * the number of records that remain, keeping the folder's scan date.
     */
    method CleanFolderImages(folder: FolderEntity, fs: FileSystem, faults: Faults)
      requires Valid() && folder.folderPath !in faults.failingCleanupReads
      modifies images, folders
      ensures Valid()
      ensures Cleaned(images.rows, folders.rows, false) == CleanFolder(Cleaned(old(images.rows), old(folders.rows), false), folder, fs, faults)
    {
      var imagesInDb := images.GetImagesInFolder(folder.folderPath);
      var existingPaths := PresentPaths(imagesInDb, fs);
      var deletedImages := MissingImages(imagesInDb, fs);
      ghost var before := images.rows;
      DeleteImages(deletedImages);
      MissingImagesVanished(imagesInDb, before, folder.folderPath, fs);
      PresentPathsCount(imagesInDb, before, folder.folderPath, fs);
      folders.UpdateFolderScanInfo(folder.folderPath, folder.lastScanDate, |existingPaths|);
    }

    /**
     * `cleanupDeletedImages`: the active folders are visited in `order`, and the tables become
     * those of `CleanFolders`; a throwing read ends the loop without an error being reported.
     */
    method CleanupDeletedImages(fs: FileSystem, faults: Faults) returns (ghost order: seq<FolderEntity>)
      requires Valid()
      modifies images, folders
      ensures Valid()
      ensures ActiveOrder(old(folders.rows), order)
      ensures var c := CleanFolders(Cleaned(old(images.rows), old(folders.rows), false), order, fs, faults);
        images.rows == c.rows && folders.rows == c.folders
    {
      var all := folders.GetAllFolders();
      var active := ActiveOnly(all);
      ActiveOnlyOrder(folders.rows, all);
      order := active;
      ghost var c0 := Cleaned(images.rows, folders.rows, false);
      var i := 0;
      while i < |active|
        invariant 0 <= i <= |active|
        invariant Valid()
        invariant CleanFolders(c0, active[..i], fs, faults) == Cleaned(images.rows, folders.rows, false)
      {
        var folder := active[i];
        CleanFoldersStep(c0, active, i, fs, faults);
        if folder.folderPath in faults.failingCleanupReads {
          // reading the folder's records throws; the catch ends the cleanup
          CleanAbortPersists(c0, active, i + 1, fs, faults);
          assert images.rows == CleanFolders(c0, active, fs, faults).rows;
          return;
        }
        CleanFolderImages(folder, fs, faults);
        i := i + 1;
      }
      assert active[..|active|] == active;
    }

    /** Deletes the snapshot record of each path of `deletedPaths`, in no particular order. */
    method DeletePaths(deletedPaths: set<string>, existingImages: ImageRows)
      requires Valid()
      requires forall p :: p in deletedPaths ==> p in existingImages && existingImages[p].filePath == p
      modifies images
      ensures Valid()
      ensures images.rows == old(images.rows) - deletedPaths
    {
      var remaining := deletedPaths;
      while remaining != {}
        invariant Valid() && remaining <= deletedPaths
        invariant images.rows == old(images.rows) - (deletedPaths - remaining)
        decreases remaining
      {
        var deletedPath :| deletedPath in remaining;
        images.DeleteImage(existingImages[deletedPath]);
        remaining := remaining - {deletedPath};
      }
    }

    /** One iteration of the per-file loop of `scanAllFolders`, with its `catch`. */
    method ReindexFile(fileInfo: ImageFileInfo, totalProcessed: nat, totalFiles: nat, existingImages: ImageRows, folderPath: string,
                       ocr: string -> string, now: int, faults: Faults, processed: nat, added: nat)
      returns (folderProcessed: nat, folderNew: nat)
      requires Valid()
      modifies this, images
      ensures Valid()
      ensures Tally(images.rows, folderProcessed, folderNew, [], progress)
           == ProcessFile(Pass(existingImages, folderPath, ocr, now, faults, AllFolders(totalProcessed, totalFiles)),
                          Tally(old(images.rows), processed, added, [], old(progress)), fileInfo)
    {
      folderProcessed, folderNew := processed, added;
      var existingImage := if fileInfo.path in existingImages then Some(existingImages[fileInfo.path]) else None;
      if existingImage.Some? && existingImage.value.lastModified == fileInfo.lastModified {
        folderProcessed := folderProcessed + 1;
        return;
      }
      progress := Scanning(fileInfo.name, totalProcessed + folderProcessed, totalFiles);
      if fileInfo.path in faults.failingUpserts {
        // text extraction or the upsert throws; the catch still counts the file
        folderProcessed := folderProcessed + 1;
        return;
      }
      var extractedText := ocr(fileInfo.path);
      var imageEntity := ImageEntity(fileInfo.path, fileInfo.name, folderPath, extractedText, fileInfo.lastModified, fileInfo.size, now);
      images.InsertImage(imageEntity);
      if existingImage.None? {
        folderNew := folderNew + 1;
      }
      folderProcessed := folderProcessed + 1;
    }

    /** The per-file loop of `scanAllFolders` over one folder's listing. */
    method ReindexFiles(currentFiles: seq<ImageFileInfo>, totalProcessed: nat, existingImages: ImageRows, folderPath: string,
                        ocr: string -> string, now: int, faults: Faults)
      returns (folderProcessed: nat, folderNew: nat)
      requires Valid()
      modifies this, images
      ensures Valid()
      ensures Tally(images.rows, folderProcessed, folderNew, [], progress)
           == FoldFiles(Pass(existingImages, folderPath, ocr, now, faults, AllFolders(totalProcessed, |currentFiles|)),
                        Tally(old(images.rows), 0, 0, [], old(progress)), currentFiles)
    {
      folderProcessed, folderNew := 0, 0;
      ghost var pass := Pass(existingImages, folderPath, ocr, now, faults, AllFolders(totalProcessed, |currentFiles|));
      ghost var t0 := Tally(images.rows, 0, 0, [], progress);
      for i := 0 to |currentFiles|
        invariant Valid()
        invariant Tally(images.rows, folderProcessed, folderNew, [], progress) == FoldFiles(pass, t0, currentFiles[..i])
      {
        FoldFilesStep(pass, t0, currentFiles, i);
        folderProcessed, folderNew := ReindexFile(currentFiles[i], totalProcessed, |currentFiles|, existingImages, folderPath,
                                                  ocr, now, faults, folderProcessed, folderNew);
      }
      assert currentFiles[..|currentFiles|] == currentFiles;
    }

    /**
     * One folder of `scanAllFolders`: the tables, the counters and the progress become those of
     * `ReconcileFolder`; `failure` carries the error message when the folder's read throws.
     */
    method ReconcileOneFolder(folderPath: string, fs: FileSystem, ocr: string -> string, now: int, faults: Faults,
                              totalProcessed: nat, ghost totalNew: nat)
      returns (folderProcessed: nat, folderNew: nat, failure: Option<string>)
      requires Valid()
      modifies this, images, folders
      ensures Valid()
      ensures AllScan(images.rows, folders.rows, totalProcessed + folderProcessed, totalNew + folderNew, progress, failure)
           == ReconcileFolder(AllScan(old(images.rows), old(folders.rows), totalProcessed, totalNew, old(progress), None),
                              folderPath, fs, ocr, now, faults)
    {
      folderProcessed, folderNew, failure := 0, 0, None;
      if folderPath in faults.failingFolders {
        // reading the folder's records throws; the outer catch turns it into the scan's error
        failure := Some("Error scanning all folders: " + faults.message);
        return;
      }
      var root := RootOf(fs, folderPath);
      if !IsContentUri(folderPath) && (root.Missing? || root.NotDirectory?) {
        return;
      }
      folderProcessed, folderNew := ReindexFolder(folderPath, fs, ocr, now, faults, totalProcessed, totalNew);
    }

    /** A folder of `scanAllFolders` that is read and listed: the rest of `ReconcileFolder`. */
    method ReindexFolder(folderPath: string, fs: FileSystem, ocr: string -> string, now: int, faults: Faults,
                         totalProcessed: nat, ghost totalNew: nat)
      returns (folderProcessed: nat, folderNew: nat)
      requires Valid() && folderPath !in faults.failingFolders && !Skipped(fs, folderPath)
      modifies this, images, folders
      ensures Valid()
      ensures AllScan(images.rows, folders.rows, totalProcessed + folderProcessed, totalNew + folderNew, progress, None)
           == ReconcileFolder(AllScan(old(images.rows), old(folders.rows), totalProcessed, totalNew, old(progress), None),
                              folderPath, fs, ocr, now, faults)
    {
      var list := images.GetImagesInFolder(folderPath);
      var existingImages := AssociateByPath(list);
      var existingImagePaths := existingImages.Keys;
      var root := RootOf(fs, folderPath);
      var currentFiles;
      if IsContentUri(folderPath) {
        currentFiles := GetAllImageFilesFromUri(root);
      } else {
        currentFiles := GetAllImageFiles(root);
      }
      var currentFilePaths := PathsOf(currentFiles);
      var deletedPaths := existingImagePaths - currentFilePaths;
      DeletePaths(deletedPaths, existingImages);
      folderProcessed, folderNew := ReindexFiles(currentFiles, totalProcessed, existingImages, folderPath, ocr, now, faults);
      var finalCount := images.GetImageCountInFolder(folderPath);
      folders.UpdateFolderScanInfo(folderPath, now, finalCount);
    }

    /**
     * One turn of the folder loop of `scanAllFolders`: the state of the loop over `paths[..i]`
     * becomes that over `paths[..i + 1]`, or, when the folder fails, the final state of the loop.
     */
    method ScanNextFolder(ghost s0: AllScan, paths: seq<string>, i: nat, fs: FileSystem, ocr: string -> string, now: int, faults: Faults,
                          totalProcessed: nat, ghost totalNew: nat)
      returns (folderProcessed: nat, folderNew: nat, failure: Option<string>)
      requires Valid() && i < |paths|
      requires ScanFolders(s0, paths[..i], fs, ocr, now, faults) == AllScan(images.rows, folders.rows, totalProcessed, totalNew, progress, None)
      modifies this, images, folders
      ensures Valid()
      ensures failure.None? ==> ScanFolders(s0, paths[..i + 1], fs, ocr, now, faults)
                                == AllScan(images.rows, folders.rows, totalProcessed + folderProcessed, totalNew + folderNew, progress, None)
      ensures failure.Some? ==> ScanFolders(s0, paths, fs, ocr, now, faults)
                                == AllScan(images.rows, folders.rows, totalProcessed + folderProcessed, totalNew + folderNew, progress, failure)
    {
      ScanFoldersStep(s0, paths, i, fs, ocr, now, faults);
      folderProcessed, folderNew, failure := ReconcileOneFolder(paths[i], fs, ocr, now, faults, totalProcessed, totalNew);
      if failure.Some? {
        ScanErrorPersists(s0, paths, i + 1, fs, ocr, now, faults);
      }
    }

    /**
     * The folder loop of `scanAllFolders`: every active folder in `scanOrder`; the tables, the
     * progress and the result are those of `ScanFolders`.
     */
    method ScanActiveFolders(fs: FileSystem, ocr: string -> string, now: int, faults: Faults)
      returns (r: ScanResult, ghost scanOrder: seq<FolderEntity>)
      requires Valid()
      modifies this, images, folders
      ensures Valid()
      ensures ActiveOrder(old(folders.rows), scanOrder)
      ensures var a := ScanFolders(AllScan(old(images.rows), old(folders.rows), 0, 0, old(progress), None), FolderPathList(scanOrder), fs, ocr, now, faults);
        && images.rows == a.rows && folders.rows == a.folders && progress == a.progress
        && r == (if a.error.Some? then Error(a.error.value) else Success(a.processed, a.added))
    {
      var all := folders.GetAllFolders();
      var active := ActiveOnly(all);
      ActiveOnlyOrder(folders.rows, all);
      scanOrder := active;
      var paths := FolderPathList(active);
      ghost var s0 := AllScan(images.rows, folders.rows, 0, 0, progress, None);
      var totalProcessed: nat, totalNew: nat := 0, 0;
      for i := 0 to |active|
        invariant Valid()
        invariant ScanFolders(s0, paths[..i], fs, ocr, now, faults) == AllScan(images.rows, folders.rows, totalProcessed, totalNew, progress, None)
      {
        var folderProcessed, folderNew, failure := ScanNextFolder(s0, paths, i, fs, ocr, now, faults, totalProcessed, totalNew);
        if failure.Some? {
          r := Error(failure.value);
          return;
        }
        totalProcessed := totalProcessed + folderProcessed;
        totalNew := totalNew + folderNew;
      }
      assert paths[..|paths|] == paths;
      r := Success(totalProcessed, totalNew);
    }

    /**
     * `scanAllFolders`: the cleanup pass first, then the folder loop over the active folders as
     * they stand after it.
     */
    method ScanAllFolders(fs: FileSystem, ocr: string -> string, now: int, faults: Faults)
      returns (r: ScanResult, ghost cleanOrder: seq<FolderEntity>, ghost scanOrder: seq<FolderEntity>)
      requires Valid()
      modifies this, images, folders
      ensures Valid()
      ensures ActiveOrder(old(folders.rows), cleanOrder)
      ensures var c := CleanFolders(Cleaned(old(images.rows), old(folders.rows), false), cleanOrder, fs, faults);
        && ActiveOrder(c.folders, scanOrder)
        && var a := ScanFolders(AllScan(c.rows, c.folders, 0, 0, old(progress), None), FolderPathList(scanOrder), fs, ocr, now, faults);
        && images.rows == a.rows && folders.rows == a.folders && progress == a.progress
        && r == (if a.error.Some? then Error(a.error.value) else Success(a.processed, a.added))
    {
      cleanOrder := CleanupDeletedImages(fs, faults);
      r, scanOrder := ScanActiveFolders(fs, ocr, now, faults);
    }
  }
}
