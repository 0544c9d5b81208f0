/**
 * The folders screen's view model: adding a folder (validation, duplicate check, replacement of
 * an inactive record, then a first scan), scanning one folder with its progress and messages,
 * and removing a folder (soft delete of the folder, hard delete of its images).
 */
module FoldersScreen {
  import opened Wrappers
  import opened Text
  import opened Entities
  import opened ImageStore
  import opened FolderStore
  import opened FileTree
  import opened Reconcile
  import opened ScanService
  import opened Preferences

  /** The screen's own scan progress. */
  datatype FolderScanProgress = Idle | Scanning(folderName: string) | Complete(message: string) | Error(message: string)

  datatype UiEvent = ShowMessage(message: string) | ShowError(message: string)

  const FallbackName: string := "Selected Folder"

  /**
   * `path` without its trailing '/' characters. `java.io.File` also collapses repeated '/'
   * inside the path; that never changes the last segment, which is all `FileName` reads.
   */
  function StripTrailingSlashes(path: string): (r: string)
    ensures |r| <= |path| && r == path[..|r|]
    ensures r == [] || r[|r| - 1] != '/'
    ensures forall i :: |r| <= i < |path| ==> path[i] == '/'
  {
    if path != [] && path[|path| - 1] == '/' then StripTrailingSlashes(path[..|path| - 1]) else path
  }

  /** `File(path).name`: the last segment of the normalised path. */
  function FileName(path: string): (r: string)
    ensures '/' !in r
  {
    var normal := StripTrailingSlashes(path);
    SubstringAfterLastFacts(normal, '/', normal);
    SubstringAfterLast(normal, '/', normal)
  }

  /**
   * The name shown for a picked document tree: the part of its tree document ID after the last
   * '/', or the fallback when that part is empty or the address does not parse (`docId` is None).
   */
  function ContentDisplayName(docId: Option<string>): (r: string)
  {
    match docId
    case None => FallbackName
    case Some(id) =>
      var name := SubstringAfterLast(id, '/', id);
      if name == "" then FallbackName else name
  }

  function DisplayName(folderPath: string, docId: Option<string>): string
  {
    if IsContentUri(folderPath) then ContentDisplayName(docId) else FileName(folderPath)
  }

  /** The last segment of a direct path is its name, whatever its parent and trailing slashes. */
  lemma FileNameOfSegment(parent: string, name: string, trailing: nat)
    requires name != [] && '/' !in name
    ensures FileName(parent + "/" + name + seq(trailing, _ => '/')) == name
  {
    var slashes := seq(trailing, _ => '/');
    var path := parent + "/" + name + slashes;
    StripSlashesOf(parent + "/" + name, slashes);
    var normal := parent + "/" + name;
    assert normal == parent + ['/'] + name;
    LastSegment(parent, name);
  }

  lemma {:induction false} StripSlashesOf(base: string, slashes: string)
    requires base != [] && base[|base| - 1] != '/'
    requires forall i :: 0 <= i < |slashes| ==> slashes[i] == '/'
    ensures StripTrailingSlashes(base + slashes) == base
    decreases |slashes|
  {
    if slashes == [] {
      assert base + slashes == base;
    } else {
      assert (base + slashes)[..|base + slashes| - 1] == base + slashes[..|slashes| - 1];
      StripSlashesOf(base, slashes[..|slashes| - 1]);
    }
  }

  lemma LastSegment(parent: string, name: string)
    requires '/' !in name
    ensures SubstringAfterLast(parent + ['/'] + name, '/', parent + ['/'] + name) == name
  {
    var s := parent + ['/'] + name;
    LastIndexOfAfterSplit(parent, '/', name);
    assert s[|parent| + 1..] == name;
  }

  /** A picked tree always gets a non-empty name, the last segment of its document ID when there is one. */
  lemma ContentDisplayNameChoice(docId: Option<string>)
    ensures ContentDisplayName(docId) != ""
    ensures docId.Some? && '/' in docId.value && SubstringAfterLast(docId.value, '/', "") != "" ==>
      ContentDisplayName(docId) == SubstringAfterLast(docId.value, '/', "")
    ensures docId.Some? && '/' !in docId.value && docId.value != "" ==> ContentDisplayName(docId) == docId.value
  {
    if docId.Some? {
      SubstringAfterLastFacts(docId.value, '/', docId.value);
    }
  }

  /** What `addFolder` decides before its first write. */
  datatype AddDecision = Reject(message: string) | Insert(folder: FolderEntity)

  function AddFolderDecision(rows: FolderRows, fs: FileSystem, folderPath: string, docId: Option<string>): (d: AddDecision)
  {
    if Skipped(fs, folderPath) then Reject("Invalid folder path")
    else if folderPath in rows && rows[folderPath].isActive then Reject("Folder already added")
    else Insert(FolderEntity(folderPath, DisplayName(folderPath, docId), 0, 0, true))
  }

  /**
   * `addFolder` rejects a direct path that is missing or not a directory, then a folder that is
   * already active; otherwise it inserts a fresh active row with no scan date and no images,
   * whether or not an inactive row existed.
   */
  lemma AddFolderDecisionCases(rows: FolderRows, fs: FileSystem, folderPath: string, docId: Option<string>)
    ensures var d := AddFolderDecision(rows, fs, folderPath, docId);
      && (d == Reject("Invalid folder path") <==> !IsContentUri(folderPath) && !RootOf(fs, folderPath).Directory? && !RootOf(fs, folderPath).Unreadable?)
      && (d == Reject("Folder already added") <==> !Skipped(fs, folderPath) && folderPath in rows && rows[folderPath].isActive)
      && (d.Insert? <==> !Skipped(fs, folderPath) && (folderPath !in rows || !rows[folderPath].isActive))
      && (d.Insert? ==> d.folder.folderPath == folderPath && d.folder.lastScanDate == 0 && d.folder.imageCount == 0 && d.folder.isActive)
  {
  }

  /** A removed folder can be added again: after deactivation the duplicate check no longer rejects it. */
  lemma RemovedFolderCanBeReadded(rows: FolderRows, fs: FileSystem, folderPath: string, docId: Option<string>)
    requires !Skipped(fs, folderPath)
    ensures AddFolderDecision(Deactivated(rows, folderPath), fs, folderPath, docId).Insert?
  {
  }

  /** The progress a finished single-folder scan leaves on the screen. */
  function ProgressFor(result: ScanResult): FolderScanProgress
  {
    match result
    case Success(p, n) => FolderScanProgress.Complete("Scanned " + IntToString(p) + " images, " + IntToString(n) + " new")
    case Error(m) => FolderScanProgress.Error(m)
  }

  /** The message a finished single-folder scan emits. */
  function EventFor(result: ScanResult): UiEvent
  {
    match result
    case Success(p, _) => ShowMessage("Scan complete: " + IntToString(p) + " images processed")
    case Error(m) => ShowError("Scan failed: " + m)
  }

  /** A successful scan is reported as complete with a message, a failed one as an error carrying the service's message. */
  lemma ScanReportFaithful(result: ScanResult)
    ensures ProgressFor(result).Complete? <==> result.Success?
    ensures ProgressFor(result).Error? ==> ProgressFor(result).message == result.message
    ensures EventFor(result).ShowError? <==> result.Error?
  {
  }

  class FoldersViewModel {
    const scanService: ImageScanService
    const prefs: SharedPreferences
    var progress: FolderScanProgress
    /** Every event emitted so far, oldest first. */
    var events: seq<UiEvent>

    ghost predicate Valid()
      reads this, scanService, scanService.images, scanService.folders
    {
      scanService.Valid()
    }

    constructor (scanService: ImageScanService, prefs: SharedPreferences)
      requires scanService.Valid()
      ensures Valid() && this.scanService == scanService && this.prefs == prefs
      ensures progress == FolderScanProgress.Idle && events == []
    {
      this.scanService := scanService;
      this.prefs := prefs;
      progress := FolderScanProgress.Idle;
      events := [];
    }

    /**
     * `scanFolder`: publishes Scanning, runs the service's scan, then reports it; a success also
     * records the scan time under the last-scan-date preference.
     */
    method ScanFolder(folder: FolderEntity, fs: FileSystem, ocr: string -> string, now: int, faults: Faults)
      requires Valid()
      modifies this, scanService, scanService.images, scanService.folders, prefs
      ensures Valid()
      ensures var o := ScanFolderOutcome(old(scanService.images.rows), fs, folder.folderPath, ocr, now, faults);
        && scanService.images.rows == o.rows
        && scanService.folders.rows == (if o.wroteInfo then ScanInfoUpdated(old(scanService.folders.rows), folder.folderPath, now, |InFolder(o.rows, folder.folderPath)|)
                                        else old(scanService.folders.rows))
        && progress == ProgressFor(o.result)
        && scanService.progress == (if o.result.Success? then ScanProgress.Complete(o.result.processedCount, o.result.newImagesCount)
                                    else ScanProgress.Failed(o.result.message))
        && events == old(events) + [EventFor(o.result)]
        && prefs.strings == old(prefs.strings)
        && prefs.longs == (if o.result.Success? then old(prefs.longs)[LastScanDateKey := now] else old(prefs.longs))
    {
      progress := FolderScanProgress.Scanning(folder.displayName);
      var result, trace := scanService.ScanFolder(folder.folderPath, fs, ocr, now, faults);
      match result {
        case Success(processed, added) =>
          UpdateLastScanDate(now);
          progress := FolderScanProgress.Complete("Scanned " + IntToString(processed) + " images, " + IntToString(added) + " new");
          events := events + [ShowMessage("Scan complete: " + IntToString(processed) + " images processed")];
        case Error(message) =>
          progress := FolderScanProgress.Error(message);
          events := events + [ShowError("Scan failed: " + message)];
      }
    }

    /**
     * `addFolder`: a rejection emits its error and writes nothing; otherwise the inactive row,
     * if any, is replaced by the fresh row, a success message is emitted and the new folder is
     * scanned against the table that already holds it.
     */
    method AddFolder(folderPath: string, docId: Option<string>, fs: FileSystem, ocr: string -> string, now: int, faults: Faults)
      requires Valid()
      modifies this, scanService, scanService.images, scanService.folders, prefs
      ensures Valid()
      ensures var d := AddFolderDecision(old(scanService.folders.rows), fs, folderPath, docId);
        && (d.Reject? ==>
              && scanService.images.rows == old(scanService.images.rows) && scanService.folders.rows == old(scanService.folders.rows)
              && events == old(events) + [ShowError(d.message)] && progress == old(progress)
              && scanService.progress == old(scanService.progress)
              && prefs.longs == old(prefs.longs))
        && (d.Insert? ==>
              var o := ScanFolderOutcome(old(scanService.images.rows), fs, folderPath, ocr, now, faults);
              var inserted := old(scanService.folders.rows)[folderPath := d.folder];
              && scanService.images.rows == o.rows
              && scanService.folders.rows == (if o.wroteInfo then ScanInfoUpdated(inserted, folderPath, now, |InFolder(o.rows, folderPath)|) else inserted)
              && events == old(events) + [ShowMessage("Folder added successfully"), EventFor(o.result)]
              && progress == ProgressFor(o.result)
              && scanService.progress == (if o.result.Success? then ScanProgress.Complete(o.result.processedCount, o.result.newImagesCount)
                                          else ScanProgress.Failed(o.result.message))
              && prefs.longs == (if o.result.Success? then old(prefs.longs)[LastScanDateKey := now] else old(prefs.longs)))
      ensures prefs.strings == old(prefs.strings)
    {
      var decision := DecideAdd(folderPath, docId, fs);
      if decision.Reject? {
        events := events + [ShowError(decision.message)];
        return;
      }
      ReplaceFolder(decision.folder);
      events := events + [ShowMessage("Folder added successfully")];
      ScanFolder(decision.folder, fs, ocr, now, faults);
    }

    /** The checks `addFolder` makes before writing: the path, then the duplicate check. */
    method DecideAdd(folderPath: string, docId: Option<string>, fs: FileSystem) returns (d: AddDecision)
      requires Valid()
      ensures d == AddFolderDecision(scanService.folders.rows, fs, folderPath, docId)
    {
      var displayName;
      if IsContentUri(folderPath) {
        displayName := ContentDisplayName(docId);
      } else {
        var root := RootOf(fs, folderPath);
        if root.Missing? || root.NotDirectory? {
          return Reject("Invalid folder path");
        }
        displayName := FileName(folderPath);
      }
      var existingFolder := scanService.folders.GetFolderByPath(folderPath);
      if existingFolder.Some? && existingFolder.value.isActive {
        return Reject("Folder already added");
      }
      d := Insert(FolderEntity(folderPath, displayName, 0, 0, true));
    }

    /** Deletes an inactive row at the folder's path, if any, then inserts the fresh row. */
    method ReplaceFolder(folder: FolderEntity)
      requires Valid()
      modifies scanService.folders
      ensures Valid()
      ensures scanService.folders.rows == old(scanService.folders.rows)[folder.folderPath := folder]
    {
      var existingFolder := scanService.folders.GetFolderByPath(folder.folderPath);
      if existingFolder.Some? && !existingFolder.value.isActive {
        scanService.folders.DeleteFolder(existingFolder.value);
      }
      scanService.folders.InsertFolder(folder);
    }

    /**
     * `removeFolder`: the folder row stays, inactive, and no image row of that folder remains;
     * every other row of both tables is unchanged.
     */
    method RemoveFolder(folder: FolderEntity)
      requires Valid()
      modifies this, scanService.images, scanService.folders
      ensures Valid()
      ensures scanService.folders.rows == Deactivated(old(scanService.folders.rows), folder.folderPath)
      ensures scanService.images.rows == old(scanService.images.rows) - InFolder(old(scanService.images.rows), folder.folderPath).Keys
      ensures forall k :: k in scanService.images.rows ==> scanService.images.rows[k].folderPath != folder.folderPath
      ensures events == old(events) + [ShowMessage("Folder removed")] && progress == old(progress)
    {
      scanService.folders.DeactivateFolder(folder.folderPath);
      scanService.images.DeleteImagesInFolder(folder.folderPath);
      events := events + [ShowMessage("Folder removed")];
    }

    /** `updateLastScanDate`: records `now` under the last-scan-date preference. */
    method UpdateLastScanDate(now: int)
      modifies prefs
      ensures prefs.longs == old(prefs.longs)[LastScanDateKey := now] && prefs.strings == old(prefs.strings)
    {
      prefs.PutLong(LastScanDateKey, now);
    }
  }
}
