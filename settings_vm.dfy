/**
 * The background-scan scheduler's own frequency enumeration. Scheduling itself is platform
 * work and is represented only by the value handed to it.
 */
module WorkSchedule {
  datatype ScanFrequency = Daily | Weekly | ManualOnly

  function Name(f: ScanFrequency): string
  {
    match f
    case Daily => "DAILY"
    case Weekly => "WEEKLY"
    case ManualOnly => "MANUAL_ONLY"
  }
}

/**
 * The settings screen's view model: the scan frequency preference, clearing the database,
 * the manual scan of all folders with its busy flag, and the database statistics.
 */
module Settings {
  import opened Wrappers
  import opened Text
  import opened Entities
  import opened ImageStore
  import opened FolderStore
  import opened FileTree
  import opened Reconcile
  import opened ScanService
  import opened Preferences
  import WorkSchedule

  datatype ScanFrequency = Daily | Weekly | ManualOnly

  /** The enum constant's `name`, which is what the preference stores. */
  function Name(f: ScanFrequency): string
  {
    match f
    case Daily => "DAILY"
    case Weekly => "WEEKLY"
    case ManualOnly => "MANUAL_ONLY"
  }

  /** `ScanFrequency.valueOf(name)`: the constant with that exact name, or failure. */
  function ValueOf(name: string): (r: Option<ScanFrequency>)
    ensures r.Some? ==> Name(r.value) == name
    ensures r.None? ==> forall f: ScanFrequency :: Name(f) != name
  {
    if name == "DAILY" then Some(Daily)
    else if name == "WEEKLY" then Some(Weekly)
    else if name == "MANUAL_ONLY" then Some(ManualOnly)
    else None
  }

  /** Distinct constants have distinct names, so a stored name determines the constant. */
  lemma NameInjective(f: ScanFrequency, g: ScanFrequency)
    ensures Name(f) == Name(g) ==> f == g
  {
  }

  /** `getScanFrequency`: the stored constant, DAILY when nothing usable is stored. */
  function StoredFrequency(strings: map<string, string>): (r: ScanFrequency)
    ensures ScanFrequencyKey in strings && ValueOf(strings[ScanFrequencyKey]).Some? ==> Name(r) == strings[ScanFrequencyKey]
    ensures ScanFrequencyKey !in strings || ValueOf(strings[ScanFrequencyKey]).None? ==> r == Daily
  {
    var name := if ScanFrequencyKey in strings then strings[ScanFrequencyKey] else Name(Daily);
    match ValueOf(name)
    case Some(f) => f
    case None => Daily
  }

  /** What `setScanFrequency` stores, `getScanFrequency` reads back. */
  lemma StoredFrequencyRoundTrip(strings: map<string, string>, f: ScanFrequency)
    ensures StoredFrequency(strings[ScanFrequencyKey := Name(f)]) == f
  {
    NameInjective(StoredFrequency(strings[ScanFrequencyKey := Name(f)]), f);
  }

  /** The scheduler's constant chosen by `setScanFrequency`. */
  function ToWorkFrequency(f: ScanFrequency): (r: WorkSchedule.ScanFrequency)
    ensures WorkSchedule.Name(r) == Name(f)
  {
    match f
    case Daily => WorkSchedule.Daily
    case Weekly => WorkSchedule.Weekly
    case ManualOnly => WorkSchedule.ManualOnly
  }

  /** The mapping to the scheduler's constants is one-to-one and onto. */
  lemma ToWorkFrequencyBijective(f: ScanFrequency, g: ScanFrequency, w: WorkSchedule.ScanFrequency)
    ensures ToWorkFrequency(f) == ToWorkFrequency(g) ==> f == g
    ensures exists h :: ToWorkFrequency(h) == w
  {
    NameInjective(f, g);
    match w
    case Daily => assert ToWorkFrequency(Daily) == w;
    case Weekly => assert ToWorkFrequency(Weekly) == w;
    case ManualOnly => assert ToWorkFrequency(ManualOnly) == w;
  }

  /** The two counts shown on the settings screen, total first. */
  datatype DatabaseStats = DatabaseStats(totalImages: int, imagesWithText: int)

  datatype UiEvent = ShowMessage(message: string) | ShowError(message: string) | DatabaseCleared

  /** The copy `clearDatabase` writes for a folder: an active folder loses its scan information. */
  function Reset(folder: FolderEntity): FolderEntity
  {
    if folder.isActive then folder.(lastScanDate := 0, imageCount := 0) else folder
  }

  /** The folders table after `clearDatabase`. */
  function ResetActive(rows: FolderRows): (r: FolderRows)
    ensures r.Keys == rows.Keys
    ensures forall k :: k in rows && !rows[k].isActive ==> r[k] == rows[k]
    ensures forall k :: k in rows && rows[k].isActive ==>
      && r[k].lastScanDate == 0 && r[k].imageCount == 0 && r[k].isActive
      && r[k].folderPath == rows[k].folderPath && r[k].displayName == rows[k].displayName
  {
    map k | k in rows :: Reset(rows[k])
  }

  /** A second clear changes nothing. */
  lemma ClearIdempotent(rows: FolderRows)
    ensures ResetActive(ResetActive(rows)) == ResetActive(rows)
  {
    var r := ResetActive(rows);
    forall k | k in r
      ensures ResetActive(r)[k] == r[k]
    {
    }
  }

  /** The message a successful manual scan shows. */
  function ScanMessage(result: ScanResult): UiEvent
  {
    match result
    case Success(p, n) => ShowMessage("Scan complete: " + IntToString(p) + " images processed, " + IntToString(n) + " new")
    case Error(m) => ShowError("Scan failed: " + m)
  }

  class SettingsViewModel {
    const scanService: ImageScanService
    const prefs: SharedPreferences
    var frequency: ScanFrequency
    var lastScanDate: int
    var stats: DatabaseStats
    var isScanning: bool
    /** Every value `isScanning` has been set to, oldest first. */
    ghost var scanningFlags: seq<bool>
    /** Every frequency handed to the scheduler, oldest first. */
    var scheduled: seq<WorkSchedule.ScanFrequency>
    var events: seq<UiEvent>

    ghost predicate Valid()
      reads this, scanService, scanService.images, scanService.folders
    {
      scanService.Valid()
    }

    /** The initial state reads the frequency and the last scan date, then loads the statistics. */
    constructor (scanService: ImageScanService, prefs: SharedPreferences)
      requires scanService.Valid()
      ensures Valid() && this.scanService == scanService && this.prefs == prefs
      ensures frequency == StoredFrequency(prefs.strings)
      ensures lastScanDate == (if LastScanDateKey in prefs.longs then prefs.longs[LastScanDateKey] else 0)
      ensures stats == DatabaseStats(|scanService.images.rows|, |WithText(scanService.images.rows)|)
      ensures !isScanning && scanningFlags == [] && scheduled == [] && events == []
    {
      var stored := prefs.GetString(ScanFrequencyKey, Some(Name(Daily)));
      var name := if stored.Some? then stored.value else Name(Daily);
      frequency := match ValueOf(name) case Some(f) => f case None => Daily;
      var date := prefs.GetLong(LastScanDateKey, 0);
      lastScanDate := date;
      var totalImages := scanService.images.GetTotalImageCount();
      var imagesWithText := scanService.images.GetImagesWithTextCount();
      stats := DatabaseStats(totalImages, imagesWithText);
      isScanning := false;
      scanningFlags := [];
      scheduled := [];
      events := [];
      this.scanService := scanService;
      this.prefs := prefs;
    }

    /** `setScanFrequency`: stores the constant's name and reschedules with the same-named scheduler constant. */
    method SetScanFrequency(f: ScanFrequency)
      modifies this, prefs
      ensures frequency == f
      ensures prefs.strings == old(prefs.strings)[ScanFrequencyKey := Name(f)] && prefs.longs == old(prefs.longs)
      ensures scheduled == old(scheduled) + [ToWorkFrequency(f)]
      ensures WorkSchedule.Name(scheduled[|scheduled| - 1]) == Name(f)
      ensures StoredFrequency(prefs.strings) == f
      ensures stats == old(stats) && events == old(events) && isScanning == old(isScanning)
    {
      frequency := f;
      prefs.PutString(ScanFrequencyKey, Name(f));
      scheduled := scheduled + [ToWorkFrequency(f)];
      StoredFrequencyRoundTrip(old(prefs.strings), f);
    }

    /** `getScanFrequency`. */
    method GetScanFrequency() returns (r: ScanFrequency)
      ensures r == StoredFrequency(prefs.strings)
    {
      var stored := prefs.GetString(ScanFrequencyKey, Some(Name(Daily)));
      var name := if stored.Some? then stored.value else Name(Daily);
      r := match ValueOf(name) case Some(f) => f case None => Daily;
    }

    /** `loadDatabaseStats`: the total count and the with-text count, which never exceeds it. */
    method LoadDatabaseStats()
      requires Valid()
      modifies this
      ensures Valid()
      ensures stats == DatabaseStats(|scanService.images.rows|, |WithText(scanService.images.rows)|)
      ensures 0 <= stats.imagesWithText <= stats.totalImages
      ensures frequency == old(frequency) && lastScanDate == old(lastScanDate) && isScanning == old(isScanning)
      ensures scanningFlags == old(scanningFlags) && scheduled == old(scheduled) && events == old(events)
    {
      var totalImages := scanService.images.GetTotalImageCount();
      var imagesWithText := scanService.images.GetImagesWithTextCount();
      stats := DatabaseStats(totalImages, imagesWithText);
    }

    /**
     * `clearDatabase`: the images table ends empty; every active folder keeps its row with its
     * scan date and image count zeroed; inactive folders are untouched.
     */
    method ClearDatabase()
      requires Valid()
      modifies this, scanService.images, scanService.folders
      ensures Valid()
      ensures scanService.images.rows == map[]
      ensures scanService.folders.rows == ResetActive(old(scanService.folders.rows))
      ensures forall k :: k in scanService.folders.rows && scanService.folders.rows[k].isActive ==>
        scanService.folders.rows[k].imageCount == |InFolder(scanService.images.rows, k)|
      ensures stats == DatabaseStats(0, 0)
      ensures events == old(events) + [DatabaseCleared, ShowMessage("Database cleared successfully")]
      ensures frequency == old(frequency) && lastScanDate == old(lastScanDate) && isScanning == old(isScanning)
    {
      scanService.images.DeleteAllImages();
      ResetFolders();
      LoadDatabaseStats();
      assert WithText(map[]) == {};
      forall k | k in scanService.folders.rows && scanService.folders.rows[k].isActive
        ensures scanService.folders.rows[k].imageCount == |InFolder(scanService.images.rows, k)|
      {
        assert InFolder(map[], k) == map[];
      }
      events := events + [DatabaseCleared, ShowMessage("Database cleared successfully")];
    }

    /** The loop of `clearDatabase` over every folder row. */
    method ResetFolders()
      requires Valid()
      modifies scanService.folders
      ensures Valid()
      ensures scanService.folders.rows == ResetActive(old(scanService.folders.rows))
    {
      var dao := scanService.folders;
      ghost var rows0 := dao.rows;
      var all := dao.GetAllFolders();
      ghost var done: set<string> := {};
      for i := 0 to |all|
        invariant dao.Valid() && dao.rows.Keys == rows0.Keys
        invariant forall j :: 0 <= j < i ==> all[j].folderPath in done
        invariant forall k :: k in rows0 ==> dao.rows[k] == (if k in done then Reset(rows0[k]) else rows0[k])
        invariant forall j :: i <= j < |all| ==> all[j].folderPath !in done
      {
        var folder := all[i];
        if folder.isActive {
          dao.UpdateFolder(folder.(lastScanDate := 0, imageCount := 0));
        }
        done := done + {folder.folderPath};
      }
      forall k | k in rows0
        ensures k in done
      {
        var j :| 0 <= j < |all| && all[j] == rows0[k];
      }
    }

    /** `updateLastScanDate`. */
    method UpdateLastScanDate(now: int)
      modifies this, prefs
      ensures prefs.longs == old(prefs.longs)[LastScanDateKey := now] && prefs.strings == old(prefs.strings)
      ensures lastScanDate == now
      ensures stats == old(stats) && events == old(events) && isScanning == old(isScanning)
      ensures scanningFlags == old(scanningFlags) && frequency == old(frequency)
    {
      prefs.PutLong(LastScanDateKey, now);
      lastScanDate := now;
    }

    /**
     * `performManualScan`: the busy flag is raised before the scan of all folders and lowered
     * after it, whatever the result; a success records the scan time and reloads the statistics.
     */
    method PerformManualScan(fs: FileSystem, ocr: string -> string, now: int, faults: Faults)
      returns (ghost result: ScanResult, ghost cleanOrder: seq<FolderEntity>, ghost scanOrder: seq<FolderEntity>)
      requires Valid()
      modifies this, scanService, scanService.images, scanService.folders, prefs
      ensures Valid()
      ensures scanningFlags == old(scanningFlags) + [true, false] && !isScanning
      ensures ActiveOrder(old(scanService.folders.rows), cleanOrder)
      ensures var c := CleanFolders(Cleaned(old(scanService.images.rows), old(scanService.folders.rows), false), cleanOrder, fs, faults);
        && ActiveOrder(c.folders, scanOrder)
        && var a := ScanFolders(AllScan(c.rows, c.folders, 0, 0, old(scanService.progress), None), FolderPathList(scanOrder), fs, ocr, now, faults);
        && scanService.images.rows == a.rows && scanService.folders.rows == a.folders
        && result == (if a.error.Some? then Error(a.error.value) else Success(a.processed, a.added))
      ensures events == old(events) + [ScanMessage(result)]
      ensures result.Success? ==>
        && prefs.longs == old(prefs.longs)[LastScanDateKey := now] && lastScanDate == now
        && stats == DatabaseStats(|scanService.images.rows|, |WithText(scanService.images.rows)|)
      ensures result.Error? ==> prefs.longs == old(prefs.longs) && lastScanDate == old(lastScanDate) && stats == old(stats)
      ensures prefs.strings == old(prefs.strings) && frequency == old(frequency)
    {
      isScanning := true;
      scanningFlags := scanningFlags + [true];
      var scanResult;
      scanResult, cleanOrder, scanOrder := scanService.ScanAllFolders(fs, ocr, now, faults);
      result := scanResult;
      ReportScan(scanResult, now);
      isScanning := false;
      scanningFlags := scanningFlags + [false];
    }

    /** What `performManualScan` does with the scan's result: record the date and reload the statistics on success, and report. */
    method ReportScan(scanResult: ScanResult, now: int)
      requires Valid()
      modifies this, prefs
      ensures Valid()
      ensures events == old(events) + [ScanMessage(scanResult)]
      ensures scanResult.Success? ==>
        && prefs.longs == old(prefs.longs)[LastScanDateKey := now] && lastScanDate == now
        && stats == DatabaseStats(|scanService.images.rows|, |WithText(scanService.images.rows)|)
      ensures scanResult.Error? ==> prefs.longs == old(prefs.longs) && lastScanDate == old(lastScanDate) && stats == old(stats)
      ensures prefs.strings == old(prefs.strings) && frequency == old(frequency)
      ensures isScanning == old(isScanning) && scanningFlags == old(scanningFlags)
    {
      match scanResult {
        case Success(processed, added) =>
          UpdateLastScanDate(now);
          LoadDatabaseStats();
          events := events + [ShowMessage("Scan complete: " + IntToString(processed) + " images processed, " + IntToString(added) + " new")];
        case Error(message) =>
          events := events + [ShowError("Scan failed: " + message)];
      }
    }
  }
}
