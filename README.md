# PicFinder image index, modelled in Dafny

PicFinder is an Android app that indexes the text in a user's screenshots and photos so they can be searched. It works in two parts:

- Registered folders are walked, and each supported image's text goes through an OCR engine and into an `images` table. A `folders` table tracks each folder's scan date and image count.
- A free-text query is cut into keywords, and the app returns the images in which every keyword occurs.

This project models the core of that app and proves what it promises. The core has these parts:

- **`Entities`** holds the two table rows, the file descriptor, and the scan result and progress types.
- **`ImageStore`** and **`FolderStore`** model the two tables. Each is a class with a `map` field keyed by primary key, with upsert-by-`REPLACE`, delete-by-key, delete-by-folder, the counts, deactivation and the scan-info update.
- **`Ocr`** is the supported-extension test.
- **`FileTree`** is the depth-bounded directory walk. It works over an abstract tree of entries.
- **`Reconcile`** holds the scan reconciliation as functions of the store contents and the filesystem:
  - the per-file pass that skips unchanged files;
  - the single-folder scan with its interim checkpoints every 10 files;
  - the per-folder step of the all-folders scan, which deletes vanished paths;
  - the cleanup pass.

  The lemmas about these functions are the properties of the scanner.
- **`ScanService`** is `ImageScanService` as a class over the two tables. Each of its loops is proved to leave exactly the state the matching `Reconcile` function describes.
- **`Repository`** holds query tokenisation, the built SQL text and argument list, and the meaning of that query as a predicate on records. It also holds the cleanup entry point.
- **`FoldersScreen`** covers adding, scanning and removing folders.
- **`Settings`** covers the scan-frequency preference, clearing the database, the manual scan with its busy flag, and the statistics.
- **`FolderPicker`** maps a document tree ID to a storage path.
- **`Preferences`** is the key-value preference store these screens use.
- **`WorkSchedule`** is the scheduler's frequency enumeration.
- **`Text`**, **`Tables`** and **`Wrappers`** hold the Kotlin standard-library helpers the core relies on.

Outside effects become inputs:

- OCR is an abstract total function `ocr: string -> string` applied to an image address.
- The filesystem is a `FileSystem` value: a root per folder address plus the set of file addresses whose existence check succeeds.
- The clock is one `now` per call.
- Store exceptions are a `Faults` value, at four throw sites only. It names:
  - the paths whose upsert throws;
  - the paths after which the interim count write throws;
  - the folders whose image read in a scan throws;
  - the folders whose image read in the cleanup throws.

  Every other store call is taken never to throw; "## Left out" lists those calls.

The scan service's progress constructor for an error is called `Failed` rather than `Error`, because `Error` is already the scan-result constructor in the same module.

## Model

| member | source | states |
|---|---|---|
| Ocr.IsImageFile | app/src/main/java/com/picfinder/app/utils/OCRService.kt:84-86 | the lower-cased text after the last '.' is one of the supported extensions; characterised by `Ocr.IsImageFileCharacterized` |
| Ocr.IsImageFileCharacterized | app/src/main/java/com/picfinder/app/utils/OCRService.kt:82-87 | a name is an image file iff it is `p + "." + e` with no '.' in `e` and `e` lower-cased one of jpg, jpeg, png, bmp, webp |
| Text.SubstringAfterLastFacts | app/src/main/java/com/picfinder/app/utils/OCRService.kt:85 | the text after the last delimiter contains no delimiter and completes the string; without a delimiter the result is the fallback |
| Text.LastIndexOfFacts | app/src/main/java/com/picfinder/app/utils/OCRService.kt:85 | a found index holds the character with none after it; none is found only when the character does not occur |
| Text.ToLowerChars | app/src/main/java/com/picfinder/app/utils/OCRService.kt:85 | lower-casing maps each character on its own, ASCII capitals to small letters |
| Text.SubstringAfterLast | app/src/main/java/com/picfinder/app/utils/OCRService.kt:85 | Kotlin's `substringAfterLast` with a fallback; characterised by `Text.SubstringAfterLastFacts` |
| Text.ToLower | app/src/main/java/com/picfinder/app/utils/OCRService.kt:85 | keeps the length; ASCII-only lower-casing, characterised by `Text.ToLowerChars` |
| Text.IsBlank | app/src/main/java/com/picfinder/app/data/repository/PicFinderRepository.kt:35 | every character is whitespace in Kotlin's JVM sense, no-break spaces included; used by `Text.Trim` and `Repository.DropBlank` |
| Text.Trim | app/src/main/java/com/picfinder/app/data/repository/PicFinderRepository.kt:40 | the result has no whitespace at either end, and it is empty iff the input is blank |
| Text.SplitOnSpaceRuns | app/src/main/java/com/picfinder/app/data/repository/PicFinderRepository.kt:40 | `split(Regex("\\s+"))` yields at least one piece; that no piece holds a `\s` character is `Repository.SplitPartsWithoutSpaces` |
| Ocr.ExtensionAppended | app/src/main/java/com/picfinder/app/utils/OCRService.kt:82-86 | appending `"." + e` makes any name an image file exactly when `e` is a supported extension |
| Ocr.NoDotRejected | app/src/main/java/com/picfinder/app/utils/OCRService.kt:85-86 | a name without '.' is rejected |
| Ocr.TrailingDotRejected | app/src/main/java/com/picfinder/app/utils/OCRService.kt:85-86 | a name ending in '.' is rejected |
| Ocr.CaseIgnored | app/src/main/java/com/picfinder/app/utils/OCRService.kt:85-86 | any name ending in ".JPG" or ".PnG" is accepted |
| Ocr.BareExtensionAccepted | app/src/main/java/com/picfinder/app/utils/OCRService.kt:82-86 | ".png" alone is accepted |
| Ocr.LastExtensionAccepted | app/src/main/java/com/picfinder/app/utils/OCRService.kt:85-86 | any name ending in ".txt" then ".png" is accepted: only the last extension counts |
| Ocr.LastExtensionRejected | app/src/main/java/com/picfinder/app/utils/OCRService.kt:85-86 | any name ending in ".jpg" then ".txt" is rejected |
| FileTree.Walk | app/src/main/java/com/picfinder/app/utils/ImageScanService.kt:300-318 | the entries of one listing, in order; characterised by `FileTree.WalkListsExactlyReachable`, `FileTree.WalkSound` and `FileTree.WalkComplete` |
| FileTree.WalkEntry | app/src/main/java/com/picfinder/app/utils/ImageScanService.kt:301-317 | one entry: a directory is entered below depth 10, a supported file is listed, anything else contributes nothing; characterised by `FileTree.SkippedEntryHarmless` and `FileTree.EntrySound` |
| FileTree.Listing | app/src/main/java/com/picfinder/app/utils/ImageScanService.kt:285-328 | the listing of a folder root; characterised by `FileTree.GetAllImageFiles` and `FileTree.GetAllImageFilesFromUri` |
| FileTree.ScanDirectory | app/src/main/java/com/picfinder/app/utils/ImageScanService.kt:288-323 | the recursive directory scan appends exactly the walk of the children to the list built so far |
| FileTree.GetAllImageFiles | app/src/main/java/com/picfinder/app/utils/ImageScanService.kt:285-328 | the result is the folder's listing, and a descriptor is in it iff it is a supported image file reachable through listable directories entered below depth 10 |
| FileTree.GetAllImageFilesFromUri | app/src/main/java/com/picfinder/app/utils/ImageScanService.kt:330-382 | the result is the tree's listing, and empty when the tree does not resolve to a directory or cannot be listed |
| FileTree.WalkListsExactlyReachable | app/src/main/java/com/picfinder/app/utils/ImageScanService.kt:300-318 | the walk lists a file iff it is a reachable supported image file with no directory entered at depth 10 or more |
| FileTree.WalkSound | app/src/main/java/com/picfinder/app/utils/ImageScanService.kt:303-314 | everything listed is a reachable supported image file |
| FileTree.WalkRoute | app/src/main/java/com/picfinder/app/utils/ImageScanService.kt:303-314 | every listed descriptor comes with a route of child indices within the depth bound that leads to its file |
| FileTree.EntrySound | app/src/main/java/com/picfinder/app/utils/ImageScanService.kt:303-314 | a file listed under one entry is reached by a route into that entry that respects the depth bound |
| FileTree.WalkComplete | app/src/main/java/com/picfinder/app/utils/ImageScanService.kt:303-314 | every reachable supported image file is listed |
| FileTree.SkippedEntryHarmless | app/src/main/java/com/picfinder/app/utils/ImageScanService.kt:293-318 | an unlistable directory, a nameless document or an entry that throws contributes nothing and does not disturb its siblings |
| ImageStore.InFolder | app/src/main/java/com/picfinder/app/data/database/ImageDao.kt:12-13 | the rows of a folder: a key is in it iff its row has that folderPath, with the row unchanged |
| ImageStore.WithText | app/src/main/java/com/picfinder/app/data/database/ImageDao.kt:21-22 | a key is selected iff its row's text is non-empty |
| ImageStore.WithTextBounded | app/src/main/java/com/picfinder/app/data/database/ImageDao.kt:18-22 | the with-text count never exceeds the total count |
| ImageStore.AssociateByPath | app/src/main/java/com/picfinder/app/utils/ImageScanService.kt:78 | `associateBy { it.filePath }` has the listed paths as keys and stores each record under its own path |
| ImageStore.AssociateFolderRows | app/src/main/java/com/picfinder/app/utils/ImageScanService.kt:78 | associating a folder's rows, each listed once, gives back exactly the folder's part of the table |
| ImageStore.UpsertAllMerges | app/src/main/java/com/picfinder/app/data/database/ImageDao.kt:27-28 | inserting a list with REPLACE equals merging its associated map over the table |
| ImageStore.ImageDao.GetImagesInFolder | app/src/main/java/com/picfinder/app/data/database/ImageDao.kt:12-13 | returns every row of the folder once and no other row |
| ImageStore.ImageDao.GetImageCountInFolder | app/src/main/java/com/picfinder/app/data/database/ImageDao.kt:15-16 | the number of the folder's rows |
| ImageStore.ImageDao.GetTotalImageCount | app/src/main/java/com/picfinder/app/data/database/ImageDao.kt:18-19 | the number of rows |
| ImageStore.ImageDao.GetImagesWithTextCount | app/src/main/java/com/picfinder/app/data/database/ImageDao.kt:21-22 | the number of rows with text, at most the total |
| ImageStore.ImageDao.InsertImage | app/src/main/java/com/picfinder/app/data/database/ImageDao.kt:24-25 | the path now maps to the image, every other row is unchanged, one row per path |
| ImageStore.ImageDao.InsertImages | app/src/main/java/com/picfinder/app/data/database/ImageDao.kt:27-28 | each image is upserted in turn, and the last one wins for a repeated path |
| ImageStore.ImageDao.DeleteImage | app/src/main/java/com/picfinder/app/data/database/ImageDao.kt:30-31 | removes only the row at the image's path |
| ImageStore.ImageDao.DeleteImagesInFolder | app/src/main/java/com/picfinder/app/data/database/ImageDao.kt:33-34 | removes exactly the folder's rows |
| ImageStore.ImageDao.DeleteNonExistentImages | app/src/main/java/com/picfinder/app/data/database/ImageDao.kt:36-37 | keeps exactly the rows whose path is listed |
| ImageStore.ImageDao.DeleteAllImages | app/src/main/java/com/picfinder/app/data/database/ImageDao.kt:39-40 | the table is empty |
| ImageStore.ImageDao.GetImageByPath | app/src/main/java/com/picfinder/app/data/database/ImageDao.kt:42-43 | the row at the path, or none when absent |
| FolderStore.ScanInfoUpdated | app/src/main/java/com/picfinder/app/data/database/FolderDao.kt:27-28 | only lastScanDate and imageCount of the matching row change; nothing happens when the row is absent |
| FolderStore.Deactivated | app/src/main/java/com/picfinder/app/data/database/FolderDao.kt:24-25 | only isActive of the matching row changes, to false; nothing happens when the row is absent |
| FolderStore.ScanInfoLastWriteWins | app/src/main/java/com/picfinder/app/data/database/FolderDao.kt:27-28 | of two scan-info writes to one row only the second remains, so the final count overrides every checkpoint |
| FolderStore.FolderDao.GetActiveFolders | app/src/main/java/com/picfinder/app/data/database/FolderDao.kt:9-10 | exactly the active rows, each once |
| FolderStore.FolderDao.GetAllFolders | app/src/main/java/com/picfinder/app/data/database/FolderDao.kt:12-13 | every row once, each equal to the stored row |
| FolderStore.FolderDao.InsertFolder | app/src/main/java/com/picfinder/app/data/database/FolderDao.kt:15-16 | upsert by folderPath |
| FolderStore.FolderDao.UpdateFolder | app/src/main/java/com/picfinder/app/data/database/FolderDao.kt:18-19 | replaces an existing row by key and never inserts |
| FolderStore.FolderDao.DeleteFolder | app/src/main/java/com/picfinder/app/data/database/FolderDao.kt:21-22 | removes the row by key only |
| FolderStore.FolderDao.DeactivateFolder | app/src/main/java/com/picfinder/app/data/database/FolderDao.kt:24-25 | the table becomes `Deactivated` of the old one |
| FolderStore.FolderDao.UpdateFolderScanInfo | app/src/main/java/com/picfinder/app/data/database/FolderDao.kt:27-28 | the table becomes `ScanInfoUpdated` of the old one |
| FolderStore.FolderDao.GetFolderByPath | app/src/main/java/com/picfinder/app/data/database/FolderDao.kt:30-31 | the row at the path, or none when absent |
| Reconcile.ProcessFile | app/src/main/java/com/picfinder/app/utils/ImageScanService.kt:87-137 | one iteration of the per-file loop, with its catch; characterised by `Reconcile.ProcessFileCheckpoint` |
| Reconcile.FoldFiles | app/src/main/java/com/picfinder/app/utils/ImageScanService.kt:80-138 | the per-file loop over a listing; characterised by the `Reconcile.Fold…` lemmas below |
| Reconcile.ScanFolderOutcome | app/src/main/java/com/picfinder/app/utils/ImageScanService.kt:32-155 | the single-folder scan; characterised by the `Reconcile.ScanFolder…` lemmas below |
| Reconcile.Skipped | app/src/main/java/com/picfinder/app/utils/ImageScanService.kt:179-186 | a direct folder that is missing or not a directory, which the all-folders loop passes over; used by `Reconcile.ReconcileFolderEffect` |
| Reconcile.ReconcileFolder | app/src/main/java/com/picfinder/app/utils/ImageScanService.kt:175-262 | one folder of the all-folders loop; characterised by `Reconcile.ReconcileFolderEffect` and `Reconcile.UnlistableFolderLosesIndex` |
| Reconcile.ScanFolders | app/src/main/java/com/picfinder/app/utils/ImageScanService.kt:171-273 | the all-folders loop; characterised by `Reconcile.ScanFoldersError`, `Reconcile.ScanFoldersTotals` and `Reconcile.ScanErrorPersists` |
| Reconcile.CleanFolder | app/src/main/java/com/picfinder/app/utils/ImageScanService.kt:389-430 | one folder of the cleanup; characterised by `Reconcile.CleanFolderEffect` |
| Reconcile.CleanFolders | app/src/main/java/com/picfinder/app/utils/ImageScanService.kt:387-434 | the cleanup loop; characterised by `Reconcile.CleanFoldersEffect` and `Reconcile.CleanAbortPersists` |
| Reconcile.FoldCounts | app/src/main/java/com/picfinder/app/utils/ImageScanService.kt:80-138 | over a listing, processed rises by at least the listing size, and by exactly that when no checkpoint throws; new rises by at most the listing size and by no more than processed |
| Reconcile.FoldAddedExact | app/src/main/java/com/picfinder/app/utils/ImageScanService.kt:119-124 | the new count a pass adds is exactly `NewFiles`: the listed files whose path is not in the snapshot and whose upsert completes |
| Reconcile.FoldCheckpointCounts | app/src/main/java/com/picfinder/app/utils/ImageScanService.kt:126-132 | a pass only appends to the checkpoint trace, and every checkpoint it writes holds the processed count and the folder's row count as they stand right after some prefix of the listing |
| Reconcile.FoldKeepsRows | app/src/main/java/com/picfinder/app/utils/ImageScanService.kt:80-138 | the per-file pass never deletes: every row survives, rows of unlisted paths are untouched, and every new key is a listed path |
| Reconcile.FoldWritesRecords | app/src/main/java/com/picfinder/app/utils/ImageScanService.kt:93-124 | with distinct paths and no failing upsert, each listed file ends with its snapshot record when unchanged, and otherwise with its path, name, the scanned folder, the extracted text and the listed lastModified and size |
| Reconcile.FoldAllUnchanged | app/src/main/java/com/picfinder/app/utils/ImageScanService.kt:93-97 | a listing of unchanged files is only counted: no row, checkpoint or progress changes |
| Reconcile.FoldCheckpoints | app/src/main/java/com/picfinder/app/utils/ImageScanService.kt:129-132 | checkpoints occur only in the single-folder scan, at positive multiples of 10 processed files, strictly increasing and within the processed count |
| Reconcile.ProcessFileCheckpoint | app/src/main/java/com/picfinder/app/utils/ImageScanService.kt:94-137 | one file counts once, and twice when its checkpoint throws; it is new iff its path is not in the snapshot and its upsert completes; a checkpoint is due only in the single-folder scan after a completed upsert of a changed file that brings the count to a multiple of 10, and unless it throws it records that count and the folder's row count after the upsert |
| Reconcile.ScanFolderRootErrors | app/src/main/java/com/picfinder/app/utils/ImageScanService.kt:39-65 | a missing, non-directory or unreadable direct path gives the matching error message and no store write |
| Reconcile.ScanFolderEmptyListing | app/src/main/java/com/picfinder/app/utils/ImageScanService.kt:70-74 | an empty listing gives Success(0, 0) and writes nothing |
| Reconcile.ScanFolderCounts | app/src/main/java/com/picfinder/app/utils/ImageScanService.kt:80-146 | on Success(p, n): n ≤ p, n is exactly the number of listed files new to the folder whose upsert completes, p is at least the listing size and equals it when no checkpoint throws, and no row is deleted |
| Reconcile.ScanFolderRecords | app/src/main/java/com/picfinder/app/utils/ImageScanService.kt:99-124 | on success with distinct paths and no failing upsert, every listed file is stored under the scanned folder with its listed lastModified |
| Reconcile.ScanFolderCheckpoints | app/src/main/java/com/picfinder/app/utils/ImageScanService.kt:126-132 | the checkpoints of a scan come at positive multiples of 10, increasing, within the processed count, and each holds the processed count and the folder's row count right after some prefix of the listing |
| Reconcile.ScanFolderIdempotent | app/src/main/java/com/picfinder/app/utils/ImageScanService.kt:93-97 | rescanning an unchanged filesystem leaves every image row as it is, writes no checkpoint and reports Success(listing size, 0) |
| Reconcile.ReconcileFolderEffect | app/src/main/java/com/picfinder/app/utils/ImageScanService.kt:175-262 | one folder of the all-folders scan. A skipped folder changes nothing. Otherwise a row of the folder survives iff its path is still listed, every listed file is counted exactly once, the new count rises by exactly the listed files new to the folder whose upsert completes, and the folder gets the scan date and its row count |
| Reconcile.UnlistableFolderLosesIndex | app/src/main/java/com/picfinder/app/utils/ImageScanService.kt:179-201 | an unreadable direct folder or an inaccessible tree lists nothing, so all of that folder's rows are deleted |
| Reconcile.ScanFoldersError | app/src/main/java/com/picfinder/app/utils/ImageScanService.kt:166-273 | the all-folders loop ends in error iff some visited folder's read throws, with "Error scanning all folders: " and the exception message |
| Reconcile.ScanFoldersTotals | app/src/main/java/com/picfinder/app/utils/ImageScanService.kt:166-268 | without error the totals are the sums over the folders: processed is the total listing size and new ≤ processed; the folder table keeps its keys and unvisited folders keep their rows |
| Reconcile.ScanErrorPersists | app/src/main/java/com/picfinder/app/utils/ImageScanService.kt:270-273 | once a folder's read throws, no later folder is visited |
| Reconcile.Vanished | app/src/main/java/com/picfinder/app/utils/ImageScanService.kt:390-419 | the cleanup's doomed rows are exactly the folder's rows whose file does not exist |
| Reconcile.CleanFolderEffect | app/src/main/java/com/picfinder/app/utils/ImageScanService.kt:389-430 | cleaning one folder deletes exactly its vanished rows, writes the number of its remaining rows as its image count and keeps its scan date |
| Reconcile.CleanFoldersEffect | app/src/main/java/com/picfinder/app/utils/ImageScanService.kt:387-430 | without a throwing read, the cleanup deletes exactly the vanished rows of the visited folders, keeps every other row and changes no folder outside the list |
| Reconcile.CleanAbortPersists | app/src/main/java/com/picfinder/app/utils/ImageScanService.kt:432-434 | a throwing read ends the cleanup silently: no later folder is cleaned |
| ScanService.ActiveOnly | app/src/main/java/com/picfinder/app/utils/ImageScanService.kt:166 | a folder is kept iff it is listed and active, and the result is no longer than the input |
| ScanService.ActiveOnlyDistinct | app/src/main/java/com/picfinder/app/utils/ImageScanService.kt:166 | filtering a list of folders with distinct paths keeps the paths distinct |
| ScanService.ActiveOnlyOrder | app/src/main/java/com/picfinder/app/utils/ImageScanService.kt:166 | filtering all folders, whose paths are distinct, gives every active folder row exactly once and nothing else |
| ScanService.PresentPaths | app/src/main/java/com/picfinder/app/utils/ImageScanService.kt:390-404 | a path is kept iff some listed record has it and its file still exists |
| ScanService.MissingImages | app/src/main/java/com/picfinder/app/utils/ImageScanService.kt:407-419 | a record is kept iff it is listed and its file is gone |
| ScanService.MissingImagesVanished | app/src/main/java/com/picfinder/app/utils/ImageScanService.kt:407-419 | the records the cleanup deletes are exactly the folder's vanished rows |
| ScanService.PresentPathsCount | app/src/main/java/com/picfinder/app/utils/ImageScanService.kt:426-430 | the count the cleanup writes is the number of the folder's rows whose file exists |
| ScanService.ImageScanService.ScanFolder | app/src/main/java/com/picfinder/app/utils/ImageScanService.kt:32-155 | the image table, checkpoints and result are those of `ScanFolderOutcome`. The folder table carries only the final count write when the pass ran. The progress is Complete(p, n) or Failed(message) |
| ScanService.ImageScanService.IndexFiles | app/src/main/java/com/picfinder/app/utils/ImageScanService.kt:80-138 | the per-file loop leaves the pass's rows, counters and checkpoints, and the folder row holds the last checkpoint's count |
| ScanService.ImageScanService.IndexNextFile | app/src/main/java/com/picfinder/app/utils/ImageScanService.kt:80-138 | one loop turn extends the pass by the next file and keeps the folder row at the last checkpoint |
| ScanService.ImageScanService.IndexFile | app/src/main/java/com/picfinder/app/utils/ImageScanService.kt:80-138 | one iteration equals one step of the pass, including the catch |
| ScanService.ImageScanService.DeleteImages | app/src/main/java/com/picfinder/app/utils/ImageScanService.kt:421-423 | removes exactly the paths of the deleted records |
| ScanService.ImageScanService.CleanFolderImages | app/src/main/java/com/picfinder/app/utils/ImageScanService.kt:389-430 | one folder of the cleanup equals `CleanFolder` |
| ScanService.ImageScanService.CleanupDeletedImages | app/src/main/java/com/picfinder/app/utils/ImageScanService.kt:384-436 | visits every active folder exactly once, in an order with distinct paths, and the tables become `CleanFolders` of the old ones |
| ScanService.ImageScanService.DeletePaths | app/src/main/java/com/picfinder/app/utils/ImageScanService.kt:192-201 | removes exactly the stored paths that are no longer listed |
| ScanService.ImageScanService.ReindexFile | app/src/main/java/com/picfinder/app/utils/ImageScanService.kt:207-255 | one iteration of the all-folders file loop equals one step of the pass in all-folders mode |
| ScanService.ImageScanService.ReindexFiles | app/src/main/java/com/picfinder/app/utils/ImageScanService.kt:207-255 | the file loop of one folder equals the pass over its listing |
| ScanService.ImageScanService.ReconcileOneFolder | app/src/main/java/com/picfinder/app/utils/ImageScanService.kt:175-262 | the tables, counters and progress become `ReconcileFolder` of the old ones |
| ScanService.ImageScanService.ReindexFolder | app/src/main/java/com/picfinder/app/utils/ImageScanService.kt:175-262 | for a folder that is read and not skipped, the tables, counters and progress become `ReconcileFolder` of the old ones |
| ScanService.ImageScanService.ScanNextFolder | app/src/main/java/com/picfinder/app/utils/ImageScanService.kt:171-263 | one loop turn extends the folder loop by the next folder, or on an error yields the loop's final state |
| ScanService.ImageScanService.ScanActiveFolders | app/src/main/java/com/picfinder/app/utils/ImageScanService.kt:166-273 | visits every active folder exactly once, in an order with distinct paths; the state becomes `ScanFolders`, and the result is its error or Success of its totals |
| ScanService.ImageScanService.ScanAllFolders | app/src/main/java/com/picfinder/app/utils/ImageScanService.kt:157-276 | the cleanup first, then the folder loop over the active folders as they stand after it; each pass visits every active folder exactly once |
| Repository.DropBlank | app/src/main/java/com/picfinder/app/data/repository/PicFinderRepository.kt:40 | a part is kept iff it is not blank |
| Repository.SplitPartsWithoutSpaces | app/src/main/java/com/picfinder/app/data/repository/PicFinderRepository.kt:40 | no part of the split contains any of the six `\s` characters (a no-break space can remain) |
| Repository.Keywords | app/src/main/java/com/picfinder/app/data/repository/PicFinderRepository.kt:40 | every keyword is non-empty, not blank and contains none of the six `\s` characters (a no-break space can remain) |
| Repository.NonBlankQueryHasKeywords | app/src/main/java/com/picfinder/app/data/repository/PicFinderRepository.kt:35-44 | a non-blank query has at least one keyword, so the second empty branch is never taken |
| Repository.SingleWordKeyword | app/src/main/java/com/picfinder/app/data/repository/PicFinderRepository.kt:40 | a word with no `\s` character and no whitespace at either end is the query's only keyword |
| Repository.NoBreakSpaceKept | app/src/main/java/com/picfinder/app/data/repository/PicFinderRepository.kt:40 | "a", a no-break space, "b" is one keyword that keeps the no-break space |
| Repository.SplitJoinRuns | app/src/main/java/com/picfinder/app/data/repository/PicFinderRepository.kt:40 | `split(Regex("\\s+"))` of words joined by nonempty runs of `\s` characters gives back exactly those words, in order |
| Repository.DropBlankKeepsWords | app/src/main/java/com/picfinder/app/data/repository/PicFinderRepository.kt:40 | the blank filter keeps a list with no blank element unchanged, order included |
| Repository.KeywordsRoundTrip | app/src/main/java/com/picfinder/app/data/repository/PicFinderRepository.kt:40 | the keywords of any non-blank, `\s`-free words joined by any runs of `\s` characters, with no whitespace at either end of the query, are exactly those words, in order |
| Repository.LikePattern | app/src/main/java/com/picfinder/app/data/repository/PicFinderRepository.kt:56 | the pattern is the keyword between two '%' signs |
| Repository.KeywordArgs | app/src/main/java/com/picfinder/app/data/repository/PicFinderRepository.kt:53-60 | three arguments per keyword |
| Repository.KeywordArgsAt | app/src/main/java/com/picfinder/app/data/repository/PicFinderRepository.kt:56-59 | arguments 3i, 3i+1 and 3i+2 are the pattern of keyword i |
| Repository.SearchImagesWithKeywords | app/src/main/java/com/picfinder/app/data/repository/PicFinderRepository.kt:49-64 | the SELECT prefix, then one three-way clause per keyword joined by " AND ", and three copies of each pattern as arguments |
| Repository.SearchImages | app/src/main/java/com/picfinder/app/data/repository/PicFinderRepository.kt:34-47 | no store query iff the query is blank or has no keywords; otherwise the keyword query for its keywords |
| Repository.PlaceholdersMatchArgs | app/src/main/java/com/picfinder/app/data/repository/PicFinderRepository.kt:50-62 | the query text has exactly one '?' per argument |
| Repository.QueryText | app/src/main/java/com/picfinder/app/data/repository/PicFinderRepository.kt:50-55 | the SELECT prefix and n clauses joined by " AND "; characterised by `Repository.QueryTextPlaceholders` and `Repository.PlaceholdersMatchArgs` |
| Repository.QueryTextPlaceholders | app/src/main/java/com/picfinder/app/data/repository/PicFinderRepository.kt:50-55 | the text after n clauses has 3n placeholders |
| Repository.KeywordClausePlaceholders | app/src/main/java/com/picfinder/app/data/repository/PicFinderRepository.kt:55 | one clause has three placeholders |
| Repository.LikeInfix | app/src/main/java/com/picfinder/app/data/repository/PicFinderRepository.kt:55-56 | `LIKE '%k%'` as a substring test on the text between the '%' signs |
| Repository.WhereHolds | app/src/main/java/com/picfinder/app/data/repository/PicFinderRepository.kt:53-55 | every clause of the WHERE condition holds; characterised by `Repository.QueryMeaning` |
| Repository.Matches | app/src/main/java/com/picfinder/app/data/repository/PicFinderRepository.kt:53-55 | every keyword occurs in the text, file name or folder path; characterised by `Repository.QueryMeaning`, `Repository.MoreKeywordsNarrow` and `Repository.KeywordOrderIrrelevant` |
| Repository.QueryMeaning | app/src/main/java/com/picfinder/app/data/repository/PicFinderRepository.kt:53-60 | the built WHERE condition holds for a record iff every keyword occurs in its text, file name or folder path |
| Repository.Selected | app/src/main/java/com/picfinder/app/data/repository/PicFinderRepository.kt:62-63 | the keys whose rows satisfy the WHERE condition |
| Repository.Results | app/src/main/java/com/picfinder/app/data/repository/PicFinderRepository.kt:53-60 | the keys of the records matching every keyword |
| Repository.SelectedIsResults | app/src/main/java/com/picfinder/app/data/repository/PicFinderRepository.kt:49-63 | the built query selects exactly the matching records |
| Repository.SearchMeaning | app/src/main/java/com/picfinder/app/data/repository/PicFinderRepository.kt:34-64 | a blank query returns nothing; otherwise exactly the records in which every keyword occurs |
| Repository.MoreKeywordsNarrow | app/src/main/java/com/picfinder/app/data/repository/PicFinderRepository.kt:53-55 | adding a keyword never enlarges the result |
| Repository.KeywordOrderIrrelevant | app/src/main/java/com/picfinder/app/data/repository/PicFinderRepository.kt:53-55 | keywords with the same set of elements give the same result |
| Repository.PicFinderRepository.CleanupNonExistentImages | app/src/main/java/com/picfinder/app/data/repository/PicFinderRepository.kt:85-87 | keeps exactly the records whose paths are listed, unchanged |
| Preferences.SharedPreferences.GetString | app/src/main/java/com/picfinder/app/ui/settings/SettingsViewModel.kt:134 | the stored string, or the default when the key is absent |
| Preferences.SharedPreferences.GetLong | app/src/main/java/com/picfinder/app/ui/settings/SettingsViewModel.kt:143 | the stored long, or the default when the key is absent |
| Preferences.SharedPreferences.PutString | app/src/main/java/com/picfinder/app/ui/settings/SettingsViewModel.kt:55-57 | only that string key changes |
| Preferences.SharedPreferences.PutLong | app/src/main/java/com/picfinder/app/ui/settings/SettingsViewModel.kt:149-151 | only that long key changes |
| FoldersScreen.StripTrailingSlashes | app/src/main/java/com/picfinder/app/ui/folders/FoldersViewModel.kt:64 | drops exactly the trailing '/' characters, which is all of `java.io.File`'s normalisation that can change the last segment (it also collapses repeated '/', which is not modelled) |
| FoldersScreen.FileName | app/src/main/java/com/picfinder/app/ui/folders/FoldersViewModel.kt:64 | the file name contains no '/' |
| FoldersScreen.FileNameOfSegment | app/src/main/java/com/picfinder/app/ui/folders/FoldersViewModel.kt:64 | the name of `parent/name` with any trailing slashes is `name` |
| FoldersScreen.ContentDisplayName | app/src/main/java/com/picfinder/app/ui/folders/FoldersViewModel.kt:50-56 | the display name of a picked tree; characterised by `FoldersScreen.ContentDisplayNameChoice` |
| FoldersScreen.DisplayName | app/src/main/java/com/picfinder/app/ui/folders/FoldersViewModel.kt:48-65 | a tree's name or a direct path's file name; characterised by `FoldersScreen.ContentDisplayNameChoice` and `FoldersScreen.FileName` |
| FoldersScreen.ContentDisplayNameChoice | app/src/main/java/com/picfinder/app/ui/folders/FoldersViewModel.kt:50-56 | a picked tree's name is never empty, and it is the document ID after its last '/' whenever that part is non-empty; otherwise it is "Selected Folder" |
| FoldersScreen.AddFolderDecision | app/src/main/java/com/picfinder/app/ui/folders/FoldersViewModel.kt:48-86 | what `addFolder` decides before writing; characterised by `FoldersScreen.AddFolderDecisionCases` |
| FoldersScreen.AddFolderDecisionCases | app/src/main/java/com/picfinder/app/ui/folders/FoldersViewModel.kt:48-86 | an invalid direct path is rejected first, then an active duplicate; otherwise a fresh active row with no scan date and no images is inserted |
| FoldersScreen.RemovedFolderCanBeReadded | app/src/main/java/com/picfinder/app/ui/folders/FoldersViewModel.kt:68-77 | after removal the duplicate check no longer rejects the folder |
| FoldersScreen.ProgressFor | app/src/main/java/com/picfinder/app/ui/folders/FoldersViewModel.kt:106-120 | the progress a scan result publishes; characterised by `FoldersScreen.ScanReportFaithful` |
| FoldersScreen.EventFor | app/src/main/java/com/picfinder/app/ui/folders/FoldersViewModel.kt:106-121 | the event a scan result emits; characterised by `FoldersScreen.ScanReportFaithful` |
| FoldersScreen.ScanReportFaithful | app/src/main/java/com/picfinder/app/ui/folders/FoldersViewModel.kt:106-121 | Success maps to Complete and a message, and Error maps to Error and ShowError with the service's message |
| FoldersScreen.FoldersViewModel.constructor | app/src/main/java/com/picfinder/app/ui/folders/FoldersViewModel.kt:25-29 | the progress starts Idle and no event has been emitted |
| FoldersScreen.FoldersViewModel.AddFolder | app/src/main/java/com/picfinder/app/ui/folders/FoldersViewModel.kt:44-98 | a rejection only emits its error. Otherwise the row is inserted, replacing an inactive one, the success message is emitted, and then the scan runs against the table that already holds the row. A rejection leaves both progress values as they were; after an insert the view model's and the service's progress follow the scan's result |
| FoldersScreen.FoldersViewModel.DecideAdd | app/src/main/java/com/picfinder/app/ui/folders/FoldersViewModel.kt:48-72 | the checks before the first write equal `AddFolderDecision` |
| FoldersScreen.FoldersViewModel.ReplaceFolder | app/src/main/java/com/picfinder/app/ui/folders/FoldersViewModel.kt:75-88 | the folder's path maps to the fresh row and nothing else changes |
| FoldersScreen.FoldersViewModel.ScanFolder | app/src/main/java/com/picfinder/app/ui/folders/FoldersViewModel.kt:100-128 | the tables are those of the service's scan. The view model's progress, the service's progress and the event follow the result. A success records the scan time |
| FoldersScreen.FoldersViewModel.RemoveFolder | app/src/main/java/com/picfinder/app/ui/folders/FoldersViewModel.kt:130-144 | the folder row stays but is inactive, no image row of the folder remains, and nothing else changes |
| FoldersScreen.FoldersViewModel.UpdateLastScanDate | app/src/main/java/com/picfinder/app/ui/folders/FoldersViewModel.kt:146-152 | the last-scan-date preference becomes the time |
| Settings.ValueOf | app/src/main/java/com/picfinder/app/ui/settings/SettingsViewModel.kt:136 | `valueOf` succeeds exactly on the three constant names and returns the constant of that name |
| Settings.NameInjective | app/src/main/java/com/picfinder/app/ui/settings/SettingsViewModel.kt:33-35 | distinct constants have distinct names |
| Settings.StoredFrequency | app/src/main/java/com/picfinder/app/ui/settings/SettingsViewModel.kt:133-140 | the stored constant when its name is recognised, otherwise DAILY |
| Settings.StoredFrequencyRoundTrip | app/src/main/java/com/picfinder/app/ui/settings/SettingsViewModel.kt:53-57 | what setScanFrequency stores, getScanFrequency reads back |
| Settings.ToWorkFrequency | app/src/main/java/com/picfinder/app/ui/settings/SettingsViewModel.kt:59-63 | each setting maps to the scheduler constant of the same name |
| Settings.ToWorkFrequencyBijective | app/src/main/java/com/picfinder/app/ui/settings/SettingsViewModel.kt:59-63 | the mapping to scheduler constants is one-to-one and onto |
| Settings.Reset | app/src/main/java/com/picfinder/app/ui/settings/SettingsViewModel.kt:77-83 | the copy written for one folder; characterised by `Settings.ResetActive` |
| Settings.ResetActive | app/src/main/java/com/picfinder/app/ui/settings/SettingsViewModel.kt:75-84 | every active folder gets scan date 0 and count 0, with its other fields kept; inactive folders are untouched |
| Settings.ClearIdempotent | app/src/main/java/com/picfinder/app/ui/settings/SettingsViewModel.kt:75-84 | clearing the folder table a second time changes nothing |
| Settings.ScanMessage | app/src/main/java/com/picfinder/app/ui/settings/SettingsViewModel.kt:101-111 | the event a manual scan's result emits; stated by `Settings.SettingsViewModel.ReportScan` |
| Settings.SettingsViewModel.constructor | app/src/main/java/com/picfinder/app/ui/settings/SettingsViewModel.kt:19-51 | the frequency is the stored one, the last scan date is the stored one or 0, the statistics are loaded, no scan runs and no event has been emitted |
| Settings.SettingsViewModel.SetScanFrequency | app/src/main/java/com/picfinder/app/ui/settings/SettingsViewModel.kt:53-66 | stores the constant's name, hands the same-named constant to the scheduler, and reads back as the same constant |
| Settings.SettingsViewModel.GetScanFrequency | app/src/main/java/com/picfinder/app/ui/settings/SettingsViewModel.kt:133-140 | returns `StoredFrequency` of the preferences |
| Settings.SettingsViewModel.LoadDatabaseStats | app/src/main/java/com/picfinder/app/ui/settings/SettingsViewModel.kt:121-131 | the total count first, then the with-text count, which never exceeds it |
| Settings.SettingsViewModel.ClearDatabase | app/src/main/java/com/picfinder/app/ui/settings/SettingsViewModel.kt:68-93 | the images table is empty, the folders become `ResetActive` of the old ones, every active folder's count equals its number of image rows, the stats are zero, and both events are emitted in order |
| Settings.SettingsViewModel.ResetFolders | app/src/main/java/com/picfinder/app/ui/settings/SettingsViewModel.kt:75-84 | the folder loop leaves `ResetActive` of the old table |
| Settings.SettingsViewModel.UpdateLastScanDate | app/src/main/java/com/picfinder/app/ui/settings/SettingsViewModel.kt:146-152 | the preference and the published date become the time |
| Settings.SettingsViewModel.PerformManualScan | app/src/main/java/com/picfinder/app/ui/settings/SettingsViewModel.kt:95-119 | the busy flag is set true and then false, whatever the result. The tables are those of the all-folders scan, which visits each active folder once per pass. A success records the time and reloads the stats. The event follows the result |
| Settings.SettingsViewModel.ReportScan | app/src/main/java/com/picfinder/app/ui/settings/SettingsViewModel.kt:101-112 | a success records the date and reloads the statistics; an error changes neither; the event carries the result's message |
| FolderPicker.FolderPathFromDocId | app/src/main/java/com/picfinder/app/ui/folders/FoldersFragment.kt:219-252 | the storage path of a tree document ID, or none; characterised by the `FolderPicker` lemmas below |
| FolderPicker.Split | app/src/main/java/com/picfinder/app/ui/folders/FoldersFragment.kt:237 | `split(":")` yields at least one field, none containing ':' |
| FolderPicker.SplitJoin | app/src/main/java/com/picfinder/app/ui/folders/FoldersFragment.kt:237 | joining the fields with ':' gives back the ID |
| FolderPicker.SplitFirstFields | app/src/main/java/com/picfinder/app/ui/folders/FoldersFragment.kt:237-240 | there are two fields iff ':' occurs; the first two are the text around its first occurrence |
| FolderPicker.PrimaryRootPath | app/src/main/java/com/picfinder/app/ui/folders/FoldersFragment.kt:223-227 | "primary:" maps to "/storage/emulated/0" |
| FolderPicker.PrimaryFolderPath | app/src/main/java/com/picfinder/app/ui/folders/FoldersFragment.kt:223-229 | "primary:X" with X non-empty maps to "/storage/emulated/0/X" |
| FolderPicker.RawPath | app/src/main/java/com/picfinder/app/ui/folders/FoldersFragment.kt:231-234 | "raw:X" maps to X |
| FolderPicker.OtherVolumePath | app/src/main/java/com/picfinder/app/ui/folders/FoldersFragment.kt:235-244 | any other "V:R..." ID maps to "/storage/V/R", and text after a second ':' is dropped |
| FolderPicker.NoColonNoPath | app/src/main/java/com/picfinder/app/ui/folders/FoldersFragment.kt:245-247 | an ID with no ':' maps to no path |
| FolderPicker.InnerPrimaryUnreachable | app/src/main/java/com/picfinder/app/ui/folders/FoldersFragment.kt:241-243 | the inner "primary" branch is never taken, because such IDs start with "primary:" |

## Left out

- Text recognition (ML Kit, bitmap decoding, the recogniser callbacks) is an abstract total function from an address to a string, with "" standing for failure.
- Android `File`, `DocumentFile`, `DocumentsContract` and `Uri` are replaced by an abstract tree of entries per folder address plus the set of addresses whose existence check succeeds. Real I/O and symbolic links are not modelled.
- In the cleanup, a document lookup that throws counts as "file gone", which is the same as a failed existence check; the two are not distinguished.
- Coroutines, dispatchers and `StateFlow`/`SharedFlow` publication are not modelled. Each published flow is its last value, and emitted events are an append-only sequence.
- Calls are taken to run one after another. In the app, `addFolder` launches the folder scan in a new coroutine; the model runs that scan at once, after the insert.
- The reactive re-query path (`searchImagesRaw` with Room's observed entities, and the search screen's debounce) is not modelled. A search is the set of keys its query selects.
- Repository.LikeInfix: SQLite `LIKE` is modelled as plain substring search. It folds ASCII case, and a '%' or '_' typed by the user acts as a wildcard, because the keyword is not escaped; neither is captured.
- Timestamps from the clock are one opaque `now` input per call, so every timestamp taken within one call is equal.
- Store exceptions are modelled at four throw sites of `ImageScanService` only: an upsert, an interim count write, a folder's image read in a scan, and a folder's image read in the cleanup. The model takes these store calls never to throw:
  - In `scanFolder`, the final count and scan-info write (ImageScanService.kt:141-142). A throw there gives Error("Error scanning folder: …"), keeps the upserts and skips the final write. In the model, a pass that runs always ends with that write.
  - In `scanAllFolders`, `getAllFolders` (ImageScanService.kt:166), `deleteImage` (:197) and the final count and scan-info write (:258-259).
  - In `cleanupDeletedImages`, `getAllFolders`, `deleteImage` and `updateFolderScanInfo`. Their throws are swallowed at ImageScanService.kt:432-434 and would end the cleanup early.
- The view models' own catch blocks are not modelled: "Error adding folder", "Scan error", "Error removing folder" and "Error clearing database".
- Reconcile.ScanFoldersError: the only fault this "iff" covers is a folder's throwing image read. In the app, a throwing `getAllFolders`, `deleteImage` or final scan-info write (ImageScanService.kt:166, 197 and 258-259) also ends the scan in Error, and the model cannot express that.
- Text.ToLower: lower-cases ASCII capitals only, while Kotlin's `lowercase()` covers all of Unicode and can lengthen a string ('İ' becomes "i̇"). For the extension test this is exact: a non-ASCII character either lower-cases to a non-ASCII one, or to 'k' (the Kelvin sign), or to "i̇". None of them is in jpg, jpeg, png, bmp or webp.
- The single-string `ImageDao.searchImages` is never called and is not modelled.
- WorkManager scheduling, permission checks, logging, toasts, fragments, adapters, navigation and database file placement are not modelled. `setScanFrequency` records the scheduler constant it hands over, and nothing more.
- Settings.SettingsViewModel.PerformManualScan: the scan service's own catch turns every store exception into `Error`, so the outer "Scan error" path only matters for exceptions the model does not have.
- Integer widths: counts are unbounded integers. The Kotlin `Int` counters and `Long` timestamps never come near overflow for folder-sized listings, so no wrap-around is modelled.
