/**
 * The two persisted record kinds of the index store and the file descriptor the
 * enumerator produces. Timestamps and sizes are plain integers (epoch milliseconds, bytes).
 */
module Entities {

  /** A row of the `images` table; `filePath` is its primary key. */
  datatype ImageEntity = ImageEntity(
    filePath: string,
    fileName: string,
    folderPath: string,
    extractedText: string,
    lastModified: int,
    fileSize: int,
    scanDate: int)

  /** A row of the `folders` table; `folderPath` is its primary key. */
  datatype FolderEntity = FolderEntity(
    folderPath: string,
    displayName: string,
    lastScanDate: int,
    imageCount: int,
    isActive: bool)

  /** What the enumerator reports for one image file. */
  datatype ImageFileInfo = ImageFileInfo(name: string, path: string, lastModified: int, size: int)

  /** Outcome of a scan call. */
  datatype ScanResult = Success(processedCount: int, newImagesCount: int) | Error(message: string)

  /** The last value published on the scan service's progress state. */
  datatype ScanProgress =
    | Idle
    | Scanning(currentFile: string, processed: int, total: int)
    | Complete(processedCount: int, newImagesCount: int)
    | Failed(message: string)

  /** Tree handles from the system folder picker are recognised by this prefix. */
  const ContentScheme: string := "content://"
}
