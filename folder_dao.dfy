/**
 * The `folders` table (`FolderDao`): a map from `folderPath` to the row. Folders are
 * soft-deleted by clearing `isActive`; scan bookkeeping touches only two columns.
 */
module FolderStore {
  import opened Wrappers
  import opened Entities
  import opened Tables

  type FolderRows = map<string, FolderEntity>

  ghost predicate KeyedByPath(rows: FolderRows)
  {
    forall k :: k in rows ==> rows[k].folderPath == k
  }

  /**
   * `UPDATE folders SET lastScanDate = :scanDate, imageCount = :imageCount WHERE folderPath = :folderPath`:
   * only those two columns of that one row change, and nothing happens when the row is absent.
   */
  function ScanInfoUpdated(rows: FolderRows, folderPath: string, scanDate: int, imageCount: int): (r: FolderRows)
    ensures r.Keys == rows.Keys
    ensures forall k :: k in rows && k != folderPath ==> r[k] == rows[k]
    ensures folderPath in rows ==>
      r[folderPath] == FolderEntity(folderPath := rows[folderPath].folderPath,
                                    displayName := rows[folderPath].displayName,
                                    lastScanDate := scanDate, imageCount := imageCount,
                                    isActive := rows[folderPath].isActive)
  {
    if folderPath in rows then rows[folderPath := rows[folderPath].(lastScanDate := scanDate, imageCount := imageCount)]
    else rows
  }

  /** `UPDATE folders SET isActive = 0 WHERE folderPath = :folderPath`. */
  function Deactivated(rows: FolderRows, folderPath: string): (r: FolderRows)
    ensures r.Keys == rows.Keys
    ensures forall k :: k in rows && k != folderPath ==> r[k] == rows[k]
    ensures folderPath in rows ==>
      !r[folderPath].isActive && r[folderPath] == rows[folderPath].(isActive := false)
  {
    if folderPath in rows then rows[folderPath := rows[folderPath].(isActive := false)] else rows
  }

  /** Two scan-info writes to the same row: the second one is all that remains. */
  lemma ScanInfoLastWriteWins(rows: FolderRows, folderPath: string, d1: int, c1: int, d2: int, c2: int)
    ensures ScanInfoUpdated(ScanInfoUpdated(rows, folderPath, d1, c1), folderPath, d2, c2)
         == ScanInfoUpdated(rows, folderPath, d2, c2)
  {
  }

  class FolderDao {
    var rows: FolderRows

    ghost predicate Valid()
      reads this
    {
      KeyedByPath(rows)
    }

    constructor ()
      ensures Valid() && rows == map[]
    {
      rows := map[];
    }

    /** `SELECT * FROM folders WHERE isActive = 1`, each row once. */
    method GetActiveFolders() returns (r: seq<FolderEntity>)
      requires Valid()
      ensures forall f :: f in r <==> f in rows.Values && f.isActive
      ensures forall a, b :: 0 <= a < b < |r| ==> r[a].folderPath != r[b].folderPath
    {
      ghost var keys;
      r, keys := SelectRows(rows, (f: FolderEntity) => f.isActive);
      forall f | f in rows.Values && f.isActive
        ensures f in r
      {
        var k :| k in rows && rows[k] == f;
        var i :| 0 <= i < |keys| && keys[i] == k;
      }
    }

    /** `SELECT * FROM folders`, each row once. */
    method GetAllFolders() returns (r: seq<FolderEntity>)
      requires Valid()
      ensures forall i :: 0 <= i < |r| ==> r[i].folderPath in rows && rows[r[i].folderPath] == r[i]
      ensures forall k :: k in rows ==> rows[k] in r
      ensures forall a, b :: 0 <= a < b < |r| ==> r[a].folderPath != r[b].folderPath
    {
      ghost var keys;
      r, keys := SelectRows(rows, (f: FolderEntity) => true);
      forall k | k in rows
        ensures rows[k] in r
      {
        var i :| 0 <= i < |keys| && keys[i] == k;
      }
    }

    /** `SELECT * FROM folders WHERE folderPath = :folderPath`: the row, or null. */
    method GetFolderByPath(folderPath: string) returns (r: Option<FolderEntity>)
      requires Valid()
      ensures r.Some? <==> folderPath in rows
      ensures r.Some? ==> r.value == rows[folderPath] && r.value.folderPath == folderPath
    {
      r := if folderPath in rows then Some(rows[folderPath]) else None;
    }

    /** Insert with `REPLACE`: the row at `folder.folderPath` becomes `folder`; other rows stay. */
    method InsertFolder(folder: FolderEntity)
      requires Valid()
      modifies this
      ensures Valid()
      ensures rows == old(rows)[folder.folderPath := folder]
    {
      rows := rows[folder.folderPath := folder];
    }

    /** `@Update` rewrites an existing row by key and never inserts one. */
    method UpdateFolder(folder: FolderEntity)
      requires Valid()
      modifies this
      ensures Valid()
      ensures rows.Keys == old(rows).Keys
      ensures rows == if folder.folderPath in old(rows) then old(rows)[folder.folderPath := folder] else old(rows)
    {
      if folder.folderPath in rows {
        rows := rows[folder.folderPath := folder];
      }
    }

    /** `@Delete` matches on the primary key only. */
    method DeleteFolder(folder: FolderEntity)
      requires Valid()
      modifies this
      ensures Valid()
      ensures rows == old(rows) - {folder.folderPath}
    {
      rows := rows - {folder.folderPath};
    }

    method DeactivateFolder(folderPath: string)
      requires Valid()
      modifies this
      ensures Valid()
      ensures rows == Deactivated(old(rows), folderPath)
    {
      rows := Deactivated(rows, folderPath);
    }

    method UpdateFolderScanInfo(folderPath: string, scanDate: int, imageCount: int)
      requires Valid()
      modifies this
      ensures Valid()
      ensures rows == ScanInfoUpdated(old(rows), folderPath, scanDate, imageCount)
    {
      rows := ScanInfoUpdated(rows, folderPath, scanDate, imageCount);
    }
  }
}
