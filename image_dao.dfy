/**
 * The `images` table (`ImageDao`): a map from `filePath` to the row, so there is at most
 * one row per path. Queries read the map; inserts replace, deletes remove by key.
 */
module ImageStore {
  import opened Wrappers
  import opened Entities
  import opened Tables

  type ImageRows = map<string, ImageEntity>

  /** Every row is stored under its own primary key. */
  ghost predicate KeyedByPath(rows: ImageRows)
  {
    forall k :: k in rows ==> rows[k].filePath == k
  }

  /** The rows `WHERE folderPath = f`. */
  function InFolder(rows: ImageRows, f: string): (r: ImageRows)
    ensures forall k :: k in r <==> k in rows && rows[k].folderPath == f
    ensures forall k :: k in r ==> r[k] == rows[k]
  {
    map k | k in rows && rows[k].folderPath == f :: rows[k]
  }

  /** The keys of the rows `WHERE extractedText != ''`. */
  function WithText(rows: ImageRows): (r: set<string>)
    ensures forall k :: k in r <==> k in rows && rows[k].extractedText != ""
  {
    set k | k in rows && rows[k].extractedText != ""
  }

  /** The set of `filePath`s of a list of rows. */
  function Paths(es: seq<ImageEntity>): (ps: set<string>)
  {
    if es == [] then {} else Paths(es[..|es| - 1]) + {es[|es| - 1].filePath}
  }

  lemma {:induction false} PathsMembership(es: seq<ImageEntity>, k: string)
    ensures k in Paths(es) <==> exists i :: 0 <= i < |es| && es[i].filePath == k
  {
    if es != [] {
      PathsMembership(es[..|es| - 1], k);
      if k in Paths(es[..|es| - 1]) {
        var i :| 0 <= i < |es| - 1 && es[..|es| - 1][i].filePath == k;
        assert es[i].filePath == k;
      }
      if exists i :: 0 <= i < |es| && es[i].filePath == k {
        var i :| 0 <= i < |es| && es[i].filePath == k;
        if i < |es| - 1 {
          assert es[..|es| - 1][i].filePath == k;
        }
      }
    }
  }

  /** Kotlin's `associateBy { it.filePath }`: a later element replaces an earlier one with the same path. */
  function AssociateByPath(es: seq<ImageEntity>): (m: ImageRows)
    ensures m.Keys == Paths(es)
    ensures forall k :: k in m ==> m[k].filePath == k
  {
    if es == [] then map[]
    else AssociateByPath(es[..|es| - 1])[es[|es| - 1].filePath := es[|es| - 1]]
  }

  /** The table after inserting `es` one by one with `REPLACE`. */
  function UpsertAll(rows: ImageRows, es: seq<ImageEntity>): ImageRows
  {
    if es == [] then rows else UpsertAll(rows, es[..|es| - 1])[es[|es| - 1].filePath := es[|es| - 1]]
  }

  lemma {:induction false} UpsertAllMerges(rows: ImageRows, es: seq<ImageEntity>)
    ensures UpsertAll(rows, es) == rows + AssociateByPath(es)
  {
    if es != [] {
      var init, e := es[..|es| - 1], es[|es| - 1];
      UpsertAllMerges(rows, init);
      MergeUpdate(rows, AssociateByPath(init), e.filePath, e);
    }
  }

  lemma MergeUpdate(a: ImageRows, b: ImageRows, k: string, v: ImageEntity)
    ensures (a + b)[k := v] == a + b[k := v]
  {
  }

  lemma {:induction false} AssociateByDistinct(es: seq<ImageEntity>, i: nat)
    requires i < |es|
    requires forall a, b :: 0 <= a < b < |es| ==> es[a].filePath != es[b].filePath
    ensures es[i].filePath in AssociateByPath(es) && AssociateByPath(es)[es[i].filePath] == es[i]
  {
    if i < |es| - 1 {
      AssociateByDistinct(es[..|es| - 1], i);
    }
  }

  /**
   * Turning the rows of a folder, listed once each, back into a map gives exactly the
   * folder's part of the table.
   */
  lemma AssociateFolderRows(rows: ImageRows, f: string, es: seq<ImageEntity>)
    requires KeyedByPath(rows)
    requires forall a, b :: 0 <= a < b < |es| ==> es[a].filePath != es[b].filePath
    requires forall i :: 0 <= i < |es| ==> es[i].filePath in rows && rows[es[i].filePath] == es[i] && es[i].folderPath == f
    requires forall k :: k in rows && rows[k].folderPath == f ==> exists i :: 0 <= i < |es| && es[i].filePath == k
    ensures AssociateByPath(es) == InFolder(rows, f)
  {
    AssociatedInFolder(rows, f, es);
    FolderRowsAssociated(rows, f, es);
    SameRows(AssociateByPath(es), InFolder(rows, f));
  }

  lemma SameRows(m: ImageRows, g: ImageRows)
    requires forall k :: k in m ==> k in g && m[k] == g[k]
    requires forall k :: k in g ==> k in m
    ensures m == g
  {
  }

  lemma AssociatedInFolder(rows: ImageRows, f: string, es: seq<ImageEntity>)
    requires forall a, b :: 0 <= a < b < |es| ==> es[a].filePath != es[b].filePath
    requires forall i :: 0 <= i < |es| ==> es[i].filePath in rows && rows[es[i].filePath] == es[i] && es[i].folderPath == f
    ensures forall k :: k in AssociateByPath(es) ==> k in InFolder(rows, f) && AssociateByPath(es)[k] == InFolder(rows, f)[k]
  {
    forall k | k in AssociateByPath(es)
      ensures k in InFolder(rows, f) && AssociateByPath(es)[k] == InFolder(rows, f)[k]
    {
      AssociatedRowInFolder(rows, f, es, k);
    }
  }

  lemma FolderRowsAssociated(rows: ImageRows, f: string, es: seq<ImageEntity>)
    requires forall k :: k in rows && rows[k].folderPath == f ==> exists i :: 0 <= i < |es| && es[i].filePath == k
    ensures forall k :: k in InFolder(rows, f) ==> k in AssociateByPath(es)
  {
    forall k | k in InFolder(rows, f)
      ensures k in AssociateByPath(es)
    {
      PathsMembership(es, k);
    }
  }

  lemma AssociatedRowInFolder(rows: ImageRows, f: string, es: seq<ImageEntity>, k: string)
    requires forall a, b :: 0 <= a < b < |es| ==> es[a].filePath != es[b].filePath
    requires forall i :: 0 <= i < |es| ==> es[i].filePath in rows && rows[es[i].filePath] == es[i] && es[i].folderPath == f
    requires k in AssociateByPath(es)
    ensures k in rows && rows[k].folderPath == f && AssociateByPath(es)[k] == rows[k]
  {
    PathsMembership(es, k);
    var i :| 0 <= i < |es| && es[i].filePath == k;
    AssociateByDistinct(es, i);
  }

  lemma {:induction false} SubsetCard(a: set<string>, b: set<string>)
    requires a <= b
    ensures |a| <= |b|
    decreases |a|
  {
    if a != {} {
      var x :| x in a;
      SubsetCard(a - {x}, b - {x});
    }
  }

  /** At most `|rows|` rows carry text. */
  lemma WithTextBounded(rows: ImageRows)
    ensures |WithText(rows)| <= |rows|
  {
    SubsetCard(WithText(rows), rows.Keys);
  }

  class ImageDao {
    var rows: ImageRows

    ghost predicate Valid()
      reads this
    {
      KeyedByPath(rows)
    }

    constructor ()
      ensures Valid() && rows == map[]
    {
      rows := map[];
    }

    /** `SELECT * FROM images WHERE folderPath = :folderPath`, each row once. */
    method GetImagesInFolder(folderPath: string) returns (r: seq<ImageEntity>)
      requires Valid()
      ensures forall i :: 0 <= i < |r| ==> r[i].filePath in rows && rows[r[i].filePath] == r[i] && r[i].folderPath == folderPath
      ensures forall k :: k in rows && rows[k].folderPath == folderPath ==> exists i :: 0 <= i < |r| && r[i].filePath == k
      ensures forall a, b :: 0 <= a < b < |r| ==> r[a].filePath != r[b].filePath
      ensures AssociateByPath(r) == InFolder(rows, folderPath)
    {
      ghost var keys;
      r, keys := SelectRows(rows, (e: ImageEntity) => e.folderPath == folderPath);
      forall k | k in rows && rows[k].folderPath == folderPath
        ensures exists i :: 0 <= i < |r| && r[i].filePath == k
      {
        var i :| 0 <= i < |keys| && keys[i] == k;
        assert r[i].filePath == k;
      }
      AssociateFolderRows(rows, folderPath, r);
    }

    /** `SELECT COUNT(*) FROM images WHERE folderPath = :folderPath`. */
    method GetImageCountInFolder(folderPath: string) returns (n: int)
      ensures n == |InFolder(rows, folderPath)|
    {
      n := |InFolder(rows, folderPath)|;
    }

    /** `SELECT COUNT(*) FROM images`. */
    method GetTotalImageCount() returns (n: int)
      ensures n == |rows|
    {
      n := |rows|;
    }

    /** `SELECT COUNT(*) FROM images WHERE extractedText != ''`, never more than the total. */
    method GetImagesWithTextCount() returns (n: int)
      ensures n == |WithText(rows)| && 0 <= n <= |rows|
    {
      n := |WithText(rows)|;
      WithTextBounded(rows);
    }

    /** `SELECT * FROM images WHERE filePath = :filePath`: the row, or null. */
    method GetImageByPath(filePath: string) returns (r: Option<ImageEntity>)
      requires Valid()
      ensures r.Some? <==> filePath in rows
      ensures r.Some? ==> r.value == rows[filePath] && r.value.filePath == filePath
    {
      r := if filePath in rows then Some(rows[filePath]) else None;
    }

    /** Insert with `REPLACE`: the path now maps to `image`; every other row is unchanged. */
    method InsertImage(image: ImageEntity)
      requires Valid()
      modifies this
      ensures Valid()
      ensures rows == old(rows)[image.filePath := image]
      ensures forall k :: k in old(rows) && k != image.filePath ==> k in rows && rows[k] == old(rows)[k]
    {
      rows := rows[image.filePath := image];
    }

    /** Inserts each image in turn with `REPLACE`; for a repeated path the last one stands. */
    method InsertImages(images: seq<ImageEntity>)
      requires Valid()
      modifies this
      ensures Valid()
      ensures rows == old(rows) + AssociateByPath(images)
    {
      var i := 0;
      while i < |images|
        invariant 0 <= i <= |images|
        invariant Valid()
        invariant rows == UpsertAll(old(rows), images[..i])
      {
        assert images[..i + 1][..i] == images[..i];
        InsertImage(images[i]);
        i := i + 1;
      }
      assert images[..i] == images;
      UpsertAllMerges(old(rows), images);
    }

    /** `@Delete` matches on the primary key only: the row at `image.filePath` goes, nothing else. */
    method DeleteImage(image: ImageEntity)
      requires Valid()
      modifies this
      ensures Valid()
      ensures rows == old(rows) - {image.filePath}
    {
      rows := rows - {image.filePath};
    }

    /** `DELETE FROM images WHERE folderPath = :folderPath`. */
    method DeleteImagesInFolder(folderPath: string)
      requires Valid()
      modifies this
      ensures Valid()
      ensures rows == old(rows) - InFolder(old(rows), folderPath).Keys
      ensures forall k :: k in rows <==> k in old(rows) && old(rows)[k].folderPath != folderPath
    {
      rows := rows - InFolder(rows, folderPath).Keys;
    }

    /** Keeps exactly the rows whose `filePath` is one of `existingPaths`. */
    method DeleteNonExistentImages(existingPaths: seq<string>)
      requires Valid()
      modifies this
      ensures Valid()
      ensures forall k :: k in rows <==> k in old(rows) && k in existingPaths
      ensures forall k :: k in rows ==> rows[k] == old(rows)[k]
    {
      rows := map k | k in rows && k in existingPaths :: rows[k];
    }

    /** `DELETE FROM images`. */
    method DeleteAllImages()
      requires Valid()
      modifies this
      ensures Valid() && rows == map[]
    {
      rows := map[];
    }
  }
}
