/**
 * The folder picker's translation of a document tree ID (`volume:relative/path`) into a
 * direct storage path, the form the scanner can open with `java.io.File`.
 */
module FolderPicker {
  import opened Wrappers
  import opened Text

  const PrimaryPrefix: string := "primary:"
  const RawPrefix: string := "raw:"
  const PrimaryStorage: string := "/storage/emulated/0"
  const StorageRoot: string := "/storage/"

  /** Index of the first occurrence of `c` in `s`, if any. */
  function FirstIndexOf(s: string, c: char): (r: Option<nat>)
    ensures r.Some? ==> r.value < |s| && s[r.value] == c && c !in s[..r.value]
    ensures r.None? ==> c !in s
  {
    if s == [] then None
    else if s[0] == c then Some(0)
    else match FirstIndexOf(s[1..], c)
      case None => None
      case Some(i) =>
        assert s[..i + 1] == [s[0]] + s[1..][..i];
        Some(i + 1)
  }

  /** Kotlin's `split(delimiter)`: the fields between the delimiters, empty ones included. */
  function Split(s: string, delimiter: char): (parts: seq<string>)
    ensures |parts| >= 1
    ensures forall i :: 0 <= i < |parts| ==> delimiter !in parts[i]
    decreases |s|
  {
    match FirstIndexOf(s, delimiter)
    case None => [s]
    case Some(i) => [s[..i]] + Split(s[i + 1..], delimiter)
  }

  function Join(parts: seq<string>, delimiter: char): string
    requires |parts| >= 1
  {
    if |parts| == 1 then parts[0] else parts[0] + [delimiter] + Join(parts[1..], delimiter)
  }

  /** Splitting loses nothing: joining the fields with the delimiter gives back the text. */
  lemma {:induction false} SplitJoin(s: string, delimiter: char)
    ensures Join(Split(s, delimiter), delimiter) == s
    decreases |s|
  {
    var first := FirstIndexOf(s, delimiter);
    if first.Some? {
      var i := first.value;
      var tailParts := Split(s[i + 1..], delimiter);
      var parts := Split(s, delimiter);
      assert parts == [s[..i]] + tailParts;
      assert parts[1..] == tailParts;
      SplitJoin(s[i + 1..], delimiter);
      assert Join(parts, delimiter) == s[..i] + [delimiter] + Join(tailParts, delimiter);
      assert s == s[..i] + [delimiter] + s[i + 1..];
    }
  }

  /** There are at least two fields exactly when the delimiter occurs; the first two are the text around its first occurrence. */
  lemma SplitFirstFields(s: string, delimiter: char)
    ensures |Split(s, delimiter)| >= 2 <==> delimiter in s
    ensures delimiter in s ==>
      var i := FirstIndexOf(s, delimiter).value;
      && Split(s, delimiter)[0] == s[..i]
      && Split(s, delimiter)[1] == Split(s[i + 1..], delimiter)[0]
  {
  }

  /**
   * `getFolderPathFromUri`: a primary-volume ID maps under the emulated storage root, a raw ID
   * is already a path, any other `volume:path` ID maps under `/storage/volume`, and an ID with
   * no ':' (or no tree ID at all, `docId` None) gives no path.
   */
  function FolderPathFromDocId(docId: Option<string>): (r: Option<string>)
  {
    match docId
    case None => None
    case Some(id) =>
      if StartsWith(id, PrimaryPrefix) then
        var path := id[|PrimaryPrefix|..];
        Some(if path == "" then PrimaryStorage else PrimaryStorage + "/" + path)
      else if StartsWith(id, RawPrefix) then
        Some(id[|RawPrefix|..])
      else
        var parts := Split(id, ':');
        if |parts| >= 2 then
          var storageId := parts[0];
          var relativePath := parts[1];
          if storageId == "primary" then Some(PrimaryStorage + "/" + relativePath)
          else Some(StorageRoot + storageId + "/" + relativePath)
        else None
  }

  /** The primary volume's root. */
  lemma PrimaryRootPath()
    ensures FolderPathFromDocId(Some(PrimaryPrefix)) == Some(PrimaryStorage)
  {
    assert PrimaryPrefix[|PrimaryPrefix|..] == "";
  }

  /** A folder on the primary volume, nested paths included. */
  lemma PrimaryFolderPath(path: string)
    requires path != ""
    ensures FolderPathFromDocId(Some(PrimaryPrefix + path)) == Some(PrimaryStorage + "/" + path)
  {
    assert (PrimaryPrefix + path)[..|PrimaryPrefix|] == PrimaryPrefix;
    assert (PrimaryPrefix + path)[|PrimaryPrefix|..] == path;
  }

  /** A raw ID carries the path itself. */
  lemma RawPath(path: string)
    ensures FolderPathFromDocId(Some(RawPrefix + path)) == Some(path)
  {
    var id := RawPrefix + path;
    assert id[..|RawPrefix|] == RawPrefix;
    assert id[|RawPrefix|..] == path;
    assert !StartsWith(id, PrimaryPrefix) by {
      if |PrimaryPrefix| <= |id| {
        assert id[0] != PrimaryPrefix[0];
      }
    }
  }

  /**
   * Any other volume: the path is `/storage/<volume>/<first field after it>`, and whatever
   * follows a second ':' is dropped.
   */
  lemma OtherVolumePath(volume: string, relativePath: string, rest: string)
    requires ':' !in volume && ':' !in relativePath
    requires rest == "" || rest[0] == ':'
    requires volume != "primary" && volume != "raw"
    ensures FolderPathFromDocId(Some(volume + ":" + relativePath + rest)) == Some(StorageRoot + volume + "/" + relativePath)
  {
    var id := volume + ":" + relativePath + rest;
    var tail := relativePath + rest;
    assert id == volume + [':'] + tail;
    VolumePrefixMismatch(volume, tail, "primary");
    assert "primary" + [':'] == PrimaryPrefix;
    VolumePrefixMismatch(volume, tail, "raw");
    assert "raw" + [':'] == RawPrefix;
    FirstColon(volume, tail);
    assert id[|volume| + 1..] == tail;
    FirstFieldOf(relativePath, rest);
  }

  /** An ID whose volume is not `name` does not start with `name:`. */
  lemma VolumePrefixMismatch(volume: string, tail: string, name: string)
    requires ':' !in volume && ':' !in name && volume != name
    ensures !StartsWith(volume + [':'] + tail, name + [':'])
  {
    var s := volume + [':'] + tail;
    var p := name + [':'];
    var j: nat;
    if |volume| < |name| {
      j := |volume|;
      assert s[j] == ':' && p[j] == name[j];
    } else if |volume| > |name| {
      j := |name|;
      assert s[j] == volume[j] && p[j] == ':';
    } else {
      assert exists k :: 0 <= k < |volume| && volume[k] != name[k];
      j :| 0 <= j < |volume| && volume[j] != name[j];
      assert s[j] == volume[j] && p[j] == name[j];
    }
    assert j < |p| && j < |s| && s[j] != p[j];
    if |p| <= |s| {
      assert s[..|p|][j] != p[j];
    }
  }

  /** Split at a delimiter-free head: the first field is the head, the second starts the tail's own fields. */
  lemma FirstColon(head: string, tail: string)
    requires ':' !in head
    ensures FirstIndexOf(head + [':'] + tail, ':') == Some(|head|)
    ensures var s := head + [':'] + tail; Split(s, ':')[0] == head && Split(s, ':')[1] == Split(tail, ':')[0]
  {
    var s := head + [':'] + tail;
    var r := FirstIndexOf(s, ':');
    assert s[|head|] == ':';
    assert r.Some?;
    assert s[..|head|] == head;
    assert s[|head| + 1..] == tail;
  }

  /** The delimiter-free text before the end, or before a ':' is the tail's first field. */
  lemma FirstFieldOf(field: string, rest: string)
    requires ':' !in field
    requires rest == "" || rest[0] == ':'
    ensures Split(field + rest, ':')[0] == field
  {
    if rest == "" {
      assert field + rest == field;
    } else {
      assert field + rest == field + [':'] + rest[1..];
      FirstColon(field, rest[1..]);
    }
  }

  /** With no ':' there is no volume to map, and no path. */
  lemma NoColonNoPath(id: string)
    requires ':' !in id
    ensures FolderPathFromDocId(Some(id)) == None
  {
    if |PrimaryPrefix| <= |id| {
      assert id[..|PrimaryPrefix|][7] != PrimaryPrefix[7];
    }
    if |RawPrefix| <= |id| {
      assert id[..|RawPrefix|][3] != RawPrefix[3];
    }
  }

  /**
   * The inner "primary" branch of the general case is never taken: an ID whose first field is
   * "primary" and that has a second field already starts with "primary:".
   */
  lemma InnerPrimaryUnreachable(id: string)
    requires |Split(id, ':')| >= 2 && Split(id, ':')[0] == "primary"
    ensures StartsWith(id, PrimaryPrefix)
  {
    SplitFirstFields(id, ':');
    var i := FirstIndexOf(id, ':').value;
    assert id[..i] == "primary";
    assert id[..8] == id[..i] + [':'];
  }
}
