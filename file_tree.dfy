/**
 * The filesystem enumerator (`getAllImageFiles`, `getAllImageFilesFromUri`) over an abstract
 * directory tree. Directory handles and plain paths are both walked the same way: children in
 * listing order, entering a subdirectory only while the depth is below 10.
 */
module FileTree {
  import opened Wrappers
  import opened Entities
  import opened Ocr

  /**
   * One child of a directory. `name` is None only for a document whose name the provider does
   * not report. `Special` stands for anything that is neither a regular file nor a directory, and
   * for an entry whose inspection throws: both are skipped.
   */
  datatype Entry =
    | File(name: Option<string>, path: string, lastModified: int, size: int)
    | Dir(listable: bool, children: seq<Entry>)
    | Special

  /** What a folder address resolves to. `listable` is false when listing its children fails. */
  datatype Root =
    | Missing
    | NotDirectory
    | Unreadable
    | Directory(listable: bool, children: seq<Entry>)

  /**
   * The filesystem as the core sees it: the folder trees by address, and the file addresses
   * whose existence check (`File.exists`, or a document lookup that does not throw) succeeds.
   */
  datatype FileSystem = FileSystem(roots: map<string, Root>, present: set<string>)

  function RootOf(fs: FileSystem, folderPath: string): Root
  {
    if folderPath in fs.roots then fs.roots[folderPath] else Missing
  }

  const MaxDepth: nat := 10

  /** The descriptors a walk of `es` at `depth` appends, left to right. */
  function Walk(es: seq<Entry>, depth: nat): seq<ImageFileInfo>
    decreases es
  {
    if es == [] then [] else Walk(es[..|es| - 1], depth) + WalkEntry(es[|es| - 1], depth)
  }

  function WalkEntry(e: Entry, depth: nat): seq<ImageFileInfo>
    decreases e
  {
    match e
    case Dir(true, cs) => if depth < MaxDepth then Walk(cs, depth + 1) else []
    case File(Some(n), p, lm, sz) => if IsImageFile(n) then [ImageFileInfo(n, p, lm, sz)] else []
    case _ => []
  }

  /** The listing of a folder: its walk when it can be listed, otherwise nothing. */
  function Listing(root: Root): seq<ImageFileInfo>
  {
    match root
    case Directory(true, cs) => Walk(cs, 0)
    case _ => []
  }

  /** The entry reached by following child indices from `es`, entering only listable directories. */
  function At(es: seq<Entry>, route: seq<nat>): Option<Entry>
    decreases es, |route|
  {
    if route == [] || route[0] >= |es| then None
    else if |route| == 1 then Some(es[route[0]])
    else match es[route[0]]
      case Dir(true, cs) => At(cs, route[1..])
      case _ => None
  }

  /** A route of `len` steps from depth `depth` enters directories only at depths below 10. */
  predicate DepthOk(depth: nat, len: nat)
  {
    len <= 1 || depth + len - 2 < MaxDepth
  }

  /**
   * `f` is a supported image file reachable from `es` by a route short enough that no directory
   * on it is entered at depth 10 or more.
   */
  ghost predicate Reachable(es: seq<Entry>, depth: nat, f: ImageFileInfo)
  {
    IsImageFile(f.name) &&
    exists route :: 1 <= |route| && DepthOk(depth, |route|) &&
      At(es, route) == Some(EntryOf(f))
  }

  lemma {:induction false} WalkConcat(a: seq<Entry>, b: seq<Entry>, depth: nat)
    ensures Walk(a + b, depth) == Walk(a, depth) + Walk(b, depth)
    decreases |b|
  {
    if b == [] {
      assert a + b == a;
    } else {
      assert (a + b)[..|a + b| - 1] == a + b[..|b| - 1];
      WalkConcat(a, b[..|b| - 1], depth);
    }
  }

  /** A directory that cannot be listed, or an entry that is skipped, costs its siblings nothing. */
  lemma SkippedEntryHarmless(a: seq<Entry>, e: Entry, b: seq<Entry>, depth: nat)
    requires e.Special? || (e.Dir? && !e.listable) || (e.File? && e.name.None?)
    ensures Walk(a + [e] + b, depth) == Walk(a, depth) + Walk(b, depth)
  {
    var ae := a + [e];
    assert ae[..|ae| - 1] == a && ae[|ae| - 1] == e;
    assert WalkEntry(e, depth) == [];
    assert Walk(ae, depth) == Walk(a, depth);
    WalkConcat(ae, b, depth);
  }

  lemma AtShift(e: Entry, es: seq<Entry>, i: nat, rest: seq<nat>)
    ensures At([e] + es, [i + 1] + rest) == At(es, [i] + rest)
  {
    if i < |es| {
      assert ([e] + es)[i + 1] == es[i];
    }
  }

  lemma AtPrefix(es: seq<Entry>, n: nat, route: seq<nat>)
    requires n <= |es| && route != [] && route[0] < n
    ensures At(es[..n], route) == At(es, route)
  {
    assert es[..n][route[0]] == es[route[0]];
  }

  lemma AtLast(es: seq<Entry>, route: seq<nat>)
    requires es != [] && route != [] && route[0] == |es| - 1
    ensures At(es, route) == At([es[|es| - 1]], [0] + route[1..])
  {
    assert [0] + route[1..] == [0] + route[1..];
  }

  /** The entry a descriptor is read from. */
  function EntryOf(f: ImageFileInfo): Entry
  {
    File(Some(f.name), f.path, f.lastModified, f.size)
  }

  /** Soundness of the walk: whatever it lists is a reachable supported image file. */
  lemma WalkSound(es: seq<Entry>, depth: nat, f: ImageFileInfo)
    requires f in Walk(es, depth)
    ensures Reachable(es, depth, f)
  {
    var route := WalkRoute(es, depth, f);
    assert At(es, route) == Some(EntryOf(f));
  }

  /** The route by which the walk found a listed descriptor. */
  lemma {:induction false} WalkRoute(es: seq<Entry>, depth: nat, f: ImageFileInfo) returns (route: seq<nat>)
    requires f in Walk(es, depth)
    ensures IsImageFile(f.name)
    ensures 1 <= |route| && DepthOk(depth, |route|) && At(es, route) == Some(EntryOf(f))
    decreases es
  {
    var init, last := es[..|es| - 1], es[|es| - 1];
    assert Walk(es, depth) == Walk(init, depth) + WalkEntry(last, depth);
    if f in Walk(init, depth) {
      route := WalkRoute(init, depth, f);
      AtPrefix(es, |es| - 1, route);
    } else {
      var r := EntrySound(last, depth, f);
      route := [|es| - 1] + r[1..];
      assert [0] + route[1..] == r;
      AtLast(es, route);
    }
  }

  /** The route into a single entry; its first index is always 0. */
  lemma {:induction false} EntrySound(e: Entry, depth: nat, f: ImageFileInfo) returns (route: seq<nat>)
    requires f in WalkEntry(e, depth)
    ensures IsImageFile(f.name)
    ensures 1 <= |route| && route[0] == 0 && DepthOk(depth, |route|)
    ensures At([e], route) == Some(EntryOf(f))
    decreases e
  {
    match e
    case File(Some(n), p, lm, sz) =>
      route := [0];
    case Dir(true, cs) =>
      var r := WalkRoute(cs, depth + 1, f);
      route := [0] + r;
      assert route[1..] == r;
  }

  /** Completeness of the walk: every reachable supported image file is listed. */
  lemma {:induction false} WalkComplete(es: seq<Entry>, depth: nat, f: ImageFileInfo, route: seq<nat>)
    requires IsImageFile(f.name)
    requires 1 <= |route| && DepthOk(depth, |route|)
    requires At(es, route) == Some(EntryOf(f))
    ensures f in Walk(es, depth)
    decreases es
  {
    var init, last := es[..|es| - 1], es[|es| - 1];
    if route[0] < |es| - 1 {
      AtPrefix(es, |es| - 1, route);
      WalkComplete(init, depth, f, route);
    } else {
      if |route| == 1 {
        assert last == EntryOf(f);
      } else {
        assert last.Dir? && last.listable;
        WalkComplete(last.children, depth + 1, f, route[1..]);
      }
      assert f in WalkEntry(last, depth);
    }
  }

  /**
   * A file is listed iff it is a supported image file reachable through listable directories
   * with no directory entered at depth 10 or more.
   */
  lemma WalkListsExactlyReachable(es: seq<Entry>, depth: nat, f: ImageFileInfo)
    ensures f in Walk(es, depth) <==> Reachable(es, depth, f)
  {
    if f in Walk(es, depth) {
      WalkSound(es, depth, f);
    }
    if Reachable(es, depth, f) {
      var route :| 1 <= |route| && DepthOk(depth, |route|) &&
        At(es, route) == Some(EntryOf(f));
      WalkComplete(es, depth, f, route);
    }
  }

  /**
   * The recursive `scanDirectory`: appends the image files of `children` (entered at `depth`)
   * to the list built so far.
   */
  method ScanDirectory(children: seq<Entry>, depth: nat, imageFiles: seq<ImageFileInfo>) returns (result: seq<ImageFileInfo>)
    ensures result == imageFiles + Walk(children, depth)
    decreases children
  {
    result := imageFiles;
    for i := 0 to |children|
      invariant result == imageFiles + Walk(children[..i], depth)
    {
      assert children[..i + 1][..i] == children[..i];
      match children[i]
      case Dir(true, cs) =>
        if depth < MaxDepth {
          result := ScanDirectory(cs, depth + 1, result);
        }
      case File(Some(n), p, lm, sz) =>
        if IsImageFile(n) {
          result := result + [ImageFileInfo(n, p, lm, sz)];
        }
      case _ =>
    }
    assert children[..|children|] == children;
  }

  /** `getAllImageFiles`: a directory that cannot be listed contributes nothing. */
  method GetAllImageFiles(root: Root) returns (imageFiles: seq<ImageFileInfo>)
    ensures imageFiles == Listing(root)
    ensures forall f :: f in imageFiles <==> root.Directory? && root.listable && Reachable(root.children, 0, f)
  {
    imageFiles := [];
    if root.Directory? && root.listable {
      imageFiles := ScanDirectory(root.children, 0, imageFiles);
      forall f ensures f in imageFiles <==> Reachable(root.children, 0, f) {
        WalkListsExactlyReachable(root.children, 0, f);
      }
    }
  }

  /**
   * `getAllImageFilesFromUri`: a tree handle that does not resolve to an existing directory,
   * or whose listing throws, yields the empty list rather than an error.
   */
  method GetAllImageFilesFromUri(root: Root) returns (imageFiles: seq<ImageFileInfo>)
    ensures imageFiles == Listing(root)
    ensures !(root.Directory? && root.listable) ==> imageFiles == []
  {
    if !root.Directory? {
      return [];
    }
    imageFiles := [];
    if root.listable {
      imageFiles := ScanDirectory(root.children, 0, imageFiles);
    }
  }
}
