/** The file-name test the enumerator applies to every regular file (`OCRService.isImageFile`). */
module Ocr {
  import opened Wrappers
  import opened Text

  const SupportedExtensions: set<string> := {"jpg", "jpeg", "png", "bmp", "webp"}

  /** The text after the last '.', or "" when there is none. */
  function Extension(fileName: string): string
  {
    SubstringAfterLast(fileName, '.', "")
  }

  predicate IsImageFile(fileName: string)
  {
    ToLower(Extension(fileName)) in SupportedExtensions
  }

  /** Only the last extension decides: appending ".e" makes a name an image file iff `e` is supported. */
  lemma ExtensionAppended(n: string, e: string)
    requires '.' !in e
    ensures IsImageFile(n + "." + e) <==> ToLower(e) in SupportedExtensions
  {
    LastIndexOfAfterSplit(n, '.', e);
    assert (n + "." + e)[|n| + 1..] == e;
  }

  /**
   * A name is an image file exactly when it splits as `p + "." + e` with no '.' in `e`
   * and `e`, lower-cased, one of jpg, jpeg, png, bmp, webp.
   */
  lemma IsImageFileCharacterized(n: string)
    ensures IsImageFile(n) <==>
      exists p, e :: n == p + "." + e && '.' !in e && ToLower(e) in SupportedExtensions
  {
    if IsImageFile(n) {
      SubstringAfterLastFacts(n, '.', "");
      assert "" !in SupportedExtensions;
      assert '.' in n;
      var e := Extension(n);
      var p :| n == p + ['.'] + e;
      assert n == p + "." + e;
    }
    if exists p, e :: n == p + "." + e && '.' !in e && ToLower(e) in SupportedExtensions {
      var p, e :| n == p + "." + e && '.' !in e && ToLower(e) in SupportedExtensions;
      ExtensionAppended(p, e);
    }
  }

  /** A name without a '.' has the empty extension and is rejected. */
  lemma NoDotRejected(n: string)
    requires '.' !in n
    ensures !IsImageFile(n)
  {
    LastIndexOfFacts(n, '.');
    assert ToLower("") == "";
  }

  /** A name ending in '.' has the empty extension and is rejected. */
  lemma TrailingDotRejected(p: string)
    ensures !IsImageFile(p + ".")
  {
    ExtensionAppended(p, "");
  }

  /**
   * A name ending in `suffix`, a '.' followed by an extension whose lower-cased form is
   * `lower` (given character by character), is decided by `lower` alone.
   */
  lemma NameWithSuffix(p: string, suffix: string, lower: string)
    requires |suffix| == |lower| + 1 && suffix[0] == '.' && '.' !in suffix[1..]
    requires forall i :: 0 <= i < |lower| ==> ToLowerChar(suffix[i + 1]) == lower[i]
    ensures IsImageFile(p + suffix) <==> lower in SupportedExtensions
  {
    var e := suffix[1..];
    assert p + suffix == p + "." + e;
    ExtensionAppended(p, e);
    ToLowerChars(e);
    assert ToLower(e) == lower;
  }

  /** The test ignores case: any name ending in ".JPG" or ".PnG" is an image file. */
  lemma CaseIgnored(p: string)
    ensures IsImageFile(p + ".JPG") && IsImageFile(p + ".PnG")
  {
    NameWithSuffix(p, ".JPG", "jpg");
    NameWithSuffix(p, ".PnG", "png");
  }

  /** ".png" alone is an image file. */
  lemma BareExtensionAccepted()
    ensures IsImageFile(".png")
  {
    NameWithSuffix("", ".png", "png");
    assert "" + ".png" == ".png";
  }

  /** Only the last extension counts: a name ending in ".txt" then ".png" is accepted. */
  lemma LastExtensionAccepted(p: string)
    ensures IsImageFile(p + ".txt" + ".png")
  {
    NameWithSuffix(p + ".txt", ".png", "png");
  }

  /** Only the last extension counts: a name ending in ".jpg" then ".txt" is rejected. */
  lemma LastExtensionRejected(p: string)
    ensures !IsImageFile(p + ".jpg" + ".txt")
  {
    NameWithSuffix(p + ".jpg", ".txt", "txt");
  }
}
