/**
 * `hasAnySuffix`: the file-name filter that picks image files out of a
 * directory listing.
 */
module Suffix {
  /** `strings.HasSuffix`: `s` ends with `suffix`; every string ends with the empty one. */
  predicate HasSuffix(s: string, suffix: string) {
    |suffix| <= |s| && s[|s| - |suffix|..] == suffix
  }

  /** The extensions the directory walk accepts as images, checked as written (case matters). */
  const ImageSuffixes: seq<string> := [".jpg", ".jpeg", ".png", ".gif"]

  /** `hasAnySuffix`: the suffixes are tried in order and the first match answers true. */
  method HasAnySuffix(s: string, suffixes: seq<string>) returns (b: bool)
    ensures b <==> exists j :: 0 <= j < |suffixes| && HasSuffix(s, suffixes[j])
  {
    var i := 0;
    while i < |suffixes|
      invariant 0 <= i <= |suffixes|
      invariant forall j :: 0 <= j < i ==> !HasSuffix(s, suffixes[j])
    {
      if HasSuffix(s, suffixes[i]) {
        return true;
      }
      i := i + 1;
    }
    return false;
  }

  /** A name ends with `s` exactly when it is some string followed by `s`. */
  lemma HasSuffixIsConcat(s: string, suffix: string)
    ensures HasSuffix(s, suffix) <==> exists p :: s == p + suffix
  {
    if HasSuffix(s, suffix) {
      assert s == s[..|s| - |suffix|] + suffix;
    }
    if exists p :: s == p + suffix {
      var p :| s == p + suffix;
      assert s[|s| - |suffix|..] == suffix;
    }
  }

  /** The image extensions: names ending in them are taken, case-sensitively, and nothing else is. */
  lemma ImageNames()
    ensures HasSuffix("cat.jpeg", ".jpeg") && HasSuffix("a.png", ".png")
    ensures !HasSuffix("cat.JPG", ".jpg") && !HasSuffix("notes.txt", ImageSuffixes[0])
    ensures forall j :: 0 <= j < |ImageSuffixes| ==> !HasSuffix("jpg", ImageSuffixes[j])
  {
    assert "cat.jpeg"[3..] == ".jpeg";
    assert "a.png"[1..] == ".png";
    assert "cat.JPG"[3..][1] == 'J';
    assert "notes.txt"[5..][1] == 't';
    forall j | 0 <= j < |ImageSuffixes|
      ensures |ImageSuffixes[j]| > |"jpg"|
    {
    }
  }
}
