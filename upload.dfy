/**
  The avatar upload middleware: a size limit and a file-name filter. The filter tests the
  original file name against the regular expression `\.(jpg|jpeg|png)$` (no flags), then
  calls back either with an error or with `(undefined, true)`.
 */
module Upload {

  /** `limits.fileSize`, in bytes. */
  const FileSizeLimit: nat := 1024 * 1024

  const RejectMessage: string := "Please upload a image"

  /** The two ways the filter calls its callback: `cb(new Error(message))` or `cb(undefined, accept)`. */
  datatype Verdict = Rejected(message: string) | Accepted(accept: bool)

  predicate EndsWith(s: string, suffix: string) {
    |suffix| <= |s| && s[|s| - |suffix|..] == suffix
  }

  /** The three alternatives of the pattern, each with its escaped dot. */
  predicate IsImageSuffix(t: string) {
    t == ".jpg" || t == ".jpeg" || t == ".png"
  }

  /**
    The regular-expression reading of the pattern: an unanchored search succeeds when some
    position starts a match of `\.(jpg|jpeg|png)`, and `$` requires that match to end at
    the end of the name.
   */
  ghost predicate PatternMatches(name: string) {
    exists i :: 0 <= i <= |name| && IsImageSuffix(name[i..])
  }

  function FileFilter(originalName: string): (v: Verdict)
    ensures v == Accepted(true) <==> PatternMatches(originalName)
    ensures v != Accepted(true) ==> v == Rejected(RejectMessage)
  {
    var n := |originalName|;
    if EndsWith(originalName, ".jpg") || EndsWith(originalName, ".jpeg") || EndsWith(originalName, ".png") then
      assert EndsWith(originalName, ".jpg") ==> IsImageSuffix(originalName[n - 4..]);
      assert EndsWith(originalName, ".jpeg") ==> IsImageSuffix(originalName[n - 5..]);
      assert EndsWith(originalName, ".png") ==> IsImageSuffix(originalName[n - 4..]);
      Accepted(true)
    else
      assert !PatternMatches(originalName) by {
        forall i | 0 <= i <= n ensures !IsImageSuffix(originalName[i..]) {
          if IsImageSuffix(originalName[i..]) {
            assert |originalName[i..]| == n - i;
            assert EndsWith(originalName, originalName[i..]);
          }
        }
      }
      Rejected(RejectMessage)
  }

  /** The limit is one mebibyte. */
  lemma FileSizeLimitIsOneMebibyte()
    ensures FileSizeLimit == 1048576
  {
  }

  /** The match is anchored at the end: any name followed by a further extension is rejected. */
  lemma RejectsTrailingExtension(stem: string)
    ensures FileFilter(stem + ".exe") == Rejected(RejectMessage)
  {
    var name := stem + ".exe";
    var n := |name|;
    assert name[n - 4..] == ".exe";
    assert name[n - 1] == 'e';
    assert !EndsWith(name, ".jpeg") by {
      if 5 <= n { assert name[n - 5..][4] == name[n - 1]; }
    }
  }

  /** The match is case-sensitive: an upper-case extension is rejected. */
  lemma RejectsUpperCaseExtension(stem: string)
    ensures FileFilter(stem + ".PNG") == Rejected(RejectMessage)
    ensures FileFilter(stem + ".JPG") == Rejected(RejectMessage)
    ensures FileFilter(stem + ".JPEG") == Rejected(RejectMessage)
  {
    forall ext | ext in [".PNG", ".JPG", ".JPEG"]
      ensures FileFilter(stem + ext) == Rejected(RejectMessage)
    {
      var name := stem + ext;
      var n := |name|;
      assert name[n - 1] == ext[|ext| - 1];
      if 4 <= n { assert name[n - 4..][3] == name[n - 1]; }
      if 5 <= n { assert name[n - 5..][4] == name[n - 1]; }
    }
  }

  /** Any stem with one of the three extensions is accepted. */
  lemma AcceptsImageExtensions(stem: string)
    ensures FileFilter(stem + ".jpg") == Accepted(true)
    ensures FileFilter(stem + ".jpeg") == Accepted(true)
    ensures FileFilter(stem + ".png") == Accepted(true)
  {
  }

  /** Three concrete names: a disguised executable, an upper-case extension and a plain PNG. */
  lemma ExampleNames()
    ensures FileFilter("photo.png.exe") == Rejected(RejectMessage)
    ensures FileFilter("photo.PNG") == Rejected(RejectMessage)
    ensures FileFilter("photo.png") == Accepted(true)
  {
  }
}
