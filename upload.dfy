/**
 * The upload middleware's file filter and size limit. The filter tests the
 * lower-cased file extension and the MIME type against the regular expression
 * `jpeg|jpg|png|gif|webp`, which is neither anchored nor case-insensitive.
 */
module Upload {
  import opened Wrappers
  import opened JsStrings

  /** The alternatives of the filter's regular expression, in the order it tries them. */
  const AllowedFileTypes: seq<string> := ["jpeg", "jpg", "png", "gif", "webp"]

  /** `limits.fileSize`: 5 MiB. */
  const MaxFileSize: nat := 5 * 1024 * 1024

  /** The message of the error the filter hands to its callback. */
  const RejectionMessage := "Only image files are allowed!"

  /** What the filter passes to multer's callback `cb(error, accept)`. */
  datatype FilterCallback = FilterCallback(error: Option<string>, accept: bool)

  /** Some allowed type name occurs somewhere in `s`. */
  predicate MentionsImageType(s: string)
  {
    exists w :: w in AllowedFileTypes && Contains(s, w)
  }

  /** The regular expression tried at position `i`, alternatives `k` onwards. */
  predicate AlternativeMatchesAt(s: string, i: nat, k: nat)
    requires i <= |s|
    decreases |AllowedFileTypes| - k
  {
    k < |AllowedFileTypes| && (AllowedFileTypes[k] <= s[i..] || AlternativeMatchesAt(s, i, k + 1))
  }

  /** The regular expression's search: each start position from `i` on, left to right. */
  predicate SearchFrom(s: string, i: nat)
    requires i <= |s|
    decreases |s| - i
  {
    AlternativeMatchesAt(s, i, 0) || (i < |s| && SearchFrom(s, i + 1))
  }

  /** `allowedFileTypes.test(s)`. */
  predicate RegexTest(s: string)
  {
    SearchFrom(s, 0)
  }

  lemma {:induction false} AlternativeMatchesAtSpec(s: string, i: nat, k: nat)
    requires i <= |s|
    ensures AlternativeMatchesAt(s, i, k)
        <==> exists m :: k <= m < |AllowedFileTypes| && AllowedFileTypes[m] <= s[i..]
    decreases |AllowedFileTypes| - k
  {
    if k < |AllowedFileTypes| {
      AlternativeMatchesAtSpec(s, i, k + 1);
    }
  }

  lemma {:induction false} SearchFromSpec(s: string, i: nat)
    requires i <= |s|
    ensures SearchFrom(s, i) <==> exists j, m :: i <= j <= |s| && 0 <= m < |AllowedFileTypes| && AllowedFileTypes[m] <= s[j..]
    decreases |s| - i
  {
    AlternativeMatchesAtSpec(s, i, 0);
    if i < |s| {
      SearchFromSpec(s, i + 1);
    }
    if SearchFrom(s, i) {
      if AlternativeMatchesAt(s, i, 0) {
        var m :| 0 <= m < |AllowedFileTypes| && AllowedFileTypes[m] <= s[i..];
        assert i <= i <= |s|;
      } else {
        var j, m :| i + 1 <= j <= |s| && 0 <= m < |AllowedFileTypes| && AllowedFileTypes[m] <= s[j..];
        assert i <= j <= |s|;
      }
    }
    if exists j, m :: i <= j <= |s| && 0 <= m < |AllowedFileTypes| && AllowedFileTypes[m] <= s[j..] {
      var j, m :| i <= j <= |s| && 0 <= m < |AllowedFileTypes| && AllowedFileTypes[m] <= s[j..];
      if j == i {
        assert AlternativeMatchesAt(s, i, 0);
      } else {
        assert i < |s| && SearchFrom(s, i + 1);
      }
    }
  }

  /** The regular expression's test is exactly "some allowed name is a substring". */
  lemma RegexTestIsSubstringSearch(s: string)
    ensures RegexTest(s) <==> MentionsImageType(s)
  {
    SearchFromSpec(s, 0);
    if RegexTest(s) {
      var j, m :| 0 <= j <= |s| && 0 <= m < |AllowedFileTypes| && AllowedFileTypes[m] <= s[j..];
      assert AllowedFileTypes[m] in AllowedFileTypes && Contains(s, AllowedFileTypes[m]);
    }
    if MentionsImageType(s) {
      var w :| w in AllowedFileTypes && Contains(s, w);
      var m :| 0 <= m < |AllowedFileTypes| && AllowedFileTypes[m] == w;
      var j :| 0 <= j <= |s| && w <= s[j..];
    }
  }

  /**
   * `fileFilter`: accept exactly when both the lower-cased extension and the MIME type
   * mention an allowed type; otherwise pass the rejection error and `false`.
   */
  function FileFilter(extension: string, mimeType: string): (cb: FilterCallback)
    ensures cb.accept <==> MentionsImageType(ToLower(extension)) && MentionsImageType(mimeType)
    ensures cb.accept ==> cb.error == None
    ensures !cb.accept ==> cb.error == Some(RejectionMessage)
  {
    RegexTestIsSubstringSearch(ToLower(extension));
    RegexTestIsSubstringSearch(mimeType);
    if RegexTest(ToLower(extension)) && RegexTest(mimeType) then FilterCallback(None, true)
    else FilterCallback(Some(RejectionMessage), false)
  }

  /** multer's limit: a file of at most 5242880 bytes is accepted. */
  predicate WithinSizeLimit(size: nat)
  {
    size <= MaxFileSize
  }

  lemma SizeLimitIsFiveMebibytes(size: nat)
    ensures WithinSizeLimit(size) <==> size <= 5242880
  {
  }

  /** An upper-case extension passes because it is lower-cased first. */
  lemma {:induction false} UpperCaseExtensionAccepted()
    ensures FileFilter(".JPG", "image/jpeg").accept
  {
    assert ToLower(".JPG") == ".jpg" by {
      assert LowerChar('J') == 'j' && LowerChar('P') == 'p' && LowerChar('G') == 'g';
    }
    assert "jpg" in AllowedFileTypes && "jpg" <= (".jpg")[1..];
    assert "jpeg" in AllowedFileTypes && "jpeg" <= ("image/jpeg")[6..];
  }

  /** The MIME type is tested as given, so an upper-case MIME type is rejected. */
  lemma {:induction false} UpperCaseMimeTypeRejected()
    ensures FileFilter(".jpg", "IMAGE/JPEG") == FilterCallback(Some(RejectionMessage), false)
  {
    var s := "IMAGE/JPEG";
    forall j, m | 0 <= j <= |s| && 0 <= m < |AllowedFileTypes|
      ensures !(AllowedFileTypes[m] <= s[j..])
    {
      var w := AllowedFileTypes[m];
      if j < |s| && |w| <= |s| - j {
        assert w[0] != s[j];
      }
    }
    SearchFromSpec(s, 0);
    RegexTestIsSubstringSearch(s);
  }

  /** The test is a substring search: a MIME type with an allowed name inside it passes. */
  lemma {:induction false} UnanchoredMatchAccepted()
    ensures FileFilter(".png", "application/x-png-archive").accept
  {
    assert ToLower(".png") == ".png";
    assert "png" in AllowedFileTypes && "png" <= (".png")[1..];
    assert "png" <= ("application/x-png-archive")[14..];
  }
}
