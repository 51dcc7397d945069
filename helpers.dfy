/** `validate_file_type` (utils/helpers.py), with POSIX `os.path.splitext`. */
module Helpers {
  import Text

  const AllowedExtensions: seq<string> := [".pdf", ".docx", ".txt"]

  /** `s.rfind(c)`: the last index of `c`, or -1. */
  function LastIndexOf(s: string, c: char): (r: int)
    ensures -1 <= r < |s|
    ensures r >= 0 ==> s[r] == c
    ensures forall j :: r < j < |s| ==> s[j] != c
  {
    if s == [] then -1
    else if s[|s| - 1] == c then |s| - 1
    else LastIndexOf(s[..|s| - 1], c)
  }

  /** Some character of `p[lo..hi]` is not a dot. */
  predicate HasNonDot(p: string, lo: int, hi: int)
    requires 0 <= lo && hi <= |p|
  {
    exists k :: lo <= k < hi && p[k] != '.'
  }

  /** The extension `os.path.splitext` splits off: from the last dot, when
      that dot is in the last path component and is not one of the leading
      dots of the file name; otherwise empty. */
  function Extension(p: string): (ext: string)
    ensures ext == "" || (|ext| <= |p| && ext[0] == '.' && ext == p[|p| - |ext|..])
  {
    var sepIndex := LastIndexOf(p, '/');
    var dotIndex := LastIndexOf(p, '.');
    if dotIndex > sepIndex && HasNonDot(p, sepIndex + 1, dotIndex) then p[dotIndex..] else ""
  }

  /** An extension holds one dot, at its start, and no path separator:
      only the final extension counts. */
  lemma ExtensionIsFinal(p: string)
    ensures var ext := Extension(p);
      forall i :: 0 < i < |ext| ==> ext[i] != '.' && ext[i] != '/'
  {
    var ext := Extension(p);
    if ext != "" {
      var sepIndex := LastIndexOf(p, '/');
      var dotIndex := LastIndexOf(p, '.');
      forall i | 0 < i < |ext|
        ensures ext[i] != '.' && ext[i] != '/'
      {
        assert ext[i] == p[dotIndex + i];
      }
    }
  }

  /** `validate_file_type` */
  function ValidateFileType(fileName: string): (ok: bool)
    ensures ok ==> 4 <= |Extension(fileName)| <= |fileName| && fileName[|fileName| - |Extension(fileName)|] == '.'
  {
    Text.Lower(Extension(fileName)) in AllowedExtensions
  }

  /** A name ending in a dot-led extension, after a stem character that is
      neither a dot nor a separator, has exactly that extension. */
  lemma {:induction false} ExtensionOfSuffixed(stem: string, ext: string)
    requires |stem| > 0 && stem[|stem| - 1] != '.' && stem[|stem| - 1] != '/'
    requires |ext| > 0 && ext[0] == '.'
    requires forall i :: 0 < i < |ext| ==> ext[i] != '.' && ext[i] != '/'
    ensures Extension(stem + ext) == ext
  {
    var p := stem + ext;
    var dotIndex := LastIndexOf(p, '.');
    var sepIndex := LastIndexOf(p, '/');
    assert p[|stem|] == '.';
    assert dotIndex == |stem| by {
      forall j | |stem| < j < |p|
        ensures p[j] != '.'
      {
        assert p[j] == ext[j - |stem|];
      }
      LastIndexAt(p, '.', |stem|);
    }
    forall j | |stem| - 1 <= j < |p|
      ensures p[j] != '/'
    {
      if j < |stem| {
        assert p[j] == stem[j];
      } else {
        assert p[j] == ext[j - |stem|];
      }
    }
    assert sepIndex < |stem| - 1;
    assert p[|stem| - 1] != '.';
    assert HasNonDot(p, sepIndex + 1, dotIndex);
    assert p[dotIndex..] == ext;
  }

  /** When `c` sits at `k` and nowhere after, `rfind` finds `k`. */
  lemma {:induction false} LastIndexAt(s: string, c: char, k: int)
    requires 0 <= k < |s| && s[k] == c
    requires forall j :: k < j < |s| ==> s[j] != c
    ensures LastIndexOf(s, c) == k
  {
    if k < |s| - 1 {
      LastIndexAt(s[..|s| - 1], c, k);
    }
  }

  /** The check is case-insensitive in the extension. */
  lemma UpperCasePdfAccepted()
    ensures ValidateFileType("X.PDF")
  {
    ExtensionOfSuffixed("X", ".PDF");
    assert "X" + ".PDF" == "X.PDF";
    var lowered := Text.Lower(".PDF");
    assert lowered[0] == '.' && lowered[1] == 'p' && lowered[2] == 'd' && lowered[3] == 'f';
    assert lowered == ".pdf";
  }

  /** Only the last extension counts. */
  lemma ArchiveRejected()
    ensures !ValidateFileType("a.txt.zip")
  {
    ExtensionOfSuffixed("a.txt", ".zip");
    assert "a.txt" + ".zip" == "a.txt.zip";
    var lowered := Text.Lower(".zip");
    assert lowered[1] == 'z';
  }

  /** A name without an extension, or a hidden file's leading dot, is
      rejected. */
  lemma NoExtensionRejected(stem: string)
    requires forall i :: 0 <= i < |stem| ==> stem[i] != '.'
    ensures !ValidateFileType(stem)
    ensures !ValidateFileType("." + stem)
  {
    assert LastIndexOf(stem, '.') == -1;
    var hidden := "." + stem;
    assert forall j :: 0 < j < |hidden| ==> hidden[j] != '.' by {
      forall j | 0 < j < |hidden| ensures hidden[j] != '.' {
        assert hidden[j] == stem[j - 1];
      }
    }
    LastIndexAt(hidden, '.', 0);
  }

  /** For a suffixed name, acceptance depends on the extension alone. */
  lemma ValidateBySuffix(stem: string, ext: string)
    requires |stem| > 0 && stem[|stem| - 1] != '.' && stem[|stem| - 1] != '/'
    requires |ext| > 0 && ext[0] == '.'
    requires forall i :: 0 < i < |ext| ==> ext[i] != '.' && ext[i] != '/'
    ensures ValidateFileType(stem + ext) <==> Text.Lower(ext) in AllowedExtensions
  {
    ExtensionOfSuffixed(stem, ext);
  }
}
