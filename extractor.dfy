/** The input checks of the command-line `process_audio`. */
module ChordsExtractor {
  import opened Wrappers

  /** Why `process_audio` exits early. */
  datatype CliError = FileMissing(path: string) | UnsupportedFormat

  /** Lower-casing of one character; only the ASCII letters A-Z change. */
  function LowerChar(c: char): (d: char)
    ensures 'A' <= c <= 'Z' ==> d as int == c as int + 32
    ensures !('A' <= c <= 'Z') ==> d == c
  {
    if 'A' <= c <= 'Z' then (c as int + 32) as char else c
  }

  /** `s.lower()`, character by character. */
  function Lower(s: string): (r: string)
    ensures |r| == |s|
    ensures forall i :: 0 <= i < |s| ==> r[i] == LowerChar(s[i])
  {
    if s == [] then [] else Lower(s[..|s| - 1]) + [LowerChar(s[|s| - 1])]
  }

  /** `s.endswith(suffix)`. */
  predicate EndsWith(s: string, suffix: string)
  {
    |suffix| <= |s| && s[|s| - |suffix|..] == suffix
  }

  /** The last |ext| characters of `path` match `ext` ignoring the case of ASCII letters. */
  predicate EndsWithIgnoringCase(path: string, ext: string)
  {
    |ext| <= |path| &&
    forall i :: 0 <= i < |ext| ==> LowerChar(path[|path| - |ext| + i]) == ext[i]
  }

  /** `path.lower().endswith(('.mp3', '.wav'))`. */
  function HasSupportedExtension(path: string): (ok: bool)
    ensures ok <==> EndsWithIgnoringCase(path, ".mp3") || EndsWithIgnoringCase(path, ".wav")
  {
    var lower := Lower(path);
    LowerSuffix(path, ".mp3");
    LowerSuffix(path, ".wav");
    EndsWith(lower, ".mp3") || EndsWith(lower, ".wav")
  }

  /** A lower-case suffix matches the lowered path exactly when it matches ignoring case. */
  lemma LowerSuffix(path: string, ext: string)
    ensures EndsWith(Lower(path), ext) <==> EndsWithIgnoringCase(path, ext)
  {
    var lower := Lower(path);
    if |ext| <= |path| {
      if EndsWithIgnoringCase(path, ext) {
        assert lower[|lower| - |ext|..] == ext;
      }
      if EndsWith(lower, ext) {
        forall i | 0 <= i < |ext|
          ensures LowerChar(path[|path| - |ext| + i]) == ext[i]
        {
          assert lower[|lower| - |ext|..][i] == ext[i];
        }
      }
    }
  }

  /** A name ending in a case variant of `ext` matches `ext` ignoring case. */
  lemma EndsWithCaseVariant(stem: string, variant: string, ext: string)
    requires |variant| == |ext|
    requires forall i :: 0 <= i < |ext| ==> LowerChar(variant[i]) == ext[i]
    ensures EndsWithIgnoringCase(stem + variant, ext)
  {
    var p := stem + variant;
    forall i | 0 <= i < |ext|
      ensures LowerChar(p[|p| - |ext| + i]) == ext[i]
    {
      assert p[|p| - |ext| + i] == variant[i];
    }
  }

  /** Upper- and mixed-case extensions are accepted, whatever precedes them. */
  lemma MixedCaseAccepted(stem: string)
    ensures HasSupportedExtension(stem + ".MP3")
    ensures HasSupportedExtension(stem + ".Wav")
  {
    EndsWithCaseVariant(stem, ".MP3", ".mp3");
    EndsWithCaseVariant(stem, ".Wav", ".wav");
  }

  /** Other formats are refused, however the name is cased. */
  lemma OtherFormatsRefused(stem: string)
    ensures !HasSupportedExtension(stem + ".flac")
    ensures !HasSupportedExtension(stem + ".mp3x")
  {
  }

  /**
   * The checks `process_audio` makes before any work: the file must exist
   * (checked first, its answer given as `isFile`), then its name must end in
   * `.mp3` or `.wav` in any letter case.
   */
  function ValidateInput(path: string, isFile: bool): (r: Outcome<CliError>)
    ensures r.Pass? <==> isFile && HasSupportedExtension(path)
    ensures !isFile ==> r == Fail(FileMissing(path))
    ensures isFile && !HasSupportedExtension(path) ==> r == Fail(UnsupportedFormat)
  {
    if !isFile then Fail(FileMissing(path))
    else if !HasSupportedExtension(path) then Fail(UnsupportedFormat)
    else Pass
  }
}
