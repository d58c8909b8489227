/**
 * The output-file naming of the web front-end: the download is named after the
 * upload, with its last extension replaced by `.mid`. Names are split the way
 * POSIX `os.path.splitext` splits them.
 */
module App {

  /** `s.rfind(c)`: the index of the last occurrence of `c`, or -1. */
  function RFind(s: string, c: char): (r: int)
    ensures -1 <= r < |s|
    ensures r >= 0 ==> s[r] == c
    ensures forall k :: r < k < |s| ==> s[k] != c
  {
    if s == [] then -1
    else if s[|s| - 1] == c then |s| - 1
    else RFind(s[..|s| - 1], c)
  }

  /** Every character of `s` is a dot. */
  predicate AllDots(s: string)
  {
    forall k :: 0 <= k < |s| ==> s[k] == '.'
  }

  /** Where the last component of `p` starts: just after its last '/'. */
  function ComponentStart(p: string): (i: nat)
    ensures i <= |p|
    ensures forall k :: i <= k < |p| ==> p[k] != '/'
  {
    RFind(p, '/') + 1
  }

  /**
   * Index `dot` of `p` is a dot in the last path component that is preceded,
   * within that component, by a character other than a dot: a dot that
   * starts an extension.
   */
  predicate ExtensionDot(p: string, dot: int)
  {
    && ComponentStart(p) <= dot < |p|
    && p[dot] == '.'
    && !AllDots(p[ComponentStart(p)..dot])
  }

  /**
   * `os.path.splitext(p)`: `(root, ext)` where `ext` runs from the last dot of the
   * last path component to the end, unless everything before that dot in the
   * component is dots (a leading-dot name such as `.bashrc` has no extension).
   */
  function SplitExt(p: string): (r: (string, string))
    ensures r.0 + r.1 == p
    ensures r.1 != [] ==> ExtensionDot(p, |r.0|)
    ensures r.1 != [] ==> forall k :: |r.0| < k < |p| ==> p[k] != '.' && p[k] != '/'
    ensures r.1 == [] ==> forall dot :: 0 <= dot < |p| ==> !ExtensionDot(p, dot)
  {
    var start := ComponentStart(p);
    var dot := RFind(p, '.');
    if dot >= start && !AllDots(p[start..dot]) then
      (p[..dot], p[dot..])
    else
      NoExtensionDot(p);
      (p, "")
  }

  /** When the text between the component start and the last dot is all dots, no dot starts an extension. */
  lemma NoExtensionDot(p: string)
    requires RFind(p, '.') < ComponentStart(p) || AllDots(p[ComponentStart(p)..RFind(p, '.')])
    ensures forall dot :: 0 <= dot < |p| ==> !ExtensionDot(p, dot)
  {
    var start, last := ComponentStart(p), RFind(p, '.');
    forall dot | start <= dot < |p| && p[dot] == '.'
      ensures AllDots(p[start..dot])
    {
      assert dot <= last;
      forall k | 0 <= k < dot - start
        ensures p[start..dot][k] == '.'
      {
        assert p[start..dot][k] == p[start..last][k];
      }
    }
  }

  /** `f'{os.path.splitext(name)[0]}.mid'`: the name of the MIDI file to offer. */
  function OutputMidiName(uploadName: string): (out: string)
    ensures |out| >= 4 && out[|out| - 4..] == ".mid"
    ensures out[..|out| - 4] <= uploadName
  {
    SplitExt(uploadName).0 + ".mid"
  }

  /**
   * A name made of a stem and an extension (a dot followed by neither dot nor
   * '/') becomes the stem plus `.mid`, provided the stem's last component is
   * not all dots: `song.mp3` gives `song.mid`, `a.b.wav` gives `a.b.mid`.
   */
  lemma OutputNameReplacesExtension(stem: string, ext: string)
    requires |ext| >= 1 && ext[0] == '.'
    requires forall i :: 1 <= i < |ext| ==> ext[i] != '.' && ext[i] != '/'
    requires !AllDots(stem[ComponentStart(stem)..])
    ensures OutputMidiName(stem + ext) == stem + ".mid"
  {
    var p := stem + ext;
    var start := ComponentStart(stem);
    RFindUnique(p, '/', RFind(stem, '/'));
    RFindUnique(p, '.', |stem|);
    assert p[start..|stem|] == stem[start..];
    assert p[..|stem|] == stem;
  }

  /** A name with no dot in its last component just gains `.mid`. */
  lemma OutputNameWithoutExtension(name: string)
    requires forall k :: ComponentStart(name) <= k < |name| ==> name[k] != '.'
    ensures OutputMidiName(name) == name + ".mid"
  {
  }

  /**
   * A name whose last component has dots only at its start has no extension
   * and just gains `.mid`: `.hidden`, `..cfg` and `dir/.hidden` alike.
   */
  lemma OutputNameOfDotFile(name: string)
    requires forall j, k :: ComponentStart(name) <= k < j < |name| && name[j] == '.' ==> name[k] == '.'
    ensures OutputMidiName(name) == name + ".mid"
  {
  }

  /** RFind is determined by its contract: the last index holding `c`, or -1. */
  lemma RFindUnique(s: string, c: char, r: int)
    requires -1 <= r < |s|
    requires r >= 0 ==> s[r] == c
    requires forall k :: r < k < |s| ==> s[k] != c
    ensures RFind(s, c) == r
  {
  }
}
