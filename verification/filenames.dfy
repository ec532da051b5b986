/** File-name handling of the batch renamer: the case-insensitive `.wav`
    filter, `os.path.splitext` and the `Reference_v…_a…` naming scheme. */
module FileNames {

  /** No name occurs twice, as in a directory listing. */
  predicate NoDuplicates(s: seq<string>)
  {
    forall i, j :: 0 <= i < j < |s| ==> s[i] != s[j]
  }

  /** `str.lower` on one character, restricted to ASCII letters. */
  function LowerChar(c: char): char
  {
    if 'A' <= c <= 'Z' then (c as int + 32) as char else c
  }

  /** `str.lower`: every ASCII capital is replaced by its small letter. */
  function Lower(s: string): (r: string)
    ensures |r| == |s|
  {
    seq(|s|, i requires 0 <= i < |s| => LowerChar(s[i]))
  }

  predicate EndsWith(s: string, suffix: string)
  {
    |suffix| <= |s| && s[|s| - |suffix|..] == suffix
  }

  /** `filename.lower().endswith('.wav')` (line 70): a qualifying name has at
      least four characters, the fourth from the end being a dot. */
  predicate IsWav(name: string)
    ensures IsWav(name) ==> |name| >= 4 && name[|name| - 4] == '.'
  {
    var lowered := Lower(name);
    assert EndsWith(lowered, ".wav") ==> lowered[|name| - 4] == '.' by {
      if EndsWith(lowered, ".wav") {
        assert lowered[|name| - 4..][0] == '.';
      }
    }
    EndsWith(lowered, ".wav")
  }

  /** The filter ignores case: a name qualifies exactly when it ends in a dot
      followed by `w`, `a`, `v`, each in either case. */
  lemma IsWavCaseInsensitive(name: string)
    ensures IsWav(name) <==>
      |name| >= 4 && name[|name| - 4] == '.' && name[|name| - 3] in "wW" &&
      name[|name| - 2] in "aA" && name[|name| - 1] in "vV"
  {
    var n := |name|;
    if n >= 4 {
      var tail := Lower(name)[n - 4..];
      assert tail == [LowerChar(name[n - 4]), LowerChar(name[n - 3]), LowerChar(name[n - 2]), LowerChar(name[n - 1])];
    }
  }

  lemma WavFilterExamples()
    ensures IsWav("X.WAV") && IsWav("x.Wav") && IsWav("song.wav")
    ensures !IsWav("x.mp3") && !IsWav("wav") && !IsWav("x.wav.bak")
  {
    IsWavCaseInsensitive("X.WAV");
    IsWavCaseInsensitive("x.Wav");
    IsWavCaseInsensitive("song.wav");
    IsWavCaseInsensitive("x.mp3");
    IsWavCaseInsensitive("wav");
    IsWavCaseInsensitive("x.wav.bak");
  }

  /** `str.rfind(c)`: the index of the last occurrence of `c`, or -1. */
  function LastIndexOf(s: string, c: char): (r: int)
    ensures -1 <= r < |s|
    ensures r >= 0 ==> s[r] == c && forall k :: r < k < |s| ==> s[k] != c
    ensures r == -1 ==> forall k :: 0 <= k < |s| ==> s[k] != c
  {
    if s == [] then -1
    else if s[|s| - 1] == c then |s| - 1
    else LastIndexOf(s[..|s| - 1], c)
  }

  /** `os.path.splitext(name)[1]` for a bare file name (no directory separator):
      the text from the last dot on, unless every character before that dot is
      itself a dot (a leading-dot name such as `.wav` has no extension). */
  function Extension(name: string): (ext: string)
    ensures ext == "" || (ext[0] == '.' && EndsWith(name, ext) && '.' !in ext[1..])
    ensures ext == "" || |ext| < |name|
  {
    var dot := LastIndexOf(name, '.');
    if dot >= 0 && exists k :: 0 <= k < dot && name[k] != '.' then name[dot..] else ""
  }

  /** The extension of a `.wav` name is its last four characters, case kept,
      exactly when some character before them is not a dot; otherwise it is empty. */
  lemma WavExtension(name: string)
    requires IsWav(name)
    ensures (exists k :: 0 <= k < |name| - 4 && name[k] != '.') ==> Extension(name) == name[|name| - 4..]
    ensures (forall k :: 0 <= k < |name| - 4 ==> name[k] == '.') ==> Extension(name) == ""
  {
    IsWavCaseInsensitive(name);
    var n := |name|;
    assert LastIndexOf(name, '.') == n - 4;
  }

  /** The extension keeps its case; only a leading-dot name loses it. */
  lemma ExtensionExamples()
    ensures Extension("take1.WAV") == ".WAV"
    ensures Extension(".wav") == ""
  {
    IsWavCaseInsensitive("take1.WAV");
    WavExtension("take1.WAV");
    assert "take1.WAV"[0] != '.';
    IsWavCaseInsensitive(".wav");
    WavExtension(".wav");
  }

  /** The `.3f` formatter of an f-string; kept abstract. */
  type Formatter = real -> string

  /** `f"Reference_v{v:.3f}_a{a:.3f}{ext}"` (line 117): the fixed prefix, both
      formatted scores in order, then the original extension, each at a known position. */
  function NewName(valence: real, arousal: real, ext: string, fmt: Formatter): (r: string)
    ensures |r| == 13 + |fmt(valence)| + |fmt(arousal)| + |ext|
    ensures r[..11] == "Reference_v"
    ensures r[11..11 + |fmt(valence)|] == fmt(valence)
    ensures r[11 + |fmt(valence)|..13 + |fmt(valence)|] == "_a"
    ensures r[13 + |fmt(valence)|..13 + |fmt(valence)| + |fmt(arousal)|] == fmt(arousal)
    ensures EndsWith(r, ext)
  {
    "Reference_v" + fmt(valence) + "_a" + fmt(arousal) + ext
  }

  /** A renamed `.wav` file whose extension is kept is still a `.wav` file,
      so a later run picks it up again. */
  lemma RenamedWavStaysWav(name: string, valence: real, arousal: real, fmt: Formatter)
    requires IsWav(name) && Extension(name) != ""
    ensures IsWav(NewName(valence, arousal, Extension(name), fmt))
  {
    var n := |name|;
    WavExtension(name);
    var r := NewName(valence, arousal, Extension(name), fmt);
    assert r[|r| - 4..] == name[n - 4..];
    IsWavCaseInsensitive(name);
    IsWavCaseInsensitive(r);
  }
}
