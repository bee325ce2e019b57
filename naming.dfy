/** The names of the files a job writes into its output directory, and the
    POSIX path join that places them there. Every artifact name is a fixed
    function of the artifact's kind and, for per-language artifacts, of the
    language code. */
module Naming {

  type Path = string

  /** A path component that `Join` appends rather than substitutes. */
  predicate IsRelative(name: string) {
    name == [] || name[0] != '/'
  }

  /** Python's `os.path.join(dir, name)` on POSIX for one component: an
      absolute `name` discards `dir`; otherwise `name` is appended, after a
      '/' unless `dir` is empty or already ends with one. */
  function Join(dir: Path, name: string): Path {
    if !IsRelative(name) then name
    else if dir == [] || dir[|dir| - 1] == '/' then dir + name
    else dir + "/" + name
  }

  /** A relative name lands inside `dir`: the result starts with `dir`, ends
      with `name`, and has exactly one '/' between them, unless `dir` is empty
      or already ends with one, when nothing is put between them. */
  lemma JoinShape(dir: Path, name: string)
    ensures var p := Join(dir, name);
      (IsRelative(name) ==>
        |dir| + |name| <= |p| <= |dir| + 1 + |name| &&
        p[..|dir|] == dir && p[|p| - |name|..] == name &&
        (|p| == |dir| + 1 + |name| ==> p[|dir|] == '/') &&
        ((dir == [] || dir[|dir| - 1] == '/') ==> p == dir + name) &&
        ((dir != [] && dir[|dir| - 1] != '/') ==> p == dir + "/" + name)) &&
      (!IsRelative(name) ==> p == name)
  {
    var p := Join(dir, name);
    if IsRelative(name) {
      assert p == JoinPrefix(dir) + name;
    }
  }

  /** What `Join(dir, _)` puts in front of a relative component. */
  function JoinPrefix(dir: Path): Path {
    if dir == [] || dir[|dir| - 1] == '/' then dir else dir + "/"
  }

  /** Joining under one directory never merges two different relative names. */
  lemma JoinInjective(dir: Path, x: string, y: string)
    requires IsRelative(x) && IsRelative(y)
    ensures Join(dir, x) == Join(dir, y) <==> x == y
  {
    var pre := JoinPrefix(dir);
    assert Join(dir, x) == pre + x;
    assert Join(dir, y) == pre + y;
    if pre + x == pre + y {
      assert x == (pre + x)[|pre|..];
      assert y == (pre + y)[|pre|..];
    }
  }

  /** The kinds of file a job writes. */
  datatype Artifact =
    | OriginalVideo
    | OriginalAudio
    | Subtitles(language: string)
    | DubbedAudio(language: string)
    | OutputVideo(language: string)

  /** The file name of each artifact inside the output directory:
      `original.mp4`, `original_audio.wav`, `subtitles_{lang}.srt`,
      `dubbed_{lang}.mp3` and `output_{lang}.mp4`. */
  function FileName(a: Artifact): (name: string)
    ensures |name| >= 11 && IsRelative(name)
  {
    match a
    case OriginalVideo => "original.mp4"
    case OriginalAudio => "original_audio.wav"
    case Subtitles(lang) => "subtitles_" + lang + ".srt"
    case DubbedAudio(lang) => "dubbed_" + lang + ".mp3"
    case OutputVideo(lang) => "output_" + lang + ".mp4"
  }

  /** `pre + x + suf` determines `x` once `pre` and `suf` are known. */
  lemma AffixCancel(pre: string, x: string, y: string, suf: string)
    requires pre + x + suf == pre + y + suf
    ensures x == y
  {
    var s := pre + x + suf;
    assert |x| == |y|;
    assert x == s[|pre|..|pre| + |x|];
    assert y == (pre + y + suf)[|pre|..|pre| + |y|];
  }

  /** No two different artifacts share a file name, whatever the language
      codes are. */
  lemma FileNamesDistinct(a: Artifact, b: Artifact)
    ensures FileName(a) == FileName(b) <==> a == b
  {
    var na, nb := FileName(a), FileName(b);
    if na == nb {
      // The first, second and ninth characters tell the kinds apart.
      assert na[0] == nb[0] && na[1] == nb[1] && na[8] == nb[8];
      match a
      case OriginalVideo =>
        assert na[0] == 'o' && na[1] == 'r' && na[8] == '.';
      case OriginalAudio =>
        assert na[0] == 'o' && na[1] == 'r' && na[8] == '_';
      case Subtitles(l) =>
        assert na[0] == 's';
        if b.Subtitles? { AffixCancel("subtitles_", l, b.language, ".srt"); }
      case DubbedAudio(l) =>
        assert na[0] == 'd';
        if b.DubbedAudio? { AffixCancel("dubbed_", l, b.language, ".mp3"); }
      case OutputVideo(l) =>
        assert na[0] == 'o' && na[1] == 'u';
        if b.OutputVideo? { AffixCancel("output_", l, b.language, ".mp4"); }
    }
  }

  /** Where an artifact of the job whose output directory is `dir` lives. */
  function ArtifactPath(dir: Path, a: Artifact): Path {
    Join(dir, FileName(a))
  }

  /** Within one output directory, different artifacts have different paths. */
  lemma ArtifactPathsDistinct(dir: Path, a: Artifact, b: Artifact)
    ensures ArtifactPath(dir, a) == ArtifactPath(dir, b) <==> a == b
  {
    JoinInjective(dir, FileName(a), FileName(b));
    FileNamesDistinct(a, b);
  }

  /** Where a job puts each of its artifacts. */
  type Placement = Artifact -> Path

  /** No two artifacts share a path. */
  ghost predicate Injective(place: Placement) {
    forall a, b :: place(a) == place(b) ==> a == b
  }

  /** The placement process_video uses: every artifact directly under the
      output directory. */
  function InDirectory(dir: Path): Placement {
    a => ArtifactPath(dir, a)
  }

  lemma InDirectoryInjective(dir: Path)
    ensures Injective(InDirectory(dir))
  {
    forall a, b | InDirectory(dir)(a) == InDirectory(dir)(b) ensures a == b {
      ArtifactPathsDistinct(dir, a, b);
    }
  }
}
