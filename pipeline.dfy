/** process_video as functions of the collaborators and of the file store.
    Each stage gives a `Step`: what it returns or raises, the file store after
    it, and the calls it made. */
module Pipeline {
  import opened Outcomes
  import opened Naming
  import opened External

  /** The arguments of one process_video call. */
  datatype Request = Request(
    url: string,
    languages: seq<string>,
    outputDir: Path,
    generateSubtitles: bool,
    generateDubbed: bool,
    preserveOriginal: bool)
  /** The files the work for `lang` may write under `place`, given the flags. */
  function LanguagePaths(req: Request, place: Placement, lang: string): set<Path> {
    (if req.generateSubtitles then {place(Subtitles(lang))} else {}) +
    (if req.generateDubbed then {place(DubbedAudio(lang)), place(OutputVideo(lang))} else {})
  }

  /** One entry of `results`; the paths are bare file names. */
  datatype LanguageResult = LanguageResult(language: string, subtitlePath: Option<string>, dubbedPath: Option<string>)

  /** The dictionary process_video returns. */
  datatype JobResult = JobResult(videoTitle: string, results: seq<LanguageResult>)

  /** The title and transcript the job-level stages produce. */
  datatype Transcribed = Transcribed(title: string, transcript: string)

  type Files = map<Path, Content>

  datatype Step<T> = Step(result: Result<T, Failure>, files: Files, calls: seq<Call>)

  /** What opening `p` finds. */
  function Read(files: Files, p: Path): Option<Content> {
    if p in files then Some(files[p]) else None
  }

  /** The title used when the download reports none. */
  const DEFAULT_TITLE: string := "video"

  // ---- The stages, one per call process_video makes ----

  function DownloadVideo(env: Services, url: string, path: Path, files: Files): Step<string> {
    match env.fetch(url)
    case Raised(m) => Step(Err(FetchFailed(m)), files, [Fetch(url, path)])
    case Done(f) => Step(Ok(f.title.GetOr(DEFAULT_TITLE)), files[path := f.video], [Fetch(url, path)])
  }

  function ExtractAudio(env: Services, videoPath: Path, audioPath: Path, files: Files): Step<()> {
    match env.extract(Read(files, videoPath))
    case Raised(m) => Step(Err(ExtractFailed(m)), files, [Extract(videoPath, audioPath)])
    case Done(audio) => Step(Ok(()), files[audioPath := audio], [Extract(videoPath, audioPath)])
  }

  function TranscribeAudio(env: Services, audioPath: Path, files: Files): Step<string> {
    Step(Transcription(env.recognize(Read(files, audioPath))), files, [Recognize(audioPath)])
  }

  function TranslateText(env: Services, text: string, lang: string, k: nat, files: Files): Step<string> {
    match env.translate(text, lang, k)
    case Raised(m) => Step(Err(TranslationFailed(lang, m)), files, [Translate(text, lang)])
    case Done(t) => Step(Ok(t), files, [Translate(text, lang)])
  }

  /** create_subtitle_file: the file's content is the text, nothing else. */
  function CreateSubtitleFile(text: string, path: Path, files: Files): Step<()> {
    Step(Ok(()), files[path := text], [WriteSubtitles(path)])
  }

  function TextToSpeech(env: Services, text: string, lang: string, path: Path, k: nat, files: Files): Step<()> {
    match env.synthesize(text, lang, k)
    case Raised(m) => Step(Err(SynthesisFailed(lang, m)), files, [Synthesize(lang, path)])
    case Done(speech) => Step(Ok(()), files[path := speech], [Synthesize(lang, path)])
  }

  /** The original video re-muxed with the dub, alone or mixed with the
      original audio, written to `outPath`. */
  function RemuxDub(env: Services, lang: string, videoPath: Path, audioPath: Path, dubPath: Path, outPath: Path,
                 preserveOriginal: bool, k: nat, files: Files): Step<()>
  {
    var track := MixFor(preserveOriginal, Read(files, audioPath), Read(files, dubPath));
    match env.remux(Read(files, videoPath), track, k)
    case Raised(m) => Step(Err(RemuxFailed(lang, m)), files, [Remux(videoPath, preserveOriginal, outPath)])
    case Done(v) => Step(Ok(()), files[outPath := v], [Remux(videoPath, preserveOriginal, outPath)])
  }

  // ---- The orchestration ----

  /** Download, extraction and transcription, each once, stopping at the
      first exception. */
  function RunPrefix(env: Services, req: Request, place: Placement, files: Files): Step<Transcribed> {
    var d := DownloadVideo(env, req.url, place(OriginalVideo), files);
    if d.result.Err? then Step(Err(d.result.error), d.files, d.calls) else
    var e := ExtractAudio(env, place(OriginalVideo), place(OriginalAudio), d.files);
    if e.result.Err? then Step(Err(e.result.error), e.files, d.calls + e.calls) else
    var t := TranscribeAudio(env, place(OriginalAudio), e.files);
    if t.result.Err? then Step(Err(t.result.error), t.files, d.calls + e.calls + t.calls) else
    Step(Ok(Transcribed(d.result.value, t.result.value)), t.files, d.calls + e.calls + t.calls)
  }

  /** The body of the loop for `lang`, the language at position `k`. */
  function ProcessLanguage(env: Services, req: Request, place: Placement, text: string, lang: string, k: nat,
                           files: Files): (r: Step<LanguageResult>)
    ensures r.result.Ok? ==> r.result.value == Entry(req, lang)
  {
    var tr := TranslateText(env, text, lang, k, files);
    if tr.result.Err? then Step(Err(tr.result.error), tr.files, tr.calls) else
    var sub :=
      if req.generateSubtitles then CreateSubtitleFile(tr.result.value, place(Subtitles(lang)), tr.files)
      else Step(Ok(()), tr.files, []);
    var entry := LanguageResult(lang, if req.generateSubtitles then Some(FileName(Subtitles(lang))) else None, None);
    if !req.generateDubbed then Step(Ok(entry), sub.files, tr.calls + sub.calls) else
    var tts := TextToSpeech(env, tr.result.value, lang, place(DubbedAudio(lang)), k, sub.files);
    if tts.result.Err? then Step(Err(tts.result.error), tts.files, tr.calls + sub.calls + tts.calls) else
    var mix := RemuxDub(env, lang, place(OriginalVideo), place(OriginalAudio), place(DubbedAudio(lang)),
                        place(OutputVideo(lang)), req.preserveOriginal, k, tts.files);
    var calls := tr.calls + sub.calls + tts.calls + mix.calls;
    if mix.result.Err? then Step(Err(mix.result.error), mix.files, calls) else
    Step(Ok(entry.(dubbedPath := Some(FileName(OutputVideo(lang))))), mix.files, calls)
  }

  /** The manifest entry the request calls for, for one language. */
  function Entry(req: Request, lang: string): LanguageResult {
    LanguageResult(
      lang,
      if req.generateSubtitles then Some(FileName(Subtitles(lang))) else None,
      if req.generateDubbed then Some(FileName(OutputVideo(lang))) else None)
  }

  /** A loop body: the language, its position and the files in, a step out. */
  type Work = (string, nat, Files) -> Step<LanguageResult>

  /** The loop body process_video runs, on the transcript `text`. */
  function LanguageWork(env: Services, req: Request, place: Placement, text: string): Work {
    (lang: string, k: nat, files: Files) => ProcessLanguage(env, req, place, text, lang, k, files)
  }

  /** The loop over `langs` from position `i` on, with `acc` the entries
      built so far; the first exception ends it. */
  function FanOut(work: Work, langs: seq<string>, i: nat, files: Files, acc: seq<LanguageResult>)
    : (r: Step<seq<LanguageResult>>)
    requires i <= |langs|
    ensures r.result.Ok? ==> |r.result.value| == |acc| + |langs| - i && r.result.value[..|acc|] == acc
    decreases |langs| - i
  {
    if i == |langs| then Step(Ok(acc), files, []) else
    var st := work(langs[i], i, files);
    if st.result.Err? then Step(Err(st.result.error), st.files, st.calls) else
    var rest := FanOut(work, langs, i + 1, st.files, acc + [st.result.value]);
    Step(rest.result, rest.files, st.calls + rest.calls)
  }

  /** process_video: the job-level stages, then one entry per requested
      language, in order; any exception ends the whole call. Artifacts go
      directly under the output directory. */
  function ProcessVideo(env: Services, req: Request, files: Files): (r: Step<JobResult>)
    ensures r.result.Ok? ==> |r.result.value.results| == |req.languages|
    ensures r.result.Ok? ==>
      env.fetch(req.url).Done? &&
      r.result.value.videoTitle == env.fetch(req.url).value.title.GetOr(DEFAULT_TITLE)
  {
    var place := InDirectory(req.outputDir);
    var pre := RunPrefix(env, req, place, files);
    if pre.result.Err? then Step(Err(pre.result.error), pre.files, pre.calls) else
    var work := LanguageWork(env, req, place, pre.result.value.transcript);
    var fan := FanOut(work, req.languages, 0, pre.files, []);
    if fan.result.Err? then Step(Err(fan.result.error), fan.files, pre.calls + fan.calls) else
    Step(Ok(JobResult(pre.result.value.title, fan.result.value)), fan.files, pre.calls + fan.calls)
  }

  // ---- A reference model that does not go through the file store ----

  /** What the job-level stages yield when every collaborator's output is
      handed straight to the next one. */
  datatype Prepared = Prepared(title: string, video: Content, audio: Content, transcript: string)

  function Prepare(env: Services, url: string): Result<Prepared, Failure> {
    match env.fetch(url)
    case Raised(m) => Err(FetchFailed(m))
    case Done(f) =>
      match env.extract(Some(f.video))
      case Raised(m) => Err(ExtractFailed(m))
      case Done(audio) =>
        match Transcription(env.recognize(Some(audio)))
        case Err(e) => Err(e)
        case Ok(text) => Ok(Prepared(f.title.GetOr(DEFAULT_TITLE), f.video, audio, text))
  }

  /** How many job-level stages run: download, extraction and transcription,
      cut short after the first of the first two that raises. */
  function StagesRun(env: Services, url: string): (n: nat)
    ensures 1 <= n <= 3
    ensures Prepare(env, url).Ok? ==> n == 3
  {
    match env.fetch(url)
    case Raised(_) => 1
    case Done(f) => if env.extract(Some(f.video)).Raised? then 2 else 3
  }

  /** What the work for the language at position `k` produces: its
      translation and, when dubbing, the synthesised speech and output video. */
  datatype Produced = Produced(translation: string, speech: Option<Content>, output: Option<Content>)

  function Localize(env: Services, req: Request, p: Prepared, k: nat): Result<Produced, Failure>
    requires k < |req.languages|
  {
    var lang := req.languages[k];
    match env.translate(p.transcript, lang, k)
    case Raised(m) => Err(TranslationFailed(lang, m))
    case Done(t) =>
      if !req.generateDubbed then Ok(Produced(t, None, None)) else
      match env.synthesize(t, lang, k)
      case Raised(m) => Err(SynthesisFailed(lang, m))
      case Done(speech) =>
        match env.remux(Some(p.video), MixFor(req.preserveOriginal, Some(p.audio), Some(speech)), k)
        case Raised(m) => Err(RemuxFailed(lang, m))
        case Done(v) => Ok(Produced(t, Some(speech), Some(v)))
  }

  /** The position of the first language from `i` on whose work fails, or
      the number of languages when none does. */
  function FirstFailure(env: Services, req: Request, p: Prepared, i: nat): (j: nat)
    requires i <= |req.languages|
    ensures i <= j <= |req.languages|
    ensures forall m :: i <= m < j ==> Localize(env, req, p, m).Ok?
    ensures j < |req.languages| ==> Localize(env, req, p, j).Err?
    decreases |req.languages| - i
  {
    if i == |req.languages| then i
    else if Localize(env, req, p, i).Err? then i
    else FirstFailure(env, req, p, i + 1)
  }

  // ---- Views of the call log ----

  /** The languages of the Translate calls in `calls`, in order. */
  function Translated(calls: seq<Call>): seq<string> {
    if calls == [] then []
    else (if calls[0].Translate? then [calls[0].language] else []) + Translated(calls[1..])
  }

  /** A call the work for `lang` makes: the translation of `text` into
      `lang`, or a write, synthesis or re-mux of that language's own files,
      each only when the flags ask for it. */
  predicate LanguageCall(req: Request, place: Placement, text: string, lang: string, c: Call) {
    match c
    case Translate(t, l) => t == text && l == lang
    case WriteSubtitles(q) => req.generateSubtitles && q == place(Subtitles(lang))
    case Synthesize(l, q) => req.generateDubbed && l == lang && q == place(DubbedAudio(lang))
    case Remux(v, keep, out) =>
      req.generateDubbed && v == place(OriginalVideo) && keep == req.preserveOriginal && out == place(OutputVideo(lang))
    case _ => false
  }

  /** A call the loop may make for `req` on transcript `text`: translations
      of that transcript, and writes and dubbing only when requested. */
  predicate Permitted(req: Request, text: string, c: Call) {
    match c
    case Translate(t, _) => t == text
    case WriteSubtitles(_) => req.generateSubtitles
    case Synthesize(_, _) => req.generateDubbed
    case Remux(_, _, _) => req.generateDubbed
    case _ => false
  }
}
