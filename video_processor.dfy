/** process_video as the program runs it: statements that write files one
    after another into a store, with a loop over the requested languages.
    Each method is proved to do what the matching function of `Pipeline`
    describes, so every property proved there holds of it. */
module VideoProcessor {
  import opened Outcomes
  import opened Naming
  import opened External
  import opened Pipeline
  import Properties

  /** The file system under the output directory, the collaborators, and a
      record of the calls made to them. */
  class Workspace {
    var files: Files
    ghost var log: seq<Call>
    const env: Services

    constructor (env: Services, files: Files)
      ensures this.env == env && this.files == files && log == []
    {
      this.env := env;
      this.files := files;
      log := [];
    }

    /** download_video: fetch `url` into `path`; the title, or "video" when
        the download reports none. */
    method DownloadVideo(url: string, path: Path) returns (r: Result<string, Failure>)
      modifies this
      ensures var st := Pipeline.DownloadVideo(env, url, path, old(files));
        r == st.result && files == st.files && log == old(log) + st.calls
    {
      log := log + [Fetch(url, path)];
      match env.fetch(url)
      case Raised(m) =>
        r := Err(FetchFailed(m));
      case Done(f) =>
        files := files[path := f.video];
        r := Ok(f.title.GetOr(DEFAULT_TITLE));
    }

    /** extract_audio: write the soundtrack of `videoPath` to `audioPath`. */
    method ExtractAudio(videoPath: Path, audioPath: Path) returns (r: Result<(), Failure>)
      modifies this
      ensures var st := Pipeline.ExtractAudio(env, videoPath, audioPath, old(files));
        r == st.result && files == st.files && log == old(log) + st.calls
    {
      log := log + [Extract(videoPath, audioPath)];
      match env.extract(Read(files, videoPath))
      case Raised(m) =>
        r := Err(ExtractFailed(m));
      case Done(audio) =>
        files := files[audioPath := audio];
        r := Ok(());
    }

    /** transcribe_audio: the recognised text, or the exception it raises. */
    method TranscribeAudio(audioPath: Path) returns (r: Result<string, Failure>)
      modifies this
      ensures var st := Pipeline.TranscribeAudio(env, audioPath, old(files));
        r == st.result && files == st.files && log == old(log) + st.calls
    {
      log := log + [Recognize(audioPath)];
      match env.recognize(Read(files, audioPath))
      case Recognized(text) =>
        r := Ok(text);
      case Unreadable(m) =>
        r := Err(AudioUnreadable(m));
      case Unintelligible =>
        r := Err(AudioNotUnderstood);
      case ServiceUnavailable =>
        r := Err(RecognitionUnavailable);
    }

    /** translate_text for the language at position `k`. */
    method TranslateText(text: string, lang: string, k: nat) returns (r: Result<string, Failure>)
      modifies this
      ensures var st := Pipeline.TranslateText(env, text, lang, k, old(files));
        r == st.result && files == st.files && log == old(log) + st.calls
    {
      log := log + [Translate(text, lang)];
      match env.translate(text, lang, k)
      case Raised(m) =>
        r := Err(TranslationFailed(lang, m));
      case Done(t) =>
        r := Ok(t);
    }

    /** create_subtitle_file: `path` now holds exactly `text`. */
    method CreateSubtitleFile(text: string, path: Path)
      modifies this
      ensures var st := Pipeline.CreateSubtitleFile(text, path, old(files));
        files == st.files && log == old(log) + st.calls
      ensures Read(files, path) == Some(text)
    {
      log := log + [WriteSubtitles(path)];
      files := files[path := text];
    }

    /** text_to_speech for the language at position `k`, saved to `path`. */
    method TextToSpeech(text: string, lang: string, path: Path, k: nat) returns (r: Result<(), Failure>)
      modifies this
      ensures var st := Pipeline.TextToSpeech(env, text, lang, path, k, old(files));
        r == st.result && files == st.files && log == old(log) + st.calls
    {
      log := log + [Synthesize(lang, path)];
      match env.synthesize(text, lang, k)
      case Raised(m) =>
        r := Err(SynthesisFailed(lang, m));
      case Done(speech) =>
        files := files[path := speech];
        r := Ok(());
    }

    /** The video of `videoPath` with the dub of `dubPath` as its soundtrack,
        mixed with the audio of `audioPath` when the original is preserved,
        written to `outPath`. */
    method RemuxDub(lang: string, videoPath: Path, audioPath: Path, dubPath: Path, outPath: Path,
                    preserveOriginal: bool, k: nat) returns (r: Result<(), Failure>)
      modifies this
      ensures var st := Pipeline.RemuxDub(env, lang, videoPath, audioPath, dubPath, outPath, preserveOriginal, k,
                                          old(files));
        r == st.result && files == st.files && log == old(log) + st.calls
    {
      var finalAudio;
      if preserveOriginal {
        finalAudio := Mixed(Read(files, audioPath), ORIGINAL_GAIN, Read(files, dubPath), DUB_GAIN);
      } else {
        finalAudio := DubOnly(Read(files, dubPath));
      }
      log := log + [Remux(videoPath, preserveOriginal, outPath)];
      match env.remux(Read(files, videoPath), finalAudio, k)
      case Raised(m) =>
        r := Err(RemuxFailed(lang, m));
      case Done(v) =>
        files := files[outPath := v];
        r := Ok(());
    }

    /** The body of process_video's loop for `lang`, at position `k`, on the
        transcript `text`; `place` gives each artifact's path. */
    method ProcessLanguage(req: Request, place: Placement, text: string, lang: string, k: nat)
      returns (r: Result<LanguageResult, Failure>)
      modifies this
      ensures var st := Pipeline.ProcessLanguage(env, req, place, text, lang, k, old(files));
        r == st.result && files == st.files && log == old(log) + st.calls
    {
      ghost var log0 := log;
      var entry := LanguageResult(lang, None, None);
      var translated := TranslateText(text, lang, k);
      if translated.Err? {
        return Err(translated.error);
      }
      ghost var tr := Pipeline.TranslateText(env, text, lang, k, old(files));
      ghost var sub := Step(Ok(()), files, []);
      if req.generateSubtitles {
        var subtitlePath := place(Subtitles(lang));
        sub := Pipeline.CreateSubtitleFile(translated.value, subtitlePath, files);
        CreateSubtitleFile(translated.value, subtitlePath);
        entry := entry.(subtitlePath := Some(FileName(Subtitles(lang))));
      }
      Properties.AppendAssoc(log0, tr.calls, sub.calls);
      if req.generateDubbed {
        var dubbedAudioPath := place(DubbedAudio(lang));
        ghost var tts := Pipeline.TextToSpeech(env, translated.value, lang, dubbedAudioPath, k, files);
        var spoken := TextToSpeech(translated.value, lang, dubbedAudioPath, k);
        Properties.AppendAssoc(log0, tr.calls + sub.calls, tts.calls);
        if spoken.Err? {
          return Err(spoken.error);
        }
        var videoPath := place(OriginalVideo);
        var audioPath := place(OriginalAudio);
        var outputVideoPath := place(OutputVideo(lang));
        ghost var mix := Pipeline.RemuxDub(env, lang, videoPath, audioPath, dubbedAudioPath, outputVideoPath,
                                           req.preserveOriginal, k, files);
        var remuxed := RemuxDub(lang, videoPath, audioPath, dubbedAudioPath, outputVideoPath, req.preserveOriginal, k);
        Properties.AppendAssoc(log0, tr.calls + sub.calls + tts.calls, mix.calls);
        if remuxed.Err? {
          return Err(remuxed.error);
        }
        entry := entry.(dubbedPath := Some(FileName(OutputVideo(lang))));
      }
      r := Ok(entry);
    }

    /** Steps 1 and 2 of process_video: download the video, extract its
        audio and transcribe it, each into the output directory. */
    method RunPrefix(req: Request, place: Placement) returns (r: Result<Transcribed, Failure>)
      modifies this
      ensures var st := Pipeline.RunPrefix(env, req, place, old(files));
        r == st.result && files == st.files && log == old(log) + st.calls
    {
      var videoPath := place(OriginalVideo);
      var videoTitle := DownloadVideo(req.url, videoPath);
      if videoTitle.Err? {
        return Err(videoTitle.error);
      }
      var audioPath := place(OriginalAudio);
      var extracted := ExtractAudio(videoPath, audioPath);
      if extracted.Err? {
        return Err(extracted.error);
      }
      var originalText := TranscribeAudio(audioPath);
      if originalText.Err? {
        return Err(originalText.error);
      }
      r := Ok(Transcribed(videoTitle.value, originalText.value));
    }

    /** The loop of process_video over the requested languages, on the
        transcript `text`; the first exception ends it. */
    method FanOut(req: Request, place: Placement, text: string) returns (r: Result<seq<LanguageResult>, Failure>)
      modifies this
      ensures var st := Pipeline.FanOut(LanguageWork(env, req, place, text), req.languages, 0, old(files), []);
        r == st.result && files == st.files && log == old(log) + st.calls
    {
      ghost var work := LanguageWork(env, req, place, text);
      ghost var done: seq<Call> := [];
      var results: seq<LanguageResult> := [];
      var i := 0;
      while i < |req.languages|
        invariant i <= |req.languages|
        invariant log == old(log) + done
        invariant var whole := Pipeline.FanOut(work, req.languages, 0, old(files), []);
          var rest := Pipeline.FanOut(work, req.languages, i, files, results);
          whole.result == rest.result && whole.files == rest.files && whole.calls == done + rest.calls
      {
        ghost var step := work(req.languages[i], i, files);
        Properties.FanOutStep(work, req.languages, i, files, results);
        var entry := ProcessLanguage(req, place, text, req.languages[i], i);
        Properties.AppendAssoc(old(log), done, step.calls);
        if entry.Err? {
          return Err(entry.error);
        }
        Properties.AppendAssoc(done, step.calls,
                               Pipeline.FanOut(work, req.languages, i + 1, files, results + [entry.value]).calls);
        done := done + step.calls;
        results := results + [entry.value];
        i := i + 1;
      }
      assert done + [] == done;
      r := Ok(results);
    }

    /** process_video: download the video, extract and transcribe its audio,
        then for each requested language in order translate the transcript,
        write its subtitles and dub the video as the flags ask, and report
        one entry per language. The first exception ends the call. */
    method ProcessVideo(url: string, languages: seq<string>, outputDir: Path, generateSubtitles: bool := true,
                        generateDubbed: bool := false, preserveOriginal: bool := true)
      returns (r: Result<JobResult, Failure>)
      modifies this
      ensures var st := Pipeline.ProcessVideo(env, Request(url, languages, outputDir, generateSubtitles,
                                                           generateDubbed, preserveOriginal), old(files));
        r == st.result && files == st.files && log == old(log) + st.calls
    {
      var req := Request(url, languages, outputDir, generateSubtitles, generateDubbed, preserveOriginal);
      var place := InDirectory(outputDir);
      ghost var log0 := log;
      var prefix := RunPrefix(req, place);
      if prefix.Err? {
        return Err(prefix.error);
      }
      ghost var prefixCalls := Pipeline.RunPrefix(env, req, place, old(files)).calls;
      ghost var loop := Pipeline.FanOut(LanguageWork(env, req, place, prefix.value.transcript), languages, 0, files, []);
      var results := FanOut(req, place, prefix.value.transcript);
      Properties.AppendAssoc(log0, prefixCalls, loop.calls);
      if results.Err? {
        return Err(results.error);
      }
      r := Ok(JobResult(prefix.value.title, results.value));
    }
  }
}
