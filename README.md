# Video translation pipeline: a verified model of `process_video`

`process_video` in `utils/video_processor.py` takes a video URL, a list of
language codes, an output directory and three flags. It works in three
stages:

- It downloads the video to `original.mp4`.
- It extracts the soundtrack to `original_audio.wav` and transcribes it once.
- It loops over the languages in order. For each one it:
  - translates the transcript;
  - writes `subtitles_{lang}.srt` when subtitles are requested;
  - when dubbing is requested, synthesises `dubbed_{lang}.mp3` and re-muxes the video into `output_{lang}.mp4`. The original voice is mixed in at gain 0.3 under the dub at 0.7 when it is preserved.

It returns the video title (`"video"` when the download reports none) and one
record per requested language. No stage swallows an exception:
`transcribe_audio` and the translator wrappers re-raise what they catch under a
new message, and `process_video` has no `try`, so the first failure ends the
whole call.

The model has six modules.

- `Outcomes`: `Option` (Python's `None`) and `Result` (a raised exception is `Err`).
- `Naming`: the artifacts' file names and POSIX `os.path.join`. It proves that different artifacts never share a path, whatever the language codes are. Paths are compared as exact strings.
- `External`: the collaborators, which are youtube_dl, moviepy, the speech recogniser, googletrans and gTTS.
  - They form a `Services` value of total functions. What a collaborator is given when it reads a file is that file's content, or `None` when the file is missing.
  - The per-language collaborators also receive the language's position in the request, so two calls for the same language may answer differently.
  - `Call` is an entry of the call log and `Failure` is an exception that escapes.
- `Pipeline`: `process_video` as functions.
  - Each stage returns a `Step` that holds the result or exception, the file store after the stage, and the calls it made.
  - `FanOut` is the loop, and `ProcessVideo` is the whole call.
  - A reference model (`Prepare`, `Localize`, `FirstFailure`) says what each collaborator's output should be when outputs are passed on directly rather than through files.
- `Properties`: the lemmas about `Pipeline.ProcessVideo`:
  - the manifest;
  - all-or-nothing failure;
  - the exactly-once job-level stages;
  - flag gating;
  - one translation per entry;
  - what each written file contains;
  - the frame of files written.
- `VideoProcessor`: the class `Workspace`, which runs the code the way the source does.
  - It holds a mutable file store `files: map<Path, Content>` and a ghost call `log`.
  - It has one method per collaborator and the per-language loop.
  - Each method is proved to leave exactly the state, log and result that the matching `Pipeline` function describes. Every lemma in `Properties` therefore holds of it.

Two behaviours of `process_video` are worth stating plainly:

- `process_video` does not isolate per-language failures. It has no `try`, so one failing language ends the whole call with that exception, and no records are returned (`Properties.AllOrNothing`). The languages after the failing one are never begun (`Properties.FanOutStopsAtFailure`).
- `process_video` keeps duplicate language codes. It reports one record for every entry of `languages` (`Properties.Manifest`). A repeated language rewrites its files, and the last occurrence wins (`Properties.WrittenFiles`).

## Model

| member | source | states |
|---|---|---|
| Naming.JoinShape | utils/video_processor.py:39 | joining a relative name to the output directory gives the directory, then a '/' unless the directory is empty or already ends with one, then the name; an absolute name replaces the directory |
| Naming.JoinInjective | utils/video_processor.py:39 | under one output directory, two relative names join to the same path exactly when they are equal |
| Naming.FileName | utils/video_processor.py:39-43 | every artifact name is a relative, non-empty file name (it is `original.mp4`, `original_audio.wav`, `subtitles_{lang}.srt`, `dubbed_{lang}.mp3` or `output_{lang}.mp4`) |
| Naming.FileNamesDistinct | utils/video_processor.py:57-63 | two artifacts share a file name exactly when they are the same artifact, for any language codes |
| Naming.ArtifactPathsDistinct | utils/video_processor.py:79 | inside one output directory two artifacts share a path exactly when they are the same artifact |
| Naming.InDirectoryInjective | utils/video_processor.py:39-79 | the layout process_video uses gives every artifact its own path |
| Pipeline.ProcessLanguage | utils/video_processor.py:50-82 | when the loop body for a language succeeds, its record names the language, `subtitles_{lang}.srt` exactly when subtitles are requested and `output_{lang}.mp4` exactly when dubbing is |
| Pipeline.FanOut | utils/video_processor.py:47-84 | a loop that completes appends exactly one record per remaining language to the records built so far, leaving those unchanged |
| Pipeline.ProcessVideo | utils/video_processor.py:37-89 | a successful call returns one record per requested language, and the title the download reported, or `"video"` when it reported none |
| Pipeline.FirstFailure | utils/video_processor.py:49-84 | the position of the first language whose work fails: every earlier one succeeds, and it fails unless it is the end of the list |
| Pipeline.StagesRun | utils/video_processor.py:39-45 | between one and three job-level stages run, and all three whenever the direct chain of collaborators succeeds |
| Properties.OriginalsApart | utils/video_processor.py:39-79 | per-language files never coincide with the downloaded video or the extracted audio, and those two differ |
| Properties.LanguagePathsDisjoint | utils/video_processor.py:57-79 | two languages share an output path, compared as an exact string, only when they are the same language |
| Properties.ProcessLanguageFrame | utils/video_processor.py:53-82 | the work for one language changes no file other than that language's subtitle, dubbed audio and output video, and only those the flags ask for |
| Properties.ProcessLanguageCalls | utils/video_processor.py:53-80 | the work for one language calls translation of the transcript into that language first and never again; each other call writes that language's own subtitle file, synthesises to its own dubbed-audio path or re-muxes the original video into its own output path, and only when the flags ask for it |
| Properties.DubbedLanguageCalls | utils/video_processor.py:62-80 | the same, for a language whose dubbing is requested and whose translation succeeds |
| Properties.SynthesisFailedCalls | utils/video_processor.py:53-64 | when synthesis raises, the language's calls are exactly the translation, the subtitle write when requested, and the synthesis; no re-mux follows |
| Properties.RemuxCalls | utils/video_processor.py:53-80 | once synthesis succeeds, the language's calls are exactly the translation, the subtitle write when requested, the synthesis and the re-mux, in that order |
| Properties.CallsOfLanguage | utils/video_processor.py:53 | a translation into a language followed by other calls of that language translates exactly once, and every call belongs to the language |
| Properties.ProcessLanguageKeepsOriginals | utils/video_processor.py:53-82 | the work for one language leaves the downloaded video and the extracted audio as they were |
| Properties.ProcessLanguageAgrees | utils/video_processor.py:53-82 | the work for a language fails exactly when translating, synthesising or re-muxing its direct outputs fails, with the same exception |
| Properties.ProcessLanguageDelivers | utils/video_processor.py:32-35 | after a successful language, the subtitle file holds exactly the translation, the dubbed audio the speech, and the output video the re-mux of the original video with the dub (mixed with the original audio when it is preserved) |
| Properties.DubbedLanguageDelivers | utils/video_processor.py:62-82 | with dubbing requested, a successful language leaves the translation in its subtitle file when requested, the speech in its dubbed audio and the re-mux in its output video |
| Properties.TranslatedNone | utils/video_processor.py:53 | a log with no translation call lists no translated language |
| Properties.TranslatedAppend | utils/video_processor.py:53 | the languages translated by two runs of calls, one after the other, are those of the first followed by those of the second |
| Properties.LanguageWorkStaysInOwnFiles | utils/video_processor.py:49-84 | every pass of the loop body writes only its own language's files |
| Properties.LanguageWorkCalls | utils/video_processor.py:49-84 | every pass of the loop body translates the one transcript once and makes only permitted calls |
| Properties.LanguageWorkEntries | utils/video_processor.py:50-84 | every successful pass of the loop body appends the record its language calls for |
| Properties.LanguageWorkKeepsOriginals | utils/video_processor.py:49-84 | no pass of the loop body disturbs the downloaded video or extracted audio |
| Properties.LanguageWorkAgrees | utils/video_processor.py:49-84 | every pass of the loop body fails exactly when the direct outputs for its position fail |
| Properties.LanguageWorkDelivers | utils/video_processor.py:49-84 | every successful pass leaves the direct outputs for its position in its files |
| Properties.FanOutEntries | utils/video_processor.py:47-84 | a loop that completes reports, position by position, the record each requested language calls for |
| Properties.FanOutFrame | utils/video_processor.py:49-84 | the loop writes only files of the languages it handles |
| Properties.FanOutKeepsOriginals | utils/video_processor.py:49-84 | the loop keeps the downloaded video and extracted audio intact |
| Properties.FanOutCalls | utils/video_processor.py:49-84 | every call the loop makes translates the transcript, or writes subtitles, synthesises or re-muxes only when the flags ask for it |
| Properties.FanOutOwnCalls | utils/video_processor.py:49-84 | every call the loop makes belongs to one of the languages it handles |
| Properties.FanOutTranslates | utils/video_processor.py:49-53 | a loop that completes translates into exactly the remaining languages, in order, duplicates included |
| Properties.FanOutSucceeds | utils/video_processor.py:49-84 | the loop completes exactly when the work for every remaining position succeeds |
| Properties.FanOutFails | utils/video_processor.py:49-84 | a loop that raises raises the exception of the first position whose work fails |
| Properties.FanOutTranslatesToFailure | utils/video_processor.py:49-53 | a loop that raises has translated exactly the languages up to and including the first failing one, in order |
| Properties.FanOutTruncates | utils/video_processor.py:49-84 | a loop that raises makes the same calls, writes the same files and raises the same exception as the loop over the languages up to and including the first failing one |
| Properties.LoopUpToCalls | utils/video_processor.py:49-84 | the loop over the languages up to a position makes only calls of the languages it handles |
| Properties.LoopUpToFrame | utils/video_processor.py:49-84 | the loop over the languages up to a position writes only files of the languages it handles |
| Properties.FanOutStopsAtFailure | utils/video_processor.py:49-84 | a loop that raises stops at the first failing language. It is the loop over the languages up to that one and has translated exactly those. Every call it made belongs to one of them, so no later language is written, synthesised or re-muxed. It wrote no file outside theirs |
| Properties.DeliveredKept | utils/video_processor.py:49-84 | the outputs of a language stay in place while later passes write only other paths |
| Properties.LastOccurrenceUntouched | utils/video_processor.py:49-84 | the files of the last occurrence of a language are not written by any later position |
| Properties.FanOutContents | utils/video_processor.py:32-35 | after a loop that completes, each language's files hold the outputs of its last occurrence in the request |
| Properties.LastDeliveredSurvives | utils/video_processor.py:49-84 | what the last occurrence of a language delivered is still in its files when the rest of the loop succeeds |
| Properties.PrefixMatchesReference | utils/video_processor.py:39-45 | download, extraction and transcription succeed exactly when the direct chain of collaborators does, raise its exception otherwise, and on success report its title and transcript and leave its video and audio in place |
| Properties.PrefixCallsInOrder | utils/video_processor.py:39-45 | the job-level stages call download, extraction and transcription in that order, each at most once, and write only the video and audio paths |
| Properties.RunPrefixAgrees | utils/video_processor.py:39-45 | everything `PrefixMatchesReference` and `PrefixCallsInOrder` state, and, in addition, exactly how many stages run. A download that raises is the only call and leaves every file as it was. An extraction that raises ends the stages without writing the audio and without transcription. All three stages run exactly when both download and extraction succeed |
| Properties.PrefixThenLoop | utils/video_processor.py:37-89 | once the job-level stages succeed, process_video is those stages followed by the loop, whose outcome and files it returns |
| Properties.LoopEntries | utils/video_processor.py:47-84 | process_video's loop, when it completes, holds at each position the record the request calls for at that position |
| Properties.Manifest | utils/video_processor.py:47-50 | a successful process_video returns exactly one record per requested language, in order and duplicates kept, each naming that language and the files the flags ask for |
| Properties.AllOrNothing | utils/video_processor.py:37-89 | process_video succeeds exactly when every stage for every language succeeds; otherwise it raises the exception of the job-level stage or of the first language that failed |
| Properties.PrefixFails | utils/video_processor.py:39-45 | when a job-level stage fails, process_video raises its exception, and its calls are exactly the stages up to the failing one, with no extraction after a failed download and no transcription after a failed extraction and nothing after them. A failed download leaves every file as it was, a failed extraction writes no audio, and no path other than the video and audio changes |
| Properties.JobStagesRunOnce | utils/video_processor.py:39-49 | download, extraction and transcription are the first calls, in that order, each at most once and never again afterwards; the loop starts only after all three succeed |
| Properties.OnlyRequestedWork | utils/video_processor.py:49-82 | every call after the job-level stages translates the single transcript, or writes subtitles or dubs only when the flags ask for it |
| Properties.FlagsGateWork | utils/video_processor.py:56-62 | without dubbing, no speech is synthesised and no video re-muxed; without subtitles, no subtitle file is written |
| Properties.TranslatesEachLanguageOnce | utils/video_processor.py:45-53 | a successful call translates the transcript once per requested entry, in order; a failing one translates up to the first failing language, or nothing when a job-level stage failed |
| Properties.WrittenFiles | utils/video_processor.py:32-82 | after success, the video and audio files hold what was downloaded and extracted, and each language's subtitle, dubbed audio and output video hold its translation, speech and re-mux |
| Properties.NothingElseWritten | utils/video_processor.py:37-89 | process_video writes no file other than the video, the audio and the requested files of the requested languages, whether or not it succeeds |
| VideoProcessor.Workspace.constructor | utils/video_processor.py:37 | a workspace starts with the given files, the given collaborators and an empty log |
| VideoProcessor.Workspace.DownloadVideo | utils/video_processor.py:7-15 | records the fetch; on success writes the video to its path and returns the title, or `"video"` when none is reported; otherwise raises and writes nothing |
| VideoProcessor.Workspace.ExtractAudio | utils/video_processor.py:17-19 | records the extraction and writes the soundtrack of the video file to the audio path, or raises and writes nothing |
| VideoProcessor.Workspace.TranscribeAudio | utils/video_processor.py:21-30 | records the recognition and returns the text, or raises one of the two recogniser messages or the file error |
| VideoProcessor.Workspace.TranslateText | utils/video_processor.py:53 | records the translation of the transcript into the language and returns it or raises |
| VideoProcessor.Workspace.CreateSubtitleFile | utils/video_processor.py:32-35 | afterwards the file at the path holds exactly the text, and no other file changes |
| VideoProcessor.Workspace.TextToSpeech | utils/video_processor.py:64 | records the synthesis and writes the speech to the dubbed audio path, or raises |
| VideoProcessor.Workspace.RemuxDub | utils/video_processor.py:67-80 | records the re-mux of the video with the dub, mixed at gains 0.3 and 0.7 with the original audio when it is preserved, and writes it to the output path, or raises |
| VideoProcessor.Workspace.ProcessLanguage | utils/video_processor.py:50-82 | one pass of the loop body leaves the files, log and record that `Pipeline.ProcessLanguage` describes |
| VideoProcessor.Workspace.RunPrefix | utils/video_processor.py:39-45 | the job-level stages leave the files, log and title/transcript that `Pipeline.RunPrefix` describes |
| VideoProcessor.Workspace.FanOut | utils/video_processor.py:47-84 | the loop over the languages leaves the files, log and records that `Pipeline.FanOut` describes |
| VideoProcessor.Workspace.ProcessVideo | utils/video_processor.py:37-89 | the whole call leaves the files, log and outcome `Pipeline.ProcessVideo` describes, so every lemma of `Properties` holds of it |

## Left out

- The internals of the collaborators are not modelled: the youtube_dl download and its format options, moviepy's decoding and encoding, Google speech recognition, googletrans and gTTS. Each is an arbitrary total function of what it is given, plus the language's position for the per-language ones.
- The audio mixing is floating-point signal processing and libx264 encoding. Only the choice of track survives, with the gains 0.3 and 0.7 as constants passed to the opaque re-mux.
- `utils/utils/translator.py` is not part of this model. Its `translate_text` and `text_to_speech` are wrappers over network clients and stand behind `Services.translate` and `Services.synthesize`.
- app.py is not part of this model: the HTTP routing, upload limits, job ids and creation of the output directory. Its guard against an empty URL or language list is not a precondition here; with no languages the model returns an empty record list.
- Exceptions raised while opening the clips for the re-mux (lines 67-76) are folded into the re-mux's own failure.
- A collaborator that raises is modelled as having written nothing. Partially written files after an exception are not modelled.
- A download into a directory that already holds `original.mp4` is not modelled: `Services.fetch` sees only the URL, so the model always writes the fetched video, whereas youtube_dl by default skips a target file that already exists and keeps its old content. The program's only caller, app.py, always passes a fresh directory.
- `create_subtitle_file` is modelled as never failing. Two failures of the write at line 34 are not modelled: a disk error, and the `UnicodeEncodeError` raised when `open` uses a non-UTF-8 locale encoding (such as the Windows default cp1252) for a translation it cannot encode, such as Hindi, Japanese or Russian. Either would end the whole job.
- `Naming.Join` follows POSIX `os.path.join` for one component. There is no normalisation of `..` or of repeated separators.
- Paths are compared as exact strings. A file system that folds case, as the macOS and Windows defaults do, is not modelled. On one, `languages=["en", "EN"]` makes `subtitles_EN.srt` overwrite `subtitles_en.srt`, and the path-distinctness and file-content lemmas then do not hold.
- The call log is ghost state. It records which collaborator ran on what, not the time or any side effect outside the file store.
