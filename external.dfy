/** The collaborators process_video calls but whose internals are not part of
    this model: the youtube_dl downloader, moviepy's audio extraction, Google
    speech recognition, googletrans, gTTS and moviepy's remux. Each one is a
    total function from what it is given to what it answers, and what it is
    given when it reads a file is the file's content, or None when the file is
    missing. */
module External {
  import opened Outcomes
  import opened Naming

  /** The bytes of a media or text file, left uninterpreted. */
  type Content = string

  /** What an external call answers: a value, or an exception with its text. */
  datatype Reply<T> = Done(value: T) | Raised(message: string)

  /** A finished download: the video file it wrote and the `title` entry of
      the info dictionary, when there is one. */
  datatype Fetched = Fetched(video: Content, title: Option<string>)

  /** The outcomes of transcription: the text; the audio file could not be
      opened; or one of the two errors the recogniser reports. */
  datatype Recognition =
    | Recognized(text: string)
    | Unreadable(message: string)
    | Unintelligible
    | ServiceUnavailable

  /** The fixed gains applied when the original voice is kept under the dub. */
  const ORIGINAL_GAIN: real := 0.3
  const DUB_GAIN: real := 0.7

  /** The audio track handed to the remux: the dub alone, or the original
      audio and the dub mixed at the given gains. */
  datatype Soundtrack =
    | DubOnly(dub: Option<Content>)
    | Mixed(original: Option<Content>, originalGain: real, dub: Option<Content>, dubGain: real)

  /** The collaborators. The `nat` given to the per-language ones is the
      position of the language in the request, so two calls for the same
      language may answer differently, as the network services may. */
  datatype Services = Services(
    fetch: string -> Reply<Fetched>,
    extract: Option<Content> -> Reply<Content>,
    recognize: Option<Content> -> Recognition,
    translate: (string, string, nat) -> Reply<string>,
    synthesize: (string, string, nat) -> Reply<Content>,
    remux: (Option<Content>, Soundtrack, nat) -> Reply<Content>)

  /** One entry of the call log: which operation ran, on what. */
  datatype Call =
    | Fetch(url: string, path: Path)
    | Extract(video: Path, audio: Path)
    | Recognize(audio: Path)
    | Translate(text: string, language: string)
    | WriteSubtitles(path: Path)
    | Synthesize(language: string, path: Path)
    | Remux(video: Path, preserveOriginal: bool, output: Path)

  /** The exceptions that can escape process_video, by the stage that raised
      them. `AudioNotUnderstood` and `RecognitionUnavailable` are the two
      messages transcription raises ("Could not understand audio" and "Could
      not request results from speech recognition service"). */
  datatype Failure =
    | FetchFailed(message: string)
    | ExtractFailed(message: string)
    | AudioUnreadable(message: string)
    | AudioNotUnderstood
    | RecognitionUnavailable
    | TranslationFailed(language: string, message: string)
    | SynthesisFailed(language: string, message: string)
    | RemuxFailed(language: string, message: string)

  /** Transcription's answer as process_video sees it. */
  function Transcription(r: Recognition): Result<string, Failure> {
    match r
    case Recognized(text) => Ok(text)
    case Unreadable(m) => Err(AudioUnreadable(m))
    case Unintelligible => Err(AudioNotUnderstood)
    case ServiceUnavailable => Err(RecognitionUnavailable)
  }

  /** The track the remux is given: mixed when the original voice is kept. */
  function MixFor(preserveOriginal: bool, original: Option<Content>, dub: Option<Content>): Soundtrack {
    if preserveOriginal then Mixed(original, ORIGINAL_GAIN, dub, DUB_GAIN) else DubOnly(dub)
  }
}
