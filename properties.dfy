/** What process_video promises, proved about the functions of `Pipeline`:
    the exactly-once job-level stages, flag gating, the all-or-nothing
    outcome, one translation per requested language, and what the written
    files contain. The loop lemmas hold for any placement that gives
    different artifacts different paths; the last group instantiates them
    with the output directory's layout. */
module Properties {
  import opened Outcomes
  import opened Naming
  import opened External
  import opened Pipeline

  // ---- Paths ----

  /** The per-language files never touch the original video or audio, and
      those two are different files. */
  lemma OriginalsApart(req: Request, place: Placement, lang: string)
    requires Injective(place)
    ensures place(OriginalVideo) != place(OriginalAudio)
    ensures place(OriginalVideo) !in LanguagePaths(req, place, lang)
    ensures place(OriginalAudio) !in LanguagePaths(req, place, lang)
  {
  }

  /** Two languages share a file only when they are the same language. */
  lemma LanguagePathsDisjoint(req: Request, place: Placement, l1: string, l2: string, q: Path)
    requires Injective(place)
    requires q in LanguagePaths(req, place, l1) && q in LanguagePaths(req, place, l2)
    ensures l1 == l2
  {
  }

  // ---- One language ----

  /** The original video and audio hold what the job-level stages produced. */
  predicate HoldsOriginals(place: Placement, p: Prepared, files: Files) {
    Read(files, place(OriginalVideo)) == Some(p.video) && Read(files, place(OriginalAudio)) == Some(p.audio)
  }

  /** The work for one language writes only that language's files. */
  lemma ProcessLanguageFrame(env: Services, req: Request, place: Placement, text: string, lang: string, k: nat,
                             files: Files)
    ensures forall q :: q !in LanguagePaths(req, place, lang) ==>
      Read(ProcessLanguage(env, req, place, text, lang, k, files).files, q) == Read(files, q)
  {
  }

  /** The work for one language translates `text` into `lang` as its first
      call and only then, and its other calls write, synthesise or re-mux
      that language's own files, each only when the flags ask for it. */
  lemma ProcessLanguageCalls(env: Services, req: Request, place: Placement, text: string, lang: string, k: nat,
                             files: Files)
    ensures var calls := ProcessLanguage(env, req, place, text, lang, k, files).calls;
      |calls| >= 1 && calls[0] == Translate(text, lang) && Translated(calls) == [lang] &&
      forall c :: c in calls ==> LanguageCall(req, place, text, lang, c)
  {
    var st := ProcessLanguage(env, req, place, text, lang, k, files);
    var tr := TranslateText(env, text, lang, k, files);
    if tr.result.Err? {
      CallsOfLanguage(req, place, text, lang, st.calls, []);
    } else if !req.generateDubbed {
      var sub :=
        if req.generateSubtitles then CreateSubtitleFile(tr.result.value, place(Subtitles(lang)), tr.files)
        else Step(Ok(()), tr.files, []);
      CallsOfLanguage(req, place, text, lang, st.calls, sub.calls);
    } else {
      DubbedLanguageCalls(env, req, place, text, lang, k, files);
    }
  }

  /** The calls of the work for one language when dubbing is requested and
      the translation succeeds. */
  lemma DubbedLanguageCalls(env: Services, req: Request, place: Placement, text: string, lang: string, k: nat,
                            files: Files)
    requires req.generateDubbed && env.translate(text, lang, k).Done?
    ensures var calls := ProcessLanguage(env, req, place, text, lang, k, files).calls;
      |calls| >= 1 && calls[0] == Translate(text, lang) && Translated(calls) == [lang] &&
      forall c :: c in calls ==> LanguageCall(req, place, text, lang, c)
  {
    var written := if req.generateSubtitles then [WriteSubtitles(place(Subtitles(lang)))] else [];
    var spoken := written + [Synthesize(lang, place(DubbedAudio(lang)))];
    DubbingCallsOwned(req, place, text, lang);
    if env.synthesize(env.translate(text, lang, k).value, lang, k).Raised? {
      SynthesisFailedCalls(env, req, place, text, lang, k, files, spoken);
      CallsOfLanguage(req, place, text, lang, [Translate(text, lang)] + spoken, spoken);
    } else {
      var remuxed := spoken + [Remux(place(OriginalVideo), req.preserveOriginal, place(OutputVideo(lang)))];
      RemuxCalls(env, req, place, text, lang, k, files, remuxed);
      CallsOfLanguage(req, place, text, lang, [Translate(text, lang)] + remuxed, remuxed);
    }
  }

  /** The calls that follow the translation when dubbing is requested all
      belong to that language, and none of them translates. */
  lemma DubbingCallsOwned(req: Request, place: Placement, text: string, lang: string)
    requires req.generateDubbed
    ensures var written := if req.generateSubtitles then [WriteSubtitles(place(Subtitles(lang)))] else [];
      var spoken := written + [Synthesize(lang, place(DubbedAudio(lang)))];
      var remuxed := spoken + [Remux(place(OriginalVideo), req.preserveOriginal, place(OutputVideo(lang)))];
      (forall c :: c in spoken ==> LanguageCall(req, place, text, lang, c) && !c.Translate?) &&
      (forall c :: c in remuxed ==> LanguageCall(req, place, text, lang, c) && !c.Translate?)
  {
  }

  /** When synthesis raises, the work for one language has translated,
      perhaps written the subtitles, and tried to synthesise. */
  lemma SynthesisFailedCalls(env: Services, req: Request, place: Placement, text: string, lang: string, k: nat,
                             files: Files, spoken: seq<Call>)
    requires req.generateDubbed && env.translate(text, lang, k).Done?
    requires env.synthesize(env.translate(text, lang, k).value, lang, k).Raised?
    requires spoken ==
      (if req.generateSubtitles then [WriteSubtitles(place(Subtitles(lang)))] else []) +
      [Synthesize(lang, place(DubbedAudio(lang)))]
    ensures ProcessLanguage(env, req, place, text, lang, k, files).calls == [Translate(text, lang)] + spoken
  {
  }

  /** Once synthesis succeeds, the work for one language has translated,
      perhaps written the subtitles, synthesised and re-muxed. */
  lemma RemuxCalls(env: Services, req: Request, place: Placement, text: string, lang: string, k: nat,
                   files: Files, remuxed: seq<Call>)
    requires req.generateDubbed && env.translate(text, lang, k).Done?
    requires env.synthesize(env.translate(text, lang, k).value, lang, k).Done?
    requires remuxed ==
      (if req.generateSubtitles then [WriteSubtitles(place(Subtitles(lang)))] else []) +
      [Synthesize(lang, place(DubbedAudio(lang))), Remux(place(OriginalVideo), req.preserveOriginal,
                                                        place(OutputVideo(lang)))]
    ensures ProcessLanguage(env, req, place, text, lang, k, files).calls == [Translate(text, lang)] + remuxed
  {
  }

  /** A translation of `text` into `lang` followed by other calls of that
      language translates once, into `lang`. */
  lemma CallsOfLanguage(req: Request, place: Placement, text: string, lang: string, calls: seq<Call>,
                        rest: seq<Call>)
    requires calls == [Translate(text, lang)] + rest
    requires forall c :: c in rest ==> LanguageCall(req, place, text, lang, c) && !c.Translate?
    ensures forall c :: c in calls ==> LanguageCall(req, place, text, lang, c)
    ensures Translated(calls) == [lang]
  {
    assert calls[1..] == rest;
    TranslatedNone(rest);
  }

  /** The work for one language leaves the original video and audio alone. */
  lemma ProcessLanguageKeepsOriginals(env: Services, req: Request, place: Placement, p: Prepared, lang: string,
                                      k: nat, files: Files)
    requires Injective(place)
    requires HoldsOriginals(place, p, files)
    ensures HoldsOriginals(place, p, ProcessLanguage(env, req, place, p.transcript, lang, k, files).files)
  {
    OriginalsApart(req, place, lang);
    ProcessLanguageFrame(env, req, place, p.transcript, lang, k, files);
  }

  /** Given the originals, the work for the language at position `k` fails
      exactly when the reference model does, with the same exception. */
  lemma ProcessLanguageAgrees(env: Services, req: Request, place: Placement, p: Prepared, k: nat, files: Files)
    requires k < |req.languages|
    requires Injective(place)
    requires HoldsOriginals(place, p, files)
    ensures var st := ProcessLanguage(env, req, place, p.transcript, req.languages[k], k, files);
      var o := Localize(env, req, p, k);
      (st.result.Ok? <==> o.Ok?) &&
      (st.result.Err? ==> st.result.error == o.error)
  {
    OriginalsApart(req, place, req.languages[k]);
  }

  /** The files of the language at position `k` hold what the reference
      model produces for that position: the subtitle file holds the
      translation, the dubbed audio the speech, the output video the remux. */
  predicate Delivered(env: Services, req: Request, place: Placement, p: Prepared, k: nat, files: Files)
    requires k < |req.languages|
  {
    var lang := req.languages[k];
    Localize(env, req, p, k).Ok? &&
    var o := Localize(env, req, p, k).value;
    (req.generateSubtitles ==> Read(files, place(Subtitles(lang))) == Some(o.translation)) &&
    (req.generateDubbed ==>
      Read(files, place(DubbedAudio(lang))) == o.speech && Read(files, place(OutputVideo(lang))) == o.output)
  }

  /** Given the originals, a successful run of the work for the language at
      position `k` leaves the reference model's outputs in its files. */
  lemma ProcessLanguageDelivers(env: Services, req: Request, place: Placement, p: Prepared, k: nat, files: Files)
    requires k < |req.languages|
    requires Injective(place)
    requires HoldsOriginals(place, p, files)
    ensures var st := ProcessLanguage(env, req, place, p.transcript, req.languages[k], k, files);
      st.result.Ok? ==> Delivered(env, req, place, p, k, st.files)
  {
    if req.generateDubbed {
      DubbedLanguageDelivers(env, req, place, p, k, files);
    } else {
      OriginalsApart(req, place, req.languages[k]);
    }
  }

  /** `ProcessLanguageDelivers` when dubbing is requested. */
  lemma DubbedLanguageDelivers(env: Services, req: Request, place: Placement, p: Prepared, k: nat, files: Files)
    requires k < |req.languages| && req.generateDubbed
    requires Injective(place)
    requires HoldsOriginals(place, p, files)
    ensures var st := ProcessLanguage(env, req, place, p.transcript, req.languages[k], k, files);
      st.result.Ok? ==> Delivered(env, req, place, p, k, st.files)
  {
    OriginalsApart(req, place, req.languages[k]);
  }

  // ---- The call log ----

  lemma {:induction false} TranslatedNone(calls: seq<Call>)
    requires forall c :: c in calls ==> !c.Translate?
    ensures Translated(calls) == []
    decreases |calls|
  {
    if calls != [] {
      TranslatedNone(calls[1..]);
    }
  }

  lemma {:induction false} TranslatedAppend(a: seq<Call>, b: seq<Call>)
    ensures Translated(a + b) == Translated(a) + Translated(b)
    decreases |a|
  {
    if a == [] {
      assert a + b == b;
    } else {
      assert (a + b)[0] == a[0];
      assert (a + b)[1..] == a[1..] + b;
      TranslatedAppend(a[1..], b);
    }
  }

  // ---- What the loop needs of its body ----

  /** The body writes only the files of the language it is given. */
  ghost predicate StaysInOwnFiles(work: Work, req: Request, place: Placement) {
    forall lang, k, f, q {:trigger Read(work(lang, k, f).files, q)} ::
      q !in LanguagePaths(req, place, lang) ==> Read(work(lang, k, f).files, q) == Read(f, q)
  }

  /** The body translates into the language it is given, once. */
  ghost predicate TranslatesOnce(work: Work) {
    forall lang, k, f {:trigger work(lang, k, f)} :: Translated(work(lang, k, f).calls) == [lang]
  }

  /** The body makes only the calls of the language it is given. */
  ghost predicate MakesOwnCalls(work: Work, req: Request, place: Placement, text: string) {
    forall lang, k, f {:trigger work(lang, k, f)} ::
      forall c :: c in work(lang, k, f).calls ==> LanguageCall(req, place, text, lang, c)
  }

  /** The body reports the entry the request calls for. */
  ghost predicate ReportsEntries(work: Work, req: Request) {
    forall lang, k, f {:trigger work(lang, k, f)} :: work(lang, k, f).result.Ok? ==> work(lang, k, f).result.value == Entry(req, lang)
  }

  /** The body leaves the original video and audio alone. */
  ghost predicate KeepsOriginals(work: Work, place: Placement, p: Prepared) {
    forall lang, k, f {:trigger work(lang, k, f)} ::
      HoldsOriginals(place, p, f) ==> HoldsOriginals(place, p, work(lang, k, f).files)
  }

  /** Given the originals, the body at each position fails exactly when the
      reference model does, with the same exception. */
  ghost predicate AgreesWithReference(work: Work, env: Services, req: Request, place: Placement, p: Prepared) {
    forall k: nat, f {:trigger work(req.languages[k], k, f)} :: k < |req.languages| && HoldsOriginals(place, p, f) ==>
      var st := work(req.languages[k], k, f);
      (st.result.Ok? <==> Localize(env, req, p, k).Ok?) &&
      (st.result.Err? ==> st.result.error == Localize(env, req, p, k).error)
  }

  /** Given the originals, a successful body leaves the reference model's
      outputs in the files of its language. */
  ghost predicate DeliversReference(work: Work, env: Services, req: Request, place: Placement, p: Prepared) {
    forall k: nat, f {:trigger work(req.languages[k], k, f)} ::
      k < |req.languages| && HoldsOriginals(place, p, f) && work(req.languages[k], k, f).result.Ok? ==>
      Delivered(env, req, place, p, k, work(req.languages[k], k, f).files)
  }

  /** process_video's loop body writes only the files of its language. */
  lemma LanguageWorkStaysInOwnFiles(env: Services, req: Request, place: Placement, text: string)
    ensures StaysInOwnFiles(LanguageWork(env, req, place, text), req, place)
  {
    var work := LanguageWork(env, req, place, text);
    forall lang, k, f, q | q !in LanguagePaths(req, place, lang)
      ensures Read(work(lang, k, f).files, q) == Read(f, q)
    {
      ProcessLanguageFrame(env, req, place, text, lang, k, f);
    }
  }

  /** process_video's loop body translates the transcript once and makes
      only its language's calls. */
  lemma LanguageWorkCalls(env: Services, req: Request, place: Placement, text: string)
    ensures var work := LanguageWork(env, req, place, text);
      TranslatesOnce(work) && MakesOwnCalls(work, req, place, text)
  {
    var work := LanguageWork(env, req, place, text);
    forall lang, k, f
      ensures Translated(work(lang, k, f).calls) == [lang] &&
              forall c :: c in work(lang, k, f).calls ==> LanguageCall(req, place, text, lang, c)
    {
      ProcessLanguageCalls(env, req, place, text, lang, k, f);
    }
  }

  /** process_video's loop body reports the entry the request calls for. */
  lemma LanguageWorkEntries(env: Services, req: Request, place: Placement, text: string)
    ensures ReportsEntries(LanguageWork(env, req, place, text), req)
  {
  }

  /** process_video's loop body keeps the original video and audio. */
  lemma LanguageWorkKeepsOriginals(env: Services, req: Request, place: Placement, p: Prepared)
    requires Injective(place)
    ensures KeepsOriginals(LanguageWork(env, req, place, p.transcript), place, p)
  {
    var work := LanguageWork(env, req, place, p.transcript);
    forall lang, k, f | HoldsOriginals(place, p, f) ensures HoldsOriginals(place, p, work(lang, k, f).files) {
      ProcessLanguageKeepsOriginals(env, req, place, p, lang, k, f);
    }
  }

  /** process_video's loop body fails exactly when the reference model does. */
  lemma LanguageWorkAgrees(env: Services, req: Request, place: Placement, p: Prepared)
    requires Injective(place)
    ensures AgreesWithReference(LanguageWork(env, req, place, p.transcript), env, req, place, p)
  {
    var work := LanguageWork(env, req, place, p.transcript);
    forall k: nat, f | k < |req.languages| && HoldsOriginals(place, p, f)
      ensures var st := work(req.languages[k], k, f);
        (st.result.Ok? <==> Localize(env, req, p, k).Ok?) &&
        (st.result.Err? ==> st.result.error == Localize(env, req, p, k).error)
    {
      ProcessLanguageAgrees(env, req, place, p, k, f);
    }
  }

  /** process_video's loop body delivers the reference model's outputs. */
  lemma LanguageWorkDelivers(env: Services, req: Request, place: Placement, p: Prepared)
    requires Injective(place)
    ensures DeliversReference(LanguageWork(env, req, place, p.transcript), env, req, place, p)
  {
    var work := LanguageWork(env, req, place, p.transcript);
    forall k: nat, f | k < |req.languages| && HoldsOriginals(place, p, f) && work(req.languages[k], k, f).result.Ok?
      ensures Delivered(env, req, place, p, k, work(req.languages[k], k, f).files)
    {
      ProcessLanguageDelivers(env, req, place, p, k, f);
    }
  }

  // ---- The loop ----

  /** No language from position `i` on may write `q`. */
  ghost predicate Untouched(req: Request, place: Placement, i: nat, q: Path) {
    forall m :: i <= m < |req.languages| ==> q !in LanguagePaths(req, place, req.languages[m])
  }

  lemma AppendAssoc<T>(a: seq<T>, b: seq<T>, c: seq<T>)
    ensures (a + b) + c == a + (b + c)
  {
  }

  /** One turn of the loop: the body for position `i`, then the rest. */
  lemma FanOutStep(work: Work, langs: seq<string>, i: nat, files: Files, acc: seq<LanguageResult>)
    requires i < |langs|
    ensures var st := work(langs[i], i, files);
      var whole := FanOut(work, langs, i, files, acc);
      (st.result.Err? ==> whole == Step(Err(st.result.error), st.files, st.calls)) &&
      (st.result.Ok? ==>
        var rest := FanOut(work, langs, i + 1, st.files, acc + [st.result.value]);
        whole == Step(rest.result, rest.files, st.calls + rest.calls))
  {
  }

  /** A successful loop reports, position by position, the entry the
      request calls for. */
  lemma {:induction false} FanOutEntries(work: Work, req: Request, i: nat, files: Files, acc: seq<LanguageResult>)
    requires i <= |req.languages|
    requires ReportsEntries(work, req)
    ensures var st := FanOut(work, req.languages, i, files, acc);
      st.result.Ok? ==>
        forall j :: i <= j < |req.languages| ==> st.result.value[|acc| + j - i] == Entry(req, req.languages[j])
    decreases |req.languages| - i
  {
    if i < |req.languages| {
      var st := work(req.languages[i], i, files);
      if st.result.Ok? {
        var acc' := acc + [st.result.value];
        var rest := FanOut(work, req.languages, i + 1, st.files, acc');
        FanOutEntries(work, req, i + 1, st.files, acc');
        if rest.result.Ok? {
          assert rest.result.value[|acc|] == acc'[|acc|];
        }
      }
    }
  }

  /** The loop from position `i` writes only the files of the languages it
      handles. */
  lemma {:induction false} FanOutFrame(work: Work, req: Request, place: Placement, i: nat, files: Files,
                                       acc: seq<LanguageResult>)
    requires i <= |req.languages|
    requires StaysInOwnFiles(work, req, place)
    ensures var st := FanOut(work, req.languages, i, files, acc);
      forall q :: Untouched(req, place, i, q) ==> Read(st.files, q) == Read(files, q)
    decreases |req.languages| - i
  {
    if i < |req.languages| {
      var st := work(req.languages[i], i, files);
      if st.result.Ok? {
        FanOutFrame(work, req, place, i + 1, st.files, acc + [st.result.value]);
      }
    }
  }

  /** The loop keeps the original video and audio. */
  lemma {:induction false} FanOutKeepsOriginals(work: Work, req: Request, place: Placement, p: Prepared, i: nat,
                                                files: Files, acc: seq<LanguageResult>)
    requires i <= |req.languages|
    requires KeepsOriginals(work, place, p)
    requires HoldsOriginals(place, p, files)
    ensures HoldsOriginals(place, p, FanOut(work, req.languages, i, files, acc).files)
    decreases |req.languages| - i
  {
    if i < |req.languages| {
      var st := work(req.languages[i], i, files);
      if st.result.Ok? {
        FanOutKeepsOriginals(work, req, place, p, i + 1, st.files, acc + [st.result.value]);
      }
    }
  }

  /** Every call the loop makes is one the request permits. */
  lemma {:induction false} FanOutCalls(work: Work, req: Request, place: Placement, text: string, i: nat,
                                       files: Files, acc: seq<LanguageResult>)
    requires i <= |req.languages|
    requires MakesOwnCalls(work, req, place, text)
    ensures forall c :: c in FanOut(work, req.languages, i, files, acc).calls ==> Permitted(req, text, c)
    decreases |req.languages| - i
  {
    if i < |req.languages| {
      var st := work(req.languages[i], i, files);
      forall c | c in st.calls ensures Permitted(req, text, c) {
        assert LanguageCall(req, place, text, req.languages[i], c);
      }
      if st.result.Ok? {
        FanOutCalls(work, req, place, text, i + 1, st.files, acc + [st.result.value]);
      }
    }
  }

  /** Every call the loop makes belongs to one of the languages from
      position `i` on. */
  lemma {:induction false} FanOutOwnCalls(work: Work, req: Request, place: Placement, text: string, i: nat,
                                          files: Files, acc: seq<LanguageResult>)
    requires i <= |req.languages|
    requires MakesOwnCalls(work, req, place, text)
    ensures forall c :: c in FanOut(work, req.languages, i, files, acc).calls ==>
      exists m :: i <= m < |req.languages| && LanguageCall(req, place, text, req.languages[m], c)
    decreases |req.languages| - i
  {
    if i < |req.languages| {
      var st := work(req.languages[i], i, files);
      forall c | c in st.calls ensures LanguageCall(req, place, text, req.languages[i], c) {
      }
      if st.result.Ok? {
        FanOutOwnCalls(work, req, place, text, i + 1, st.files, acc + [st.result.value]);
      }
    }
  }

  /** A successful loop translates each language from position `i`, once
      and in order. */
  lemma {:induction false} FanOutTranslates(work: Work, req: Request, i: nat, files: Files, acc: seq<LanguageResult>)
    requires i <= |req.languages|
    requires TranslatesOnce(work)
    ensures var st := FanOut(work, req.languages, i, files, acc);
      st.result.Ok? ==> Translated(st.calls) == req.languages[i..]
    decreases |req.languages| - i
  {
    var langs := req.languages;
    if i < |langs| {
      var st := work(langs[i], i, files);
      if st.result.Ok? {
        var acc' := acc + [st.result.value];
        var rest := FanOut(work, langs, i + 1, st.files, acc');
        FanOutTranslates(work, req, i + 1, st.files, acc');
        TranslatedAppend(st.calls, rest.calls);
        assert langs[i..] == [langs[i]] + langs[i + 1..];
      }
    }
  }

  /** The loop succeeds exactly when every language's work succeeds in the
      reference model. */
  lemma {:induction false} FanOutSucceeds(work: Work, env: Services, req: Request, place: Placement, p: Prepared,
                                          i: nat, files: Files, acc: seq<LanguageResult>)
    requires i <= |req.languages|
    requires KeepsOriginals(work, place, p) && AgreesWithReference(work, env, req, place, p)
    requires HoldsOriginals(place, p, files)
    ensures FanOut(work, req.languages, i, files, acc).result.Ok? <==>
      forall j :: i <= j < |req.languages| ==> Localize(env, req, p, j).Ok?
    decreases |req.languages| - i
  {
    if i < |req.languages| {
      var st := work(req.languages[i], i, files);
      if st.result.Ok? {
        FanOutSucceeds(work, env, req, place, p, i + 1, st.files, acc + [st.result.value]);
      }
    }
  }

  /** The first failure from `i` is `i` itself, or lies beyond it. */
  lemma FirstFailureStep(env: Services, req: Request, p: Prepared, i: nat)
    requires i < |req.languages|
    ensures Localize(env, req, p, i).Err? ==> FirstFailure(env, req, p, i) == i
    ensures Localize(env, req, p, i).Ok? ==> FirstFailure(env, req, p, i) == FirstFailure(env, req, p, i + 1)
  {
  }

  /** A failing loop raises the exception of the first language whose work
      fails in the reference model. */
  lemma {:induction false} FanOutFails(work: Work, env: Services, req: Request, place: Placement, p: Prepared,
                                       i: nat, files: Files, acc: seq<LanguageResult>)
    requires i <= |req.languages|
    requires KeepsOriginals(work, place, p) && AgreesWithReference(work, env, req, place, p)
    requires HoldsOriginals(place, p, files)
    ensures var st := FanOut(work, req.languages, i, files, acc);
      var j := FirstFailure(env, req, p, i);
      st.result.Err? ==> j < |req.languages| && st.result.error == Localize(env, req, p, j).error
    decreases |req.languages| - i
  {
    if i < |req.languages| {
      var st := work(req.languages[i], i, files);
      FirstFailureStep(env, req, p, i);
      if st.result.Ok? {
        FanOutFails(work, env, req, place, p, i + 1, st.files, acc + [st.result.value]);
      }
    }
  }

  /** `s[i..j + 1]` is `s[i]` followed by `s[i + 1..j + 1]`. */
  lemma SliceCons(s: seq<string>, i: nat, j: nat)
    requires i <= j < |s|
    ensures s[i..j + 1] == [s[i]] + s[i + 1..j + 1]
  {
  }

  /** A failing loop has translated exactly the languages up to and
      including the first one whose work fails. */
  lemma {:induction false} FanOutTranslatesToFailure(work: Work, env: Services, req: Request, place: Placement,
                                                     p: Prepared, i: nat, files: Files, acc: seq<LanguageResult>)
    requires i <= |req.languages|
    requires KeepsOriginals(work, place, p) && AgreesWithReference(work, env, req, place, p)
    requires TranslatesOnce(work)
    requires HoldsOriginals(place, p, files)
    ensures var st := FanOut(work, req.languages, i, files, acc);
      var j := FirstFailure(env, req, p, i);
      st.result.Err? ==> j < |req.languages| && Translated(st.calls) == req.languages[i..j + 1]
    decreases |req.languages| - i
  {
    var langs := req.languages;
    if i < |langs| {
      var st := work(langs[i], i, files);
      FirstFailureStep(env, req, p, i);
      FanOutStep(work, langs, i, files, acc);
      if st.result.Err? {
        SliceCons(langs, i, i);
      } else {
        var acc' := acc + [st.result.value];
        var rest := FanOut(work, langs, i + 1, st.files, acc');
        FanOutTranslatesToFailure(work, env, req, place, p, i + 1, st.files, acc');
        if rest.result.Err? {
          var j := FirstFailure(env, req, p, i + 1);
          TranslatedAppend(st.calls, rest.calls);
          SliceCons(langs, i, j);
          assert Translated(st.calls + rest.calls) == [langs[i]] + langs[i + 1..j + 1];
        }
      }
    }
  }

  /** A failing loop is the loop over the languages up to and including the
      first one whose work fails: the languages after it play no part. */
  lemma {:induction false} FanOutTruncates(work: Work, env: Services, req: Request, place: Placement, p: Prepared,
                                           i: nat, files: Files, acc: seq<LanguageResult>)
    requires i <= |req.languages|
    requires KeepsOriginals(work, place, p) && AgreesWithReference(work, env, req, place, p)
    requires HoldsOriginals(place, p, files)
    ensures var st := FanOut(work, req.languages, i, files, acc);
      var j := FirstFailure(env, req, p, i);
      st.result.Err? ==> i <= j < |req.languages| && st == FanOut(work, req.languages[..j + 1], i, files, acc)
    decreases |req.languages| - i
  {
    var langs := req.languages;
    if i < |langs| {
      var st := work(langs[i], i, files);
      FirstFailureStep(env, req, p, i);
      FanOutStep(work, langs, i, files, acc);
      var j := FirstFailure(env, req, p, i);
      if st.result.Ok? {
        var acc' := acc + [st.result.value];
        FanOutTruncates(work, env, req, place, p, i + 1, st.files, acc');
        if FanOut(work, langs, i + 1, st.files, acc').result.Err? {
          assert langs[..j + 1][i] == langs[i];
          FanOutStep(work, langs[..j + 1], i, files, acc);
        }
      } else {
        assert langs[..j + 1][i] == langs[i];
        FanOutStep(work, langs[..j + 1], i, files, acc);
      }
    }
  }

  /** `req` with only its languages up to and including position `j`. */
  function UpTo(req: Request, j: nat): Request
    requires j < |req.languages|
  {
    req.(languages := req.languages[..j + 1])
  }

  /** The body's obligations depend on the flags, not on the languages. */
  lemma ObligationsKeepFlags(work: Work, req: Request, place: Placement, text: string, j: nat)
    requires j < |req.languages|
    ensures StaysInOwnFiles(work, req, place) ==> StaysInOwnFiles(work, UpTo(req, j), place)
    ensures MakesOwnCalls(work, req, place, text) ==> MakesOwnCalls(work, UpTo(req, j), place, text)
  {
  }

  /** Which calls belong to a language depends on the flags, not on the
      other languages. */
  lemma SameFlagsSameCalls(req: Request, j: nat, place: Placement, text: string, lang: string, c: Call)
    requires j < |req.languages|
    ensures LanguageCall(UpTo(req, j), place, text, lang, c) == LanguageCall(req, place, text, lang, c)
  {
  }

  /** A failing loop stops at the first language whose work fails: it is the
      loop over the languages up to and including that one, it has translated
      exactly those, every call it made belongs to one of them, and it wrote
      no file outside theirs. */
  lemma FanOutStopsAtFailure(work: Work, env: Services, req: Request, place: Placement, p: Prepared, i: nat,
                             files: Files, acc: seq<LanguageResult>)
    requires i <= |req.languages|
    requires KeepsOriginals(work, place, p) && AgreesWithReference(work, env, req, place, p)
    requires TranslatesOnce(work) && StaysInOwnFiles(work, req, place) && MakesOwnCalls(work, req, place, p.transcript)
    requires HoldsOriginals(place, p, files)
    ensures var st := FanOut(work, req.languages, i, files, acc);
      var j := FirstFailure(env, req, p, i);
      st.result.Err? ==>
        i <= j < |req.languages| &&
        st == FanOut(work, req.languages[..j + 1], i, files, acc) &&
        Translated(st.calls) == req.languages[i..j + 1] &&
        (forall c :: c in st.calls ==>
          exists m :: i <= m <= j && LanguageCall(req, place, p.transcript, req.languages[m], c)) &&
        forall q :: (forall m :: i <= m <= j ==> q !in LanguagePaths(req, place, req.languages[m])) ==>
          Read(st.files, q) == Read(files, q)
  {
    var st := FanOut(work, req.languages, i, files, acc);
    FanOutTranslatesToFailure(work, env, req, place, p, i, files, acc);
    FanOutTruncates(work, env, req, place, p, i, files, acc);
    if st.result.Err? {
      var j := FirstFailure(env, req, p, i);
      LoopUpToCalls(work, req, place, p.transcript, i, j, files, acc);
      LoopUpToFrame(work, req, place, i, j, files, acc);
    }
  }

  /** The loop over the languages up to position `j` makes only the calls of
      the languages from `i` to `j`. */
  lemma LoopUpToCalls(work: Work, req: Request, place: Placement, text: string, i: nat, j: nat, files: Files,
                      acc: seq<LanguageResult>)
    requires i <= j < |req.languages|
    requires MakesOwnCalls(work, req, place, text)
    ensures var st := FanOut(work, req.languages[..j + 1], i, files, acc);
      forall c :: c in st.calls ==> exists m :: i <= m <= j && LanguageCall(req, place, text, req.languages[m], c)
  {
    var short := UpTo(req, j);
    ObligationsKeepFlags(work, req, place, text, j);
    FanOutOwnCalls(work, short, place, text, i, files, acc);
    forall c | c in FanOut(work, short.languages, i, files, acc).calls
      ensures exists m :: i <= m <= j && LanguageCall(req, place, text, req.languages[m], c)
    {
      var m :| i <= m < |short.languages| && LanguageCall(short, place, text, short.languages[m], c);
      assert short.languages[m] == req.languages[m];
      SameFlagsSameCalls(req, j, place, text, req.languages[m], c);
    }
  }

  /** The loop over the languages up to position `j` writes only the files of
      the languages from `i` to `j`. */
  lemma LoopUpToFrame(work: Work, req: Request, place: Placement, i: nat, j: nat, files: Files,
                      acc: seq<LanguageResult>)
    requires i <= j < |req.languages|
    requires StaysInOwnFiles(work, req, place)
    ensures var st := FanOut(work, req.languages[..j + 1], i, files, acc);
      forall q :: (forall m :: i <= m <= j ==> q !in LanguagePaths(req, place, req.languages[m])) ==>
        Read(st.files, q) == Read(files, q)
  {
    var short := UpTo(req, j);
    ObligationsKeepFlags(work, req, place, "", j);
    FanOutFrame(work, short, place, i, files, acc);
    forall q | forall m :: i <= m <= j ==> q !in LanguagePaths(req, place, req.languages[m])
      ensures Read(FanOut(work, short.languages, i, files, acc).files, q) == Read(files, q)
    {
      assert Untouched(short, place, i, q);
    }
  }

  /** `langs[j]` does not occur again after position `j`. */
  predicate LastOccurrence(langs: seq<string>, j: nat) {
    j < |langs| && forall m :: j < m < |langs| ==> langs[m] != langs[j]
  }

  /** A language's outputs survive any change that leaves its files alone. */
  lemma DeliveredKept(env: Services, req: Request, place: Placement, p: Prepared, k: nat, before: Files,
                      after: Files)
    requires k < |req.languages|
    requires Delivered(env, req, place, p, k, before)
    requires forall q :: q in LanguagePaths(req, place, req.languages[k]) ==> Read(after, q) == Read(before, q)
    ensures Delivered(env, req, place, p, k, after)
  {
  }

  /** The files of the last occurrence of a language are not touched by the
      languages after it. */
  lemma LastOccurrenceUntouched(req: Request, place: Placement, i: nat)
    requires Injective(place)
    requires LastOccurrence(req.languages, i)
    ensures forall q :: q in LanguagePaths(req, place, req.languages[i]) ==> Untouched(req, place, i + 1, q)
  {
    var langs := req.languages;
    forall q | q in LanguagePaths(req, place, langs[i]) ensures Untouched(req, place, i + 1, q) {
      forall m | i + 1 <= m < |langs| ensures q !in LanguagePaths(req, place, langs[m]) {
        if q in LanguagePaths(req, place, langs[m]) {
          LanguagePathsDisjoint(req, place, langs[i], langs[m], q);
        }
      }
    }
  }

  /** When the loop succeeds, the files of each language hold what its last
      occurrence in the request produced: a later duplicate overwrites an
      earlier one, and different languages never overwrite each other. */
  lemma {:induction false} FanOutContents(work: Work, env: Services, req: Request, place: Placement, p: Prepared,
                                          i: nat, files: Files, acc: seq<LanguageResult>)
    requires i <= |req.languages|
    requires Injective(place)
    requires StaysInOwnFiles(work, req, place)
    requires KeepsOriginals(work, place, p) && DeliversReference(work, env, req, place, p)
    requires HoldsOriginals(place, p, files)
    ensures var st := FanOut(work, req.languages, i, files, acc);
      st.result.Ok? ==>
        forall j :: i <= j < |req.languages| && LastOccurrence(req.languages, j) ==>
          Delivered(env, req, place, p, j, st.files)
    decreases |req.languages| - i
  {
    var langs := req.languages;
    if i < |langs| {
      var st := work(langs[i], i, files);
      FanOutStep(work, langs, i, files, acc);
      if st.result.Ok? {
        var acc' := acc + [st.result.value];
        var rest := FanOut(work, langs, i + 1, st.files, acc');
        FanOutContents(work, env, req, place, p, i + 1, st.files, acc');
        LastDeliveredSurvives(work, env, req, place, p, i, files, acc);
      }
    }
  }

  /** What a language's last occurrence delivers is still in place when the
      rest of the loop succeeds. */
  lemma LastDeliveredSurvives(work: Work, env: Services, req: Request, place: Placement, p: Prepared,
                              i: nat, files: Files, acc: seq<LanguageResult>)
    requires i < |req.languages|
    requires Injective(place)
    requires StaysInOwnFiles(work, req, place)
    requires DeliversReference(work, env, req, place, p)
    requires HoldsOriginals(place, p, files)
    ensures var st := work(req.languages[i], i, files);
      st.result.Ok? && LastOccurrence(req.languages, i) ==>
        var rest := FanOut(work, req.languages, i + 1, st.files, acc + [st.result.value]);
        rest.result.Ok? ==> Delivered(env, req, place, p, i, rest.files)
  {
    var langs := req.languages;
    var st := work(langs[i], i, files);
    if st.result.Ok? && LastOccurrence(langs, i) {
      var acc' := acc + [st.result.value];
      var rest := FanOut(work, langs, i + 1, st.files, acc');
      if rest.result.Ok? {
        FanOutFrame(work, req, place, i + 1, st.files, acc');
        LastOccurrenceUntouched(req, place, i);
        DeliveredKept(env, req, place, p, i, st.files, rest.files);
      }
    }
  }

  // ---- process_video ----

  /** The job-level stages fail exactly when the reference model does, with
      the same exception; on success they report its title and transcript
      and leave its video and audio in place. */
  lemma PrefixMatchesReference(env: Services, req: Request, place: Placement, files: Files)
    requires Injective(place)
    ensures var pre := RunPrefix(env, req, place, files);
      var o := Prepare(env, req.url);
      (pre.result.Ok? <==> o.Ok?) &&
      (pre.result.Err? ==> pre.result.error == o.error) &&
      (pre.result.Ok? ==>
        pre.result.value == Transcribed(o.value.title, o.value.transcript) &&
        HoldsOriginals(place, o.value, pre.files) && |pre.calls| == 3)
  {
    assert place(OriginalVideo) != place(OriginalAudio);
  }

  /** The job-level stages call download, extraction and transcription in
      that order, each at most once, and write only the video and audio. */
  lemma PrefixCallsInOrder(env: Services, req: Request, place: Placement, files: Files)
    ensures var pre := RunPrefix(env, req, place, files);
      var v := place(OriginalVideo);
      var a := place(OriginalAudio);
      1 <= |pre.calls| <= 3 && pre.calls == [Fetch(req.url, v), Extract(v, a), Recognize(a)][..|pre.calls|] &&
      forall q :: q != v && q != a ==> Read(pre.files, q) == Read(files, q)
  {
  }

  /** The job-level stages fail exactly when the reference model does, with
      the same exception. They call download, extraction and transcription
      in that order, each at most once: a download that raises is the only
      call and writes nothing, an extraction that raises ends them without
      writing the audio, and only a successful extraction leads to
      transcription. On success they leave the downloaded video and extracted
      audio in place, and they never touch another file. */
  lemma RunPrefixAgrees(env: Services, req: Request, place: Placement, files: Files)
    requires Injective(place)
    ensures var pre := RunPrefix(env, req, place, files);
      var o := Prepare(env, req.url);
      (pre.result.Ok? <==> o.Ok?) &&
      (pre.result.Err? ==> pre.result.error == o.error) &&
      (pre.result.Ok? ==>
        pre.result.value == Transcribed(o.value.title, o.value.transcript) &&
        HoldsOriginals(place, o.value, pre.files) && |pre.calls| == 3)
    ensures var pre := RunPrefix(env, req, place, files);
      var v := place(OriginalVideo);
      var a := place(OriginalAudio);
      |pre.calls| == StagesRun(env, req.url) &&
      pre.calls == [Fetch(req.url, v), Extract(v, a), Recognize(a)][..|pre.calls|] &&
      (|pre.calls| < 3 ==> pre.result.Err? && Read(pre.files, a) == Read(files, a)) &&
      (|pre.calls| == 1 ==> pre.files == files) &&
      forall q :: q != v && q != a ==> Read(pre.files, q) == Read(files, q)
  {
    PrefixMatchesReference(env, req, place, files);
    PrefixCallsInOrder(env, req, place, files);
  }

  /** Once the job-level stages succeed, process_video is those stages
      followed by the loop over the requested languages. */
  lemma PrefixThenLoop(env: Services, req: Request, files: Files)
    requires Prepare(env, req.url).Ok?
    ensures var place := InDirectory(req.outputDir);
      var p := Prepare(env, req.url).value;
      var pre := RunPrefix(env, req, place, files);
      var fan := FanOut(LanguageWork(env, req, place, p.transcript), req.languages, 0, pre.files, []);
      var r := ProcessVideo(env, req, files);
      Injective(place) && pre.result.Ok? && HoldsOriginals(place, p, pre.files) &&
      r.calls == pre.calls + fan.calls && r.files == fan.files && r.result.Ok? == fan.result.Ok? &&
      (r.result.Ok? ==> r.result.value.results == fan.result.value) &&
      (r.result.Err? ==> r.result.error == fan.result.error)
  {
    InDirectoryInjective(req.outputDir);
    PrefixMatchesReference(env, req, InDirectory(req.outputDir), files);
  }

  /** process_video's loop reports, in order, the entry the request calls
      for at each position. */
  lemma LoopEntries(env: Services, req: Request, place: Placement, text: string, files: Files)
    ensures var fan := FanOut(LanguageWork(env, req, place, text), req.languages, 0, files, []);
      fan.result.Ok? ==> forall i :: 0 <= i < |req.languages| ==> fan.result.value[i] == Entry(req, req.languages[i])
  {
    LanguageWorkEntries(env, req, place, text);
    FanOutEntries(LanguageWork(env, req, place, text), req, 0, files, []);
  }

  /** process_video's manifest: one entry per requested language, in order,
      duplicates kept, each naming the language and the files the flags ask
      for. */
  lemma Manifest(env: Services, req: Request, files: Files)
    ensures var r := ProcessVideo(env, req, files);
      r.result.Ok? ==>
        |r.result.value.results| == |req.languages| &&
        forall i :: 0 <= i < |req.languages| ==> r.result.value.results[i] == Entry(req, req.languages[i])
  {
    if Prepare(env, req.url).Ok? {
      var place := InDirectory(req.outputDir);
      var p := Prepare(env, req.url).value;
      PrefixThenLoop(env, req, files);
      LoopEntries(env, req, place, p.transcript, RunPrefix(env, req, place, files).files);
    } else {
      PrefixFails(env, req, files);
    }
  }

  /** process_video succeeds exactly when every stage of the reference model
      does; otherwise it raises the first exception, whether from the
      job-level stages or from the first language whose work fails. */
  lemma AllOrNothing(env: Services, req: Request, files: Files)
    ensures var r := ProcessVideo(env, req, files);
      var o := Prepare(env, req.url);
      (r.result.Ok? <==> o.Ok? && forall k :: 0 <= k < |req.languages| ==> Localize(env, req, o.value, k).Ok?) &&
      (r.result.Err? && o.Err? ==> r.result.error == o.error) &&
      (r.result.Err? && o.Ok? ==>
        FirstFailure(env, req, o.value, 0) < |req.languages| &&
        r.result.error == Localize(env, req, o.value, FirstFailure(env, req, o.value, 0)).error)
  {
    var place := InDirectory(req.outputDir);
    InDirectoryInjective(req.outputDir);
    PrefixMatchesReference(env, req, place, files);
    if Prepare(env, req.url).Ok? {
      var p := Prepare(env, req.url).value;
      var work := LanguageWork(env, req, place, p.transcript);
      var pre := RunPrefix(env, req, place, files);
      PrefixThenLoop(env, req, files);
      LanguageWorkKeepsOriginals(env, req, place, p);
      LanguageWorkAgrees(env, req, place, p);
      FanOutSucceeds(work, env, req, place, p, 0, pre.files, []);
      FanOutFails(work, env, req, place, p, 0, pre.files, []);
    }
  }

  /** When a job-level stage fails, process_video raises its exception
      after calling the stages up to that one and nothing else: a failed
      download leaves every file as it was, a failed extraction writes no
      audio, and only the video and audio paths can change. */
  lemma PrefixFails(env: Services, req: Request, files: Files)
    requires Prepare(env, req.url).Err?
    ensures var place := InDirectory(req.outputDir);
      var v := place(OriginalVideo);
      var a := place(OriginalAudio);
      var pre := RunPrefix(env, req, place, files);
      var r := ProcessVideo(env, req, files);
      pre.result.Err? && r.calls == pre.calls && r.files == pre.files && r.result == Err(Prepare(env, req.url).error) &&
      r.calls == [Fetch(req.url, v), Extract(v, a), Recognize(a)][..StagesRun(env, req.url)] &&
      (env.fetch(req.url).Raised? ==> r.files == files) &&
      (StagesRun(env, req.url) < 3 ==> Read(r.files, a) == Read(files, a)) &&
      forall q :: q != v && q != a ==> Read(r.files, q) == Read(files, q)
  {
    InDirectoryInjective(req.outputDir);
    RunPrefixAgrees(env, req, InDirectory(req.outputDir), files);
  }

  /** Download, extraction and transcription each run once, first and in
      that order; the loop begins only after all three have succeeded. */
  lemma JobStagesRunOnce(env: Services, req: Request, files: Files)
    ensures var r := ProcessVideo(env, req, files);
      var place := InDirectory(req.outputDir);
      var stages := [Fetch(req.url, place(OriginalVideo)),
                     Extract(place(OriginalVideo), place(OriginalAudio)),
                     Recognize(place(OriginalAudio))];
      1 <= |r.calls| &&
      (forall k :: 0 <= k < |r.calls| && k < 3 ==> r.calls[k] == stages[k]) &&
      (forall k :: 3 <= k < |r.calls| ==> !r.calls[k].Fetch? && !r.calls[k].Extract? && !r.calls[k].Recognize?) &&
      (Prepare(env, req.url).Ok? ==> 3 <= |r.calls|) &&
      (3 < |r.calls| ==> Prepare(env, req.url).Ok?)
  {
    var place := InDirectory(req.outputDir);
    var r := ProcessVideo(env, req, files);
    var pre := RunPrefix(env, req, place, files);
    InDirectoryInjective(req.outputDir);
    PrefixMatchesReference(env, req, place, files);
    PrefixCallsInOrder(env, req, place, files);
    if Prepare(env, req.url).Ok? {
      var p := Prepare(env, req.url).value;
      var fan := FanOut(LanguageWork(env, req, place, p.transcript), req.languages, 0, pre.files, []);
      PrefixThenLoop(env, req, files);
      LanguageWorkCalls(env, req, place, p.transcript);
      FanOutCalls(LanguageWork(env, req, place, p.transcript), req, place, p.transcript, 0, pre.files, []);
      forall k | 3 <= k < |r.calls| ensures !r.calls[k].Fetch? && !r.calls[k].Extract? && !r.calls[k].Recognize? {
        assert r.calls[k] == fan.calls[k - 3];
        assert Permitted(req, p.transcript, fan.calls[k - 3]);
      }
    } else {
      PrefixFails(env, req, files);
    }
  }

  /** After the job-level stages, process_video only translates the
      transcript, and writes subtitles or dubs only when the flags ask for
      them. */
  lemma OnlyRequestedWork(env: Services, req: Request, files: Files)
    ensures var r := ProcessVideo(env, req, files);
      var o := Prepare(env, req.url);
      (|r.calls| > 3 ==> o.Ok?) &&
      (forall k :: 3 <= k < |r.calls| ==> o.Ok? && Permitted(req, o.value.transcript, r.calls[k]))
  {
    var place := InDirectory(req.outputDir);
    var r := ProcessVideo(env, req, files);
    var pre := RunPrefix(env, req, place, files);
    InDirectoryInjective(req.outputDir);
    PrefixMatchesReference(env, req, place, files);
    PrefixCallsInOrder(env, req, place, files);
    if Prepare(env, req.url).Ok? {
      var p := Prepare(env, req.url).value;
      var fan := FanOut(LanguageWork(env, req, place, p.transcript), req.languages, 0, pre.files, []);
      PrefixThenLoop(env, req, files);
      LanguageWorkCalls(env, req, place, p.transcript);
      FanOutCalls(LanguageWork(env, req, place, p.transcript), req, place, p.transcript, 0, pre.files, []);
      forall k | 3 <= k < |r.calls| ensures Permitted(req, p.transcript, r.calls[k]) {
        assert r.calls[k] == fan.calls[k - 3];
      }
    } else {
      PrefixFails(env, req, files);
    }
  }

  /** Without dubbing, process_video never synthesises speech or re-muxes;
      without subtitles, it never writes a subtitle file. */
  lemma FlagsGateWork(env: Services, req: Request, files: Files)
    ensures var r := ProcessVideo(env, req, files);
      (!req.generateDubbed ==> forall c :: c in r.calls ==> !c.Synthesize? && !c.Remux?) &&
      (!req.generateSubtitles ==> forall c :: c in r.calls ==> !c.WriteSubtitles?)
  {
    var r := ProcessVideo(env, req, files);
    var o := Prepare(env, req.url);
    JobStagesRunOnce(env, req, files);
    OnlyRequestedWork(env, req, files);
    GatedCalls(req, if o.Ok? then o.value.transcript else "", r.calls);
  }

  /** A log that opens with job-level stages and then holds only permitted
      calls synthesises, re-muxes and writes subtitles only when asked. */
  lemma GatedCalls(req: Request, text: string, calls: seq<Call>)
    requires forall k :: 0 <= k < |calls| && k < 3 ==> calls[k].Fetch? || calls[k].Extract? || calls[k].Recognize?
    requires forall k :: 3 <= k < |calls| ==> Permitted(req, text, calls[k])
    ensures !req.generateDubbed ==> forall c :: c in calls ==> !c.Synthesize? && !c.Remux?
    ensures !req.generateSubtitles ==> forall c :: c in calls ==> !c.WriteSubtitles?
  {
    forall c | c in calls
      ensures !req.generateDubbed ==> !c.Synthesize? && !c.Remux?
      ensures !req.generateSubtitles ==> !c.WriteSubtitles?
    {
      var k :| 0 <= k < |calls| && calls[k] == c;
    }
  }

  /** A successful process_video translates the transcript once per
      requested language, in order; a failing one stops after the first
      language whose work fails, and translates nothing when the job-level
      stages fail. */
  lemma TranslatesEachLanguageOnce(env: Services, req: Request, files: Files)
    ensures var r := ProcessVideo(env, req, files);
      var o := Prepare(env, req.url);
      (r.result.Ok? ==> Translated(r.calls) == req.languages) &&
      (o.Err? ==> Translated(r.calls) == []) &&
      (r.result.Err? && o.Ok? ==>
        FirstFailure(env, req, o.value, 0) < |req.languages| &&
        Translated(r.calls) == req.languages[..FirstFailure(env, req, o.value, 0) + 1])
  {
    var place := InDirectory(req.outputDir);
    var pre := RunPrefix(env, req, place, files);
    InDirectoryInjective(req.outputDir);
    PrefixMatchesReference(env, req, place, files);
    PrefixCallsInOrder(env, req, place, files);
    TranslatedNone(pre.calls);
    if Prepare(env, req.url).Ok? {
      var p := Prepare(env, req.url).value;
      var work := LanguageWork(env, req, place, p.transcript);
      var fan := FanOut(work, req.languages, 0, pre.files, []);
      PrefixThenLoop(env, req, files);
      LanguageWorkCalls(env, req, place, p.transcript);
      LanguageWorkKeepsOriginals(env, req, place, p);
      LanguageWorkAgrees(env, req, place, p);
      TranslatedAppend(pre.calls, fan.calls);
      FanOutTranslates(work, req, 0, pre.files, []);
      FanOutTranslatesToFailure(work, env, req, place, p, 0, pre.files, []);
      assert req.languages[0..] == req.languages;
      if fan.result.Err? {
        assert req.languages[0..FirstFailure(env, req, p, 0) + 1] == req.languages[..FirstFailure(env, req, p, 0) + 1];
      }
    } else {
      PrefixFails(env, req, files);
    }
  }

  /** After a successful process_video the output directory holds the
      downloaded video and the extracted audio, and, for each language, the
      outputs of its last occurrence in the request: the subtitle file
      holds the translation, the dubbed audio the speech, the output video
      the remux. */
  lemma WrittenFiles(env: Services, req: Request, files: Files)
    ensures var r := ProcessVideo(env, req, files);
      var place := InDirectory(req.outputDir);
      var o := Prepare(env, req.url);
      r.result.Ok? ==>
        o.Ok? && HoldsOriginals(place, o.value, r.files) &&
        forall j :: LastOccurrence(req.languages, j) ==> Delivered(env, req, place, o.value, j, r.files)
  {
    var place := InDirectory(req.outputDir);
    var pre := RunPrefix(env, req, place, files);
    if Prepare(env, req.url).Ok? {
      var p := Prepare(env, req.url).value;
      var work := LanguageWork(env, req, place, p.transcript);
      PrefixThenLoop(env, req, files);
      LanguageWorkKeepsOriginals(env, req, place, p);
      LanguageWorkDelivers(env, req, place, p);
      LanguageWorkStaysInOwnFiles(env, req, place, p.transcript);
      FanOutKeepsOriginals(work, req, place, p, 0, pre.files, []);
      FanOutContents(work, env, req, place, p, 0, pre.files, []);
    } else {
      PrefixFails(env, req, files);
    }
  }

  /** process_video writes nothing outside the original video, the extracted
      audio and the files of the requested languages, whatever its outcome. */
  lemma NothingElseWritten(env: Services, req: Request, files: Files)
    ensures var r := ProcessVideo(env, req, files);
      var place := InDirectory(req.outputDir);
      forall q :: q != place(OriginalVideo) && q != place(OriginalAudio) && Untouched(req, place, 0, q) ==>
        Read(r.files, q) == Read(files, q)
  {
    var place := InDirectory(req.outputDir);
    var pre := RunPrefix(env, req, place, files);
    InDirectoryInjective(req.outputDir);
    PrefixMatchesReference(env, req, place, files);
    PrefixCallsInOrder(env, req, place, files);
    if Prepare(env, req.url).Ok? {
      var p := Prepare(env, req.url).value;
      PrefixThenLoop(env, req, files);
      LanguageWorkStaysInOwnFiles(env, req, place, p.transcript);
      FanOutFrame(LanguageWork(env, req, place, p.transcript), req, place, 0, pre.files, []);
    } else {
      PrefixFails(env, req, files);
    }
  }
}
