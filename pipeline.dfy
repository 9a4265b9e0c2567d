/**
 * What one completed recording session sets off once the trigger key is
 * released: the "Pop" cue, the WAV file, one run of the speech engine and,
 * when the engine printed some text, the clipboard write and the paste
 * keystroke.  The outside world (process environment, package prefix, the
 * engine's outcome, whether the clipboard works) is a parameter; what the
 * script does to it is a sequence of effects.
 */
module Pipeline {
  import opened Wrappers
  import opened PyText
  import opened Transcript
  import opened Invocation

  /** One audio callback's samples (an opaque copy of the buffer). */
  type Batch = seq<real>

  /** Sessions with fewer callback batches than this are dropped unheard. */
  const MinBatches: nat := 15

  /** The values fixed at start-up: the engine binary and the model file. */
  datatype Config = Config(whisperBin: string, modelPath: string)

  /** How the engine run ended: it completed with an exit code and captured
      standard output, or starting it raised an exception. */
  datatype EngineRun = Completed(returncode: int, stdout: string) | Raised

  /** Everything the pipeline learns from the outside world. */
  datatype World = World(
    environ: map<string, string>,
    brewPrefix: string,
    engine: EngineRun,
    clipboardWorks: bool)

  /** The externally visible actions of the script. */
  datatype Effect =
    | PlaySound(name: string)
    | WriteWav(path: string, session: seq<Batch>)
    | RunEngine(argv: seq<string>, env: map<string, string>)
    | CopyToClipboard(text: string)  // the write is attempted; it may raise
    | PasteKeystroke
    | ReportError

  datatype Kind = SoundKind | WavKind | EngineKind | ClipboardKind | PasteKind | ErrorKind

  function KindOf(e: Effect): Kind {
    match e
    case PlaySound(_) => SoundKind
    case WriteWav(_, _) => WavKind
    case RunEngine(_, _) => EngineKind
    case CopyToClipboard(_) => ClipboardKind
    case PasteKeystroke => PasteKind
    case ReportError => ErrorKind
  }

  /** Number of effects of one kind. */
  function Count(effects: seq<Effect>, k: Kind): nat
    decreases |effects|
  {
    if effects == [] then 0
    else (if KindOf(effects[0]) == k then 1 else 0) + Count(effects[1..], k)
  }

  lemma {:induction false} CountAppend(xs: seq<Effect>, ys: seq<Effect>, k: Kind)
    ensures Count(xs + ys, k) == Count(xs, k) + Count(ys, k)
    decreases |xs|
  {
    if xs == [] {
      assert xs + ys == ys;
    } else {
      assert (xs + ys)[1..] == xs[1..] + ys;
      CountAppend(xs[1..], ys, k);
    }
  }

  /** Delivery of an extracted transcript: clipboard, then paste; a failing
      clipboard raises, is reported, and the paste is skipped. */
  function Delivery(transcript: Option<string>, clipboardWorks: bool): seq<Effect> {
    match transcript
    case None => []
    case Some(text) =>
      [CopyToClipboard(text)] + (if clipboardWorks then [PasteKeystroke] else [ReportError])
  }

  /** The engine run and what follows it. */
  function EngineEffects(cfg: Config, w: World): seq<Effect> {
    var run := RunEngine(Command(cfg.whisperBin, cfg.modelPath, TempFile), EngineEnv(w.environ, w.brewPrefix));
    match w.engine
    case Raised => [run, ReportError]
    case Completed(_, stdout) => [run] + Delivery(ExtractTranscript(stdout), w.clipboardWorks)
  }

  /** The effects of processing one finished session.  A session that is too
      short produces none at all. */
  function SessionEffects(cfg: Config, session: seq<Batch>, w: World): (effects: seq<Effect>)
    ensures effects == [] <==> |session| < MinBatches
  {
    if |session| < MinBatches then []
    else [PlaySound("Pop"), WriteWav(TempFile, session)] + EngineEffects(cfg, w)
  }

  lemma CountOne(e: Effect, k: Kind)
    ensures Count([e], k) == if KindOf(e) == k then 1 else 0
  {
    assert [e][1..] == [];
  }

  /** Counts of the delivery effects for a transcript. */
  lemma DeliveryCounts(t: Option<string>, clipboardWorks: bool, k: Kind)
    ensures Count(Delivery(t, clipboardWorks), k) ==
      if t.None? then 0
      else if k == ClipboardKind then 1
      else if k == PasteKind && clipboardWorks then 1
      else if k == ErrorKind && !clipboardWorks then 1
      else 0
  {
    if t.Some? {
      var tail := if clipboardWorks then PasteKeystroke else ReportError;
      assert Delivery(t, clipboardWorks) == [CopyToClipboard(t.value)] + [tail];
      CountAppend([CopyToClipboard(t.value)], [tail], k);
      CountOne(CopyToClipboard(t.value), k);
      CountOne(tail, k);
    }
  }

  /** Counts of the effects from the engine run on. */
  lemma EngineCounts(cfg: Config, w: World, k: Kind)
    ensures Count(EngineEffects(cfg, w), k) ==
      (if k == EngineKind then 1 else 0)
      + (if w.engine.Raised? then (if k == ErrorKind then 1 else 0)
         else Count(Delivery(ExtractTranscript(w.engine.stdout), w.clipboardWorks), k))
  {
    var run := RunEngine(Command(cfg.whisperBin, cfg.modelPath, TempFile), EngineEnv(w.environ, w.brewPrefix));
    CountOne(run, k);
    if w.engine.Raised? {
      assert EngineEffects(cfg, w) == [run] + [ReportError];
      CountAppend([run], [ReportError], k);
      CountOne(ReportError, k);
    } else {
      var d := Delivery(ExtractTranscript(w.engine.stdout), w.clipboardWorks);
      assert EngineEffects(cfg, w) == [run] + d;
      CountAppend([run], d, k);
    }
  }

  /** Per session: a short one sets nothing off; a long one plays one cue,
      writes the file once and runs the engine once, and delivers at most
      once, with a paste only after a clipboard write. */
  lemma SessionCounts(cfg: Config, session: seq<Batch>, w: World)
    ensures var effects := SessionEffects(cfg, session, w);
      var once := if |session| < MinBatches then 0 else 1;
      Count(effects, SoundKind) == once && Count(effects, WavKind) == once && Count(effects, EngineKind) == once
      && Count(effects, PasteKind) <= Count(effects, ClipboardKind) <= once
  {
    if |session| >= MinBatches {
      var pop, wav := PlaySound("Pop"), WriteWav(TempFile, session);
      forall k: Kind ensures Count(SessionEffects(cfg, session, w), k) ==
        (if k == SoundKind || k == WavKind then 1 else 0) + Count(EngineEffects(cfg, w), k)
      {
        assert [pop, wav] == [pop] + [wav];
        CountAppend([pop] + [wav], EngineEffects(cfg, w), k);
        CountAppend([pop], [wav], k);
        CountOne(pop, k);
        CountOne(wav, k);
        EngineCounts(cfg, w, k);
      }
      forall k: Kind ensures Count(EngineEffects(cfg, w), k) ==
        (if k == EngineKind then 1 else 0)
        + (if w.engine.Raised? then (if k == ErrorKind then 1 else 0)
           else Count(Delivery(ExtractTranscript(w.engine.stdout), w.clipboardWorks), k))
      {
        EngineCounts(cfg, w, k);
      }
      if w.engine.Completed? {
        var t := ExtractTranscript(w.engine.stdout);
        DeliveryCounts(t, w.clipboardWorks, PasteKind);
        DeliveryCounts(t, w.clipboardWorks, ClipboardKind);
        DeliveryCounts(t, w.clipboardWorks, SoundKind);
        DeliveryCounts(t, w.clipboardWorks, WavKind);
        DeliveryCounts(t, w.clipboardWorks, EngineKind);
      }
    }
  }

  /** What a delivery contains. */
  lemma DeliveryMembers(t: Option<string>, clipboardWorks: bool, text: string)
    ensures CopyToClipboard(text) in Delivery(t, clipboardWorks) <==> t == Some(text)
    ensures PasteKeystroke in Delivery(t, clipboardWorks) <==> t.Some? && clipboardWorks
  {
    if t.Some? {
      var tail := if clipboardWorks then PasteKeystroke else ReportError;
      assert Delivery(t, clipboardWorks) == [CopyToClipboard(t.value), tail];
    }
  }

  /** The effects of a long session: the cue, the file, then the engine's. */
  lemma LongSession(cfg: Config, session: seq<Batch>, w: World)
    requires |session| >= MinBatches
    ensures SessionEffects(cfg, session, w)
      == [PlaySound("Pop"), WriteWav(TempFile, session)] + EngineEffects(cfg, w)
    ensures w.engine.Completed? ==>
      EngineEffects(cfg, w)
      == [RunEngine(Command(cfg.whisperBin, cfg.modelPath, TempFile), EngineEnv(w.environ, w.brewPrefix))]
      + Delivery(ExtractTranscript(w.engine.stdout), w.clipboardWorks)
  {
  }

  /** A clipboard write of `text` is attempted exactly when the session was
      long enough, the engine completed, and the transcript extracted from its
      output is `text`; such a text is non-empty and a single line.  Whether
      the write succeeds is `w.clipboardWorks`. */
  lemma ClipboardText(cfg: Config, session: seq<Batch>, w: World, text: string)
    ensures CopyToClipboard(text) in SessionEffects(cfg, session, w) <==>
      |session| >= MinBatches && w.engine.Completed? && ExtractTranscript(w.engine.stdout) == Some(text)
    ensures CopyToClipboard(text) in SessionEffects(cfg, session, w) ==> text != [] && '\n' !in text
  {
    if |session| >= MinBatches {
      LongSession(cfg, session, w);
      if w.engine.Completed? {
        DeliveryMembers(ExtractTranscript(w.engine.stdout), w.clipboardWorks, text);
      }
    }
  }

  /** The paste keystroke is sent exactly when the session was long enough,
      the engine completed with output that is not all whitespace, and the
      clipboard write succeeded.  A blank output means no clipboard write. */
  lemma PasteCondition(cfg: Config, session: seq<Batch>, w: World)
    ensures PasteKeystroke in SessionEffects(cfg, session, w) <==>
      |session| >= MinBatches && w.engine.Completed? && !AllSpace(w.engine.stdout) && w.clipboardWorks
    ensures w.engine.Completed? && AllSpace(w.engine.stdout) ==>
      Count(SessionEffects(cfg, session, w), ClipboardKind) == 0
  {
    if |session| >= MinBatches {
      LongSession(cfg, session, w);
      if w.engine.Completed? {
        var t := ExtractTranscript(w.engine.stdout);
        DeliveryMembers(t, w.clipboardWorks, []);
        if t.None? {
          forall k: Kind ensures Count(SessionEffects(cfg, session, w), k) ==
            Count([PlaySound("Pop"), WriteWav(TempFile, session)], k) + Count(EngineEffects(cfg, w), k)
          {
            CountAppend([PlaySound("Pop"), WriteWav(TempFile, session)], EngineEffects(cfg, w), k);
          }
          SessionCounts(cfg, session, w);
          EngineCounts(cfg, w, ClipboardKind);
          DeliveryCounts(t, w.clipboardWorks, ClipboardKind);
          assert [PlaySound("Pop"), WriteWav(TempFile, session)] == [PlaySound("Pop")] + [WriteWav(TempFile, session)];
          CountAppend([PlaySound("Pop")], [WriteWav(TempFile, session)], ClipboardKind);
          CountOne(PlaySound("Pop"), ClipboardKind);
          CountOne(WriteWav(TempFile, session), ClipboardKind);
        }
      }
    }
  }

  /** In a long session the third effect, the only engine run (see
      SessionCounts), uses the fixed command and the prepared environment. */
  lemma EngineInvocation(cfg: Config, session: seq<Batch>, w: World)
    requires |session| >= MinBatches
    ensures var effects := SessionEffects(cfg, session, w);
      |effects| >= 3 && effects[..3] == [
        PlaySound("Pop"),
        WriteWav(TempFile, session),
        RunEngine(Command(cfg.whisperBin, cfg.modelPath, TempFile), EngineEnv(w.environ, w.brewPrefix))]
  {
    LongSession(cfg, session, w);
  }

  /** The exit code of the engine plays no part. */
  lemma ExitCodeIgnored(cfg: Config, session: seq<Batch>, w: World, code: int)
    requires w.engine.Completed?
    ensures SessionEffects(cfg, session, w)
      == SessionEffects(cfg, session, w.(engine := Completed(code, w.engine.stdout)))
  {
  }
}
