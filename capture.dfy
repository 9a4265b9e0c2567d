/**
 * The capture state machine: the `is_recording` flag and the `recording`
 * buffer of audio batches, changed by the key-press handler, the
 * key-release handler, the audio callback and the session processing.
 * Handlers run one at a time, each to completion.
 *
 * The pure functions below give the state after each handler; the class
 * `Dictation` is the script's module state, and its methods are proved
 * to act as those functions say.
 */
module Capture {
  import opened PyText
  import opened Transcript
  import opened Invocation
  import opened Pipeline

  /** A keyboard key as the listener reports it: a named key or a character. */
  datatype Key = Named(name: string) | Char(c: char)

  /** The push-to-talk key, the right Control key. */
  const TriggerKey: Key := Named("ctrl_r")

  /** The events the handlers react to. */
  datatype Event = Press(key: Key) | Release(key: Key) | Audio(batch: Batch)

  /** The two module globals. */
  datatype State = State(isRecording: bool, recording: seq<Batch>)

  /** The state at start-up, and after every processed session. */
  const Idle: State := State(false, [])

  /** A trigger press while not recording starts a session. */
  function AfterPress(s: State, key: Key): State {
    if key == TriggerKey && !s.isRecording then s.(isRecording := true) else s
  }

  /** A trigger release processes the session, which always ends idle. */
  function AfterRelease(s: State, key: Key): State {
    if key == TriggerKey then Idle else s
  }

  /** A batch is kept only while recording. */
  function AfterAudio(s: State, b: Batch): State {
    if s.isRecording then s.(recording := s.recording + [b]) else s
  }

  function Step(s: State, e: Event): State {
    match e
    case Press(k) => AfterPress(s, k)
    case Release(k) => AfterRelease(s, k)
    case Audio(b) => AfterAudio(s, b)
  }

  /** The state after a sequence of events, applied first to last. */
  function Run(s: State, events: seq<Event>): State
    decreases |events|
  {
    if events == [] then s else Step(Run(s, events[..|events| - 1]), events[|events| - 1])
  }

  /** While not recording, the buffer is empty: no stale batches survive. */
  predicate Consistent(s: State) {
    s.isRecording || s.recording == []
  }

  lemma {:induction false} RunConsistent(events: seq<Event>)
    ensures Consistent(Run(Idle, events))
    decreases |events|
  {
    if events != [] {
      RunConsistent(events[..|events| - 1]);
    }
  }

  // An independent account of the state, read off the event history.

  /** The events since the last trigger release (all of them if none). */
  function SinceLastRelease(events: seq<Event>): seq<Event>
    decreases |events|
  {
    if events == [] then []
    else if events[|events| - 1] == Release(TriggerKey) then []
    else SinceLastRelease(events[..|events| - 1]) + [events[|events| - 1]]
  }

  /** Some trigger press occurs among the events. */
  predicate HasPress(events: seq<Event>) {
    exists i :: 0 <= i < |events| && events[i] == Press(TriggerKey)
  }

  /** The audio batches among the events, in order. */
  function Batches(events: seq<Event>): seq<Batch>
    decreases |events|
  {
    if events == [] then []
    else (if events[0].Audio? then [events[0].batch] else []) + Batches(events[1..])
  }

  /** The audio batches after the first trigger press among the events. */
  function AfterFirstPress(events: seq<Event>): seq<Batch>
    decreases |events|
  {
    if events == [] then []
    else if events[0] == Press(TriggerKey) then Batches(events[1..])
    else AfterFirstPress(events[1..])
  }

  lemma {:induction false} BatchesSnoc(events: seq<Event>, e: Event)
    ensures Batches(events + [e]) == Batches(events) + (if e.Audio? then [e.batch] else [])
    decreases |events|
  {
    if events == [] {
      assert [e][1..] == [];
    } else {
      assert (events + [e])[1..] == events[1..] + [e];
      BatchesSnoc(events[1..], e);
    }
  }

  lemma {:induction false} AfterFirstPressSnoc(events: seq<Event>, e: Event)
    ensures HasPress(events) ==>
      AfterFirstPress(events + [e]) == AfterFirstPress(events) + (if e.Audio? then [e.batch] else [])
    ensures !HasPress(events) ==> AfterFirstPress(events) == [] && AfterFirstPress(events + [e]) == []
    decreases |events|
  {
    if events == [] {
      assert [e][1..] == [];
    } else {
      assert (events + [e])[1..] == events[1..] + [e];
      if events[0] == Press(TriggerKey) {
        BatchesSnoc(events[1..], e);
      } else {
        AfterFirstPressSnoc(events[1..], e);
        assert HasPress(events) == HasPress(events[1..]) by {
          if HasPress(events) {
            var i :| 0 <= i < |events| && events[i] == Press(TriggerKey);
            assert events[1..][i - 1] == events[i];
          }
          if HasPress(events[1..]) {
            var i :| 0 <= i < |events[1..]| && events[1..][i] == Press(TriggerKey);
            assert events[i + 1] == events[1..][i];
          }
        }
      }
    }
  }

  lemma HasPressSnoc(events: seq<Event>, e: Event)
    ensures HasPress(events + [e]) <==> HasPress(events) || e == Press(TriggerKey)
  {
    if HasPress(events) {
      var i :| 0 <= i < |events| && events[i] == Press(TriggerKey);
      assert (events + [e])[i] == events[i];
    }
    if e == Press(TriggerKey) {
      assert (events + [e])[|events|] == e;
    }
    if HasPress(events + [e]) && !HasPress(events) {
      var i :| 0 <= i < |events + [e]| && (events + [e])[i] == Press(TriggerKey);
      if i < |events| {
        assert events[i] == (events + [e])[i];
      }
    }
  }

  /** From start-up, after any sequence of events: the script is recording
      exactly when the trigger was pressed since the last trigger release,
      and the buffer holds exactly the batches that arrived after the first
      such press, in arrival order. */
  lemma {:induction false} RunFromIdle(events: seq<Event>)
    ensures var since := SinceLastRelease(events);
      Run(Idle, events) == State(HasPress(since), AfterFirstPress(since))
    decreases |events|
  {
    if events != [] {
      var init := events[..|events| - 1];
      var e := events[|events| - 1];
      RunFromIdle(init);
      assert Run(Idle, events) == Step(Run(Idle, init), e);
      if e != Release(TriggerKey) {
        var since := SinceLastRelease(init);
        assert SinceLastRelease(events) == since + [e];
        HasPressSnoc(since, e);
        AfterFirstPressSnoc(since, e);
      }
    }
  }

  /** The session handed to processing on a trigger release. */
  lemma SessionAtRelease(events: seq<Event>)
    ensures Run(Idle, events).recording == AfterFirstPress(SinceLastRelease(events))
    ensures Run(Idle, events + [Release(TriggerKey)]) == Idle
  {
    RunFromIdle(events);
    assert (events + [Release(TriggerKey)])[..|events|] == events;
  }

  /** A trigger release while not recording processes an empty buffer, so
      it sets nothing off: no cue, no file, no engine run. */
  lemma IdleReleaseSilent(events: seq<Event>, cfg: Config, w: World)
    requires !Run(Idle, events).isRecording
    ensures SessionEffects(cfg, Run(Idle, events).recording, w) == []
    ensures Run(Idle, events + [Release(TriggerKey)]) == Run(Idle, events)
  {
    RunConsistent(events);
    SessionAtRelease(events);
  }

  /** The script's module state.  The configuration is fixed at start-up. */
  class Dictation {
    var isRecording: bool
    var recording: seq<Batch>
    const config: Config

    function View(): State
      reads this
    {
      State(isRecording, recording)
    }

    constructor (config: Config)
      ensures View() == Idle && this.config == config
    {
      this.config := config;
      isRecording := false;
      recording := [];
    }

    /** `on_press`: a trigger press while idle starts recording and plays
        the "Tink" cue; any other press, or a repeated press while already
        recording, changes nothing and plays nothing. */
    method OnPress(key: Key) returns (effects: seq<Effect>)
      modifies this
      ensures View() == AfterPress(old(View()), key)
      ensures key == TriggerKey && !old(isRecording) ==> isRecording && effects == [PlaySound("Tink")]
      ensures key != TriggerKey || old(isRecording) ==> View() == old(View()) && effects == []
      ensures recording == old(recording)
    {
      effects := [];
      if key == TriggerKey && !isRecording {
        isRecording := true;
        effects := [PlaySound("Tink")];
      }
    }

    /** The audio callback: the batch is appended at the end exactly when
        the flag is set on arrival; earlier batches are untouched. */
    method OnAudio(batch: Batch)
      modifies this`recording
      ensures View() == AfterAudio(old(View()), batch)
      ensures recording == if isRecording then old(recording) + [batch] else old(recording)
      ensures |recording| >= |old(recording)| && recording[..|old(recording)|] == old(recording)
    {
      if isRecording {
        recording := recording + [batch];
      }
    }

    /** `process_audio`: the flag drops first; a session of fewer than
        `MinBatches` batches is discarded with no cue, no file and no engine
        run; otherwise the pipeline runs.  Either way the buffer ends empty. */
    method ProcessAudio(w: World) returns (effects: seq<Effect>)
      modifies this
      ensures View() == Idle
      ensures effects == SessionEffects(config, old(recording), w)
    {
      isRecording := false;
      if |recording| < MinBatches {
        recording := [];
        return [];
      }
      LongSession(config, recording, w);
      effects := [PlaySound("Pop"), WriteWav(TempFile, recording)];
      var env := w.environ;
      if w.brewPrefix != "" {
        env := env[MetalResourcesKey := w.brewPrefix + "/share/whisper-cpp"];
      }
      assert env == EngineEnv(w.environ, w.brewPrefix);
      var cmd := [config.whisperBin, "-m", config.modelPath, "-f", TempFile, "-l", "auto", "-nt"];
      assert cmd == Command(config.whisperBin, config.modelPath, TempFile);
      var engineEffects := [RunEngine(cmd, env)];
      match w.engine {
        case Raised =>
          engineEffects := engineEffects + [ReportError];
        case Completed(_, stdout) =>
          var result := Strip(stdout);
          var delivered := [];
          if result != [] {
            var cleanText := Strip(LastLine(result));
            delivered := [CopyToClipboard(cleanText)];
            if w.clipboardWorks {
              delivered := delivered + [PasteKeystroke];
            } else {
              delivered := delivered + [ReportError];
            }
          }
          assert delivered == Delivery(ExtractTranscript(stdout), w.clipboardWorks);
          engineEffects := engineEffects + delivered;
      }
      assert engineEffects == EngineEffects(config, w);
      effects := effects + engineEffects;
      recording := [];
    }

    /** `on_release`: only the trigger key processes the session. */
    method OnRelease(key: Key, w: World) returns (effects: seq<Effect>)
      modifies this
      ensures View() == AfterRelease(old(View()), key)
      ensures key == TriggerKey ==> effects == SessionEffects(config, old(recording), w)
      ensures key != TriggerKey ==> effects == []
    {
      effects := [];
      if key == TriggerKey {
        effects := ProcessAudio(w);
      }
    }
  }
}
