# Push-to-talk dictation: capture state machine, transcript extraction, engine invocation

This project models the logic in `main.py`, a push-to-talk dictation script.
While the right Control key is held, the script keeps the microphone's audio
batches. When the key is released, it writes the batches to a WAV file and
runs `whisper-cli` on that file. If the engine printed any text, the script
puts the transcript on the clipboard and sends a paste keystroke.

The model has these modules:

- `Capture`: the two module globals, `is_recording` and `recording`, and the
  four handlers that change them. `Capture.Dictation` is a class whose fields
  are the two globals. Its methods `OnPress`, `OnRelease`, `OnAudio` and
  `ProcessAudio` follow `on_press`, `on_release`, the audio-callback lambda and
  `process_audio`. Each method is proved to move the state as the pure
  functions `AfterPress`, `AfterRelease` and `AfterAudio` say. Those functions
  are folded over event histories (`Run`). Two things are proved about the
  fold. First, the buffer is empty whenever the flag is clear. Second, the
  state equals an independent reading of the history: the script is recording
  when the trigger has been pressed since the last trigger release, and the
  buffer holds exactly the batches that arrived after that press.
- `Pipeline`: what one finished session sets off, as a sequence of effects:
  the "Pop" cue, the WAV write, the engine run, the clipboard write, the paste
  and error reports. The outside world is a parameter (`World`). It gives the
  process environment, the output of `brew --prefix whisper-cpp`, how the
  engine run ended, and whether the clipboard works.
- `Transcript`: how the delivered text is pulled out of the engine's standard
  output (`main.py:74-79`). The model proves this gives the same text as
  "the last line that is not blank, stripped".
- `Invocation`: the engine's environment (one extra key) and its fixed
  8-element argument vector.
- `PyText`: the Python string operations involved. These are `str.strip()`
  (whitespace as `str.isspace` defines it), `str.split('\n')`, and `join` as
  the inverse of `split`.

Handlers are modelled as atomic steps that run one after another. The
`World` record stands in for I/O and the subprocess.

On these points the model follows the code as written:

- The minimum session length counts callback batches (`len(recording) < 15`),
  not samples.
- The engine's exit code is never read. A failed run with output still
  delivers text, and one without output delivers nothing.
- `on_release` runs `process_audio` on every release of the trigger key, even
  while idle. `IdleReleaseSilent` proves that such a release changes nothing
  and sets nothing off.
- The "Pop" cue plays only for sessions that are long enough, after the
  length check.

## Model

| member | source | states |
|---|---|---|
| Capture.Dictation.constructor | main.py:38-39 | the script starts not recording, with an empty buffer |
| Capture.Dictation.OnPress | main.py:96-100 | a trigger press while idle sets the flag and plays "Tink"; any other key, or a repeated press while recording, changes nothing and plays nothing; the buffer is never touched |
| Capture.Dictation.OnAudio | main.py:106 | a batch is appended at the end exactly when the flag is set on arrival, otherwise the buffer is unchanged; earlier batches keep their order and values |
| Capture.Dictation.ProcessAudio | main.py:41-94 | the flag ends false and the buffer empty on both branches; the effects are those of `SessionEffects` for the batches held on entry |
| Capture.Dictation.OnRelease | main.py:102-104 | a release of another key changes nothing and has no effect; a trigger release always ends idle with an empty buffer and runs the session's effects |
| Capture.RunConsistent | main.py:96-106 | from start-up, after any sequence of presses, releases and batches, the buffer is empty whenever the flag is clear |
| Capture.RunFromIdle | main.py:96-106 | after any event history, the flag is set exactly when the trigger was pressed since the last trigger release; the buffer is exactly the batches after the first such press, in order |
| Capture.SessionAtRelease | main.py:102-104 | the session handed over on a trigger release is the batches captured since the press that opened it, and the state afterwards is idle |
| Capture.IdleReleaseSilent | main.py:43-46 | a trigger release while not recording processes an empty buffer, so it sets nothing off and leaves the state as it was |
| Pipeline.SessionEffects | main.py:44-94 | a session sets off no effect at all exactly when it has fewer than 15 batches |
| Pipeline.SessionCounts | main.py:44-82 | a short session produces no cue, no file and no engine run; a long one produces exactly one "Pop" cue, one WAV write and one engine run, with at most one clipboard write and no more pastes than clipboard writes |
| Pipeline.EngineInvocation | main.py:49-72 | a long session starts with the "Pop" cue, then writes that session to the temporary WAV path, then runs the engine with the fixed command and the prepared environment |
| Pipeline.ClipboardText | main.py:74-81 | a clipboard write of a text is attempted exactly when the session was long, the engine completed, and the text is what extraction gives for its output; that text is non-empty and has no newline |
| Pipeline.PasteCondition | main.py:77-82 | the paste keystroke is sent exactly when the session was long, the engine completed with output that is not all whitespace, and the clipboard write succeeded; blank output means no clipboard write |
| Pipeline.ExitCodeIgnored | main.py:72-77 | changing the engine's exit code changes none of the effects |
| Transcript.ExtractTranscript | main.py:74-79 | there is no transcript exactly when the output is all whitespace; otherwise it is non-empty, has no newline, and starts and ends with a non-space character |
| Transcript.ExtractIsLastNonBlankLine | main.py:74-79 | strip, then take the last newline-separated piece, then strip again: this equals the last line of the raw output that has a non-space character, stripped |
| Transcript.LastLineClean | main.py:79 | when the stripped output is not empty, its last line stripped is not empty and has no newline |
| Invocation.EngineEnv | main.py:62-65 | the environment has the copied environment's keys, plus `GGML_METAL_PATH_RESOURCES` only when the prefix is non-empty; that key then maps to `prefix + "/share/whisper-cpp"`; every other entry is unchanged |
| Invocation.Command | main.py:71 | the argument vector has length 8, with the binary at index 0, the model path at index 2 and the audio file at index 4 |
| Invocation.CommandReadBack | main.py:69-71 | an option reader sees model = the model path, file = the audio path, language "auto" and the no-timestamps switch, whatever the two paths contain |
| PyText.LStrip | main.py:74 | the result is a suffix of the input; everything cut off is whitespace; the result is empty or starts with a non-space |
| PyText.RStrip | main.py:74 | the result is a prefix of the input; everything cut off is whitespace; the result is empty or ends with a non-space |
| PyText.Strip | main.py:74 | the result is empty exactly when the input is all whitespace; otherwise both of its ends are non-space |
| PyText.StripParts | main.py:74 | the input is whitespace, then the stripped text, then whitespace |
| PyText.StripUnique | main.py:74 | any split into whitespace, a middle part with non-space ends, and whitespace gives that middle part as the strip |
| PyText.StripPadded | main.py:79 | adding whitespace on either side does not change the stripped text |
| PyText.Split | main.py:79 | the split has at least one piece, and no piece contains the separator |
| PyText.SplitAppend | main.py:79 | splitting a concatenation splits both halves and joins the last piece of the first half to the first piece of the second |
| PyText.JoinSplit | main.py:79 | joining the pieces of a split with the separator gives back the string |
| PyText.SplitJoin | main.py:79 | splitting a join of separator-free pieces gives back the pieces |
| PyText.LastPartSuffix | main.py:79 | the last piece of a split is a suffix of the string; it is non-empty when the string ends in a character other than the separator |

## Left out

- Concurrency: the audio callback and the key listener run on different threads and share the flag and the list without a lock (main.py:106-107). Here every handler is one atomic step.
- The float-to-int16 conversion and the WAV file contents (main.py:52-57). This is NumPy floating-point arithmetic, and the code does not clamp: `(audio_data * 32767).astype(np.int16)` casts a sample outside [-1, 1] to a value NumPy does not define. The model treats a batch as an opaque sequence of reals and records the WAV write as an effect that carries the session.
- A failed WAV write (main.py:53-57). It happens outside the `try`, so an exception there would escape with the flag cleared but the buffer still full. The model assumes the write succeeds.
- The shell probes `which whisper-cli` and `brew --prefix whisper-cpp` (main.py:24, 63). Their outputs are parameters: `Config.whisperBin` and `World.brewPrefix`. Note that `subprocess.getoutput` returns an error message when `brew` fails, so the prefix can be non-empty even then.
- The subprocess run itself (main.py:72). It is the `World.engine` parameter: the run either completed with an exit code and stdout, or raised.
- Sound playback through `afplay` (main.py:26-27), the clipboard through `pyperclip`, and the paste through `osascript` (main.py:81-82). These appear only as effects in the output sequence. Whether the clipboard write raises is the parameter `World.clipboardWorks`.
- Console output, `time.perf_counter` diagnostics and the error message text (main.py:34-36, 48, 67, 75, 80, 84-92). A caught exception is recorded as a `ReportError` effect. The model assumes console output never raises; the `print` at main.py:80 runs inside the `try` before the clipboard write, so if it raised (an unencodable character on the console) there would be no clipboard write and no paste.
- Argument parsing, the model-path expansion, and the startup check that exits when the binary is missing (main.py:12-19, 29-32). The model path and binary are fixed in `Config`.
- Opening the `sounddevice` stream and the `pynput` listener (main.py:106-108).
- Text decoding: strings are sequences of Unicode scalar values, which matches `proc.stdout` because `text=True` decodes strictly. Universal-newline decoding turns `\r\n` and `\r` into `\n`, so `World.engine.stdout` ranges over more strings than the real output can be; the proved properties hold for all of them. Whitespace is the fixed character list of Python's `str.isspace`.
