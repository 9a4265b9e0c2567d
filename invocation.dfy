/**
 * How the speech engine (`whisper-cli`) is invoked: the environment it
 * inherits, with one resource-path hint added, and its argument vector.
 */
module Invocation {

  /** The variable that points the engine's Metal back end at its resources. */
  const MetalResourcesKey: string := "GGML_METAL_PATH_RESOURCES"

  /** The fixed path the recording is written to, and read from by the engine. */
  const TempFile: string := "/tmp/voice_prompt.wav"

  /** The engine's environment: a copy of the process environment in which
      the resource hint is set to `<prefix>/share/whisper-cpp` when the
      package-manager prefix is non-empty.  No other entry changes. */
  function EngineEnv(environ: map<string, string>, brewPrefix: string): (env: map<string, string>)
    ensures env.Keys == environ.Keys + (if brewPrefix != "" then {MetalResourcesKey} else {})
    ensures brewPrefix != "" ==> env[MetalResourcesKey] == brewPrefix + "/share/whisper-cpp"
    ensures forall k :: k in environ && (k != MetalResourcesKey || brewPrefix == "") ==> env[k] == environ[k]
  {
    if brewPrefix != "" then environ[MetalResourcesKey := brewPrefix + "/share/whisper-cpp"] else environ
  }

  /** The engine's argument vector: model, input file, automatic language
      detection, no timestamps. */
  function Command(bin: string, modelPath: string, audioPath: string): (argv: seq<string>)
    ensures |argv| == 8 && argv[0] == bin && argv[2] == modelPath && argv[4] == audioPath
  {
    [bin, "-m", modelPath, "-f", audioPath, "-l", "auto", "-nt"]
  }

  /** What an option reader makes of an argument list: flag values and bare switches. */
  datatype Options = Options(values: map<string, string>, switches: set<string>)

  /** The engine's flags that take a value. */
  const ValueFlags: set<string> := {"-m", "-f", "-l"}

  /** A left-to-right option reader: a value flag consumes the next
      argument (a later repetition wins), anything else is a switch. */
  function ReadOptions(args: seq<string>): Options
    decreases |args|
  {
    if args == [] then Options(map[], {})
    else if args[0] in ValueFlags && |args| >= 2 then
      var rest := ReadOptions(args[2..]);
      rest.(values := map[args[0] := args[1]] + rest.values)
    else
      var rest := ReadOptions(args[1..]);
      rest.(switches := {args[0]} + rest.switches)
  }

  /** Read back, the command selects exactly the given model and input file,
      language "auto" and the no-timestamps switch, whatever the two paths
      look like (a path starting with '-' is still taken as a value). */
  lemma CommandReadBack(bin: string, modelPath: string, audioPath: string)
    ensures ReadOptions(Command(bin, modelPath, audioPath)[1..])
      == Options(map["-m" := modelPath, "-f" := audioPath, "-l" := "auto"], {"-nt"})
  {
    var args := Command(bin, modelPath, audioPath)[1..];
    assert args[2..][2..][2..] == ["-nt"];
    assert "-nt" !in ValueFlags;
    assert ReadOptions(["-nt"][1..]) == Options(map[], {});
    var last := ReadOptions(args[2..][2..][2..]);
    assert last == Options(map[], {"-nt"});
    var lang := ReadOptions(args[2..][2..]);
    assert lang == Options(map["-l" := "auto"], {"-nt"});
    var file := ReadOptions(args[2..]);
    assert file.values == map["-f" := audioPath] + map["-l" := "auto"];
  }
}
