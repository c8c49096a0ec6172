/**
 The clipper's entry point: check the command line, register the manifest's
 primer pairs, build every read's transformation (pass 1), then run the full
 handler chain over the same reads (pass 2).

 The files named on the command line are not opened here: the manifest enters
 as its rows, the alignment file as its reads (both fetches of the input file
 yield the same reads, in the same order).
 */
module Clipper {
  import opened Types
  import opened PrimerManifest
  import opened ReadTransformations
  import opened ReadPipeline
  import opened Handlers

  /** The three positional inputs. */
  datatype CommandLine = CommandLine(manifest: string, inputBam: string, outputBam: string)

  /** A checked command line: the three inputs, or the usage error. */
  datatype Arguments = Usage | Files(commandLine: CommandLine)

  /** The exit status of a run given the wrong number of arguments, and of a
      run that failed with an error. */
  const ErrorExitCode := 1

  /** The argument vector in force: the one given, or the process's own when
      none (or an empty one) is given. */
  function EffectiveArgs(commandLineArgs: seq<string>, sysArgv: seq<string>): seq<string>
  {
    if |commandLineArgs| == 0 then sysArgv else commandLineArgs
  }

  /** Exactly four entries (the program name and three inputs) are accepted. */
  function ParseCommandLine(commandLineArgs: seq<string>, sysArgv: seq<string>): (a: Arguments)
    ensures a.Files? <==> |EffectiveArgs(commandLineArgs, sysArgv)| == 4
    ensures a.Files? ==>
              EffectiveArgs(commandLineArgs, sysArgv)
              == [EffectiveArgs(commandLineArgs, sysArgv)[0],
                  a.commandLine.manifest, a.commandLine.inputBam, a.commandLine.outputBam]
  {
    var args := EffectiveArgs(commandLineArgs, sysArgv);
    if |args| != 4 then Usage
    else Files(CommandLine(args[1], args[2], args[3]))
  }

  /** Writing a command line out and checking it gives it back. */
  lemma CommandLineRoundTrip(program: string, commandLine: CommandLine, sysArgv: seq<string>)
    ensures ParseCommandLine([program, commandLine.manifest, commandLine.inputBam, commandLine.outputBam],
                             sysArgv)
            == Files(commandLine)
  {
  }

  /** When pass 2 runs over the reads pass 1 was built from, every read's key
      has a transformation, so the run goes through to the end. */
  lemma {:induction false} SameReadsComplete(handlers: seq<Handler>, handle: HandleFn, engine: Engine,
                                             registry: seq<PrimerPair>, inputReads: seq<Read>)
    ensures forall k :: 0 <= k < |inputReads| ==>
              inputReads[k].key in TransformationsOf(engine, registry, inputReads)
    ensures PipelineRun(handlers, handle, TransformationsOf(engine, registry, inputReads), inputReads).completed
  {
    var transformations := TransformationsOf(engine, registry, inputReads);
    forall k | 0 <= k < |inputReads| ensures inputReads[k].key in transformations {
      assert inputReads[k].key in KeysOf(inputReads);
    }
  }

  /** Across the two passes: when no two reads share a key, each read is
      handled with the transformation pass 1 computed for that very read. */
  lemma HandledWithOwnTransformation(handlers: seq<Handler>, handle: HandleFn, engine: Engine,
                                     registry: seq<PrimerPair>, inputReads: seq<Read>, k: nat)
    requires forall a, b :: 0 <= a < b < |inputReads| ==> inputReads[a].key != inputReads[b].key
    requires k < |PipelineRun(handlers, handle, TransformationsOf(engine, registry, inputReads), inputReads).trace|
    requires PipelineRun(handlers, handle, TransformationsOf(engine, registry, inputReads), inputReads).trace[k].Handle?
    ensures var ev := PipelineRun(handlers, handle, TransformationsOf(engine, registry, inputReads), inputReads).trace[k];
            0 <= ev.read < |inputReads| && ev.own == TransformationOf(engine, registry, inputReads[ev.read])
  {
    var transformations := TransformationsOf(engine, registry, inputReads);
    RunHandles(handlers, handle, transformations, inputReads);
    var ev := PipelineRun(handlers, handle, transformations, inputReads).trace[k];
    LastReadWins(engine, registry, inputReads, ev.read);
  }

  /** The whole program. A command line of the wrong length ends the run with
      the error status before anything is read; otherwise the manifest's
      primer pairs are registered, pass 1 builds every read's transformation,
      and pass 2 runs the full chain (with the exclusion stage) over the same
      reads. */
  method RunClipper(commandLineArgs: seq<string>, sysArgv: seq<string>, rows: seq<ManifestRow>,
                    inputReads: seq<Read>, engine: Engine, handle: HandleFn)
    returns (exitCode: int, registry: seq<PrimerPair>, trace: seq<Event>)
    ensures exitCode == 0 || exitCode == ErrorExitCode
    ensures exitCode == ErrorExitCode <==> |EffectiveArgs(commandLineArgs, sysArgv)| != 4
    ensures exitCode == ErrorExitCode ==> registry == [] && trace == []
    ensures exitCode == 0 ==>
              && registry == RegistryOf(rows)
              && trace == PipelineRun(AllHandlers, handle,
                                      TransformationsOf(engine, RegistryOf(rows), inputReads),
                                      inputReads).trace
  {
    var arguments := ParseCommandLine(commandLineArgs, sysArgv);
    if arguments.Usage? {
      return ErrorExitCode, [], [];
    }
    registry := InitializePrimerPairs(rows);
    var transformations, readCount := BuildReadTransformations(engine, registry, inputReads);
    var handlers := BuildHandlers(true);
    var completed;
    trace, completed := HandleReads(handlers, handle, inputReads, transformations);
    SameReadsComplete(handlers, handle, engine, registry, inputReads);
    exitCode := if completed then 0 else ErrorExitCode;
  }
}
