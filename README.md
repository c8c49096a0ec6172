# Amplicon soft-clipper: orchestration layer

A Dafny model of the driver of an amplicon primer soft-clipper
(`ampliconsoftclipper/clipper.py`). The driver

- turns each row of the primer manifest into a registered primer pair, with
  0-based half-open sense and antisense intervals and a `chr`-prefixed
  chromosome;
- runs pass 1 over the reads: match each read to a primer pair, soft-clip its
  alignment for that pair, and record `(primer pair, new reference start, new
  CIGAR)` under the read's key;
- builds the handler chain (statistics, exclusion of unmatched reads, tagging,
  transformation, writing), dropping the exclusion stage when unmatched reads
  are kept;
- runs pass 2: `begin` every stage, give every read to the stages in order with
  its own transformation and its mate's (the null transformation when the mate
  was never seen), let a stage stop the current read only, then `end` every
  stage;
- accepts a command line of exactly four entries, and ends with status 1
  otherwise.

The primer matcher, the CIGAR builder and the soft-clipping engine are not part
of this model: they enter as the three uninterpreted functions of
`Types.Engine`, and nothing is assumed about them. The stages of the handler
chain enter as a function `handle` giving each stage's answer (go on, or stop
this read) for a read and its two transformations; pass 2 is specified by the
trace of stage calls it makes (`ReadPipeline.Event`).

Files: `types.dfy` (shared values), `manifest.dfy` (manifest rows to primer
pairs), `transformations.dfy` (pass 1), `pipeline.dfy` (pass 2 and its trace
properties), `handlers.dfy` (the handler list), `clipper.dfy` (command line and
the whole run).

## Model

| member | source | states |
|---|---|---|
| PrimerManifest.PrimerPairOf | ampliconsoftclipper/clipper.py:66-73 | the registered pair keeps the row's identifier, prefixes its chromosome with `chr`; the sense interval starts one before the sense column and is as long as the sense primer; the antisense interval ends at the antisense column and is as long as the antisense primer; both intervals have start <= end |
| PrimerManifest.InitializePrimerPairs | ampliconsoftclipper/clipper.py:63-73 | one primer pair is registered per manifest row, in row order, each the pair of its row |
| PrimerManifest.CoordinatesRoundTrip | ampliconsoftclipper/clipper.py:66-71 | reading the manifest columns back from a registered pair (strip `chr`, add one to the sense start, take the antisense end, take the lengths) gives the row's identifier, chromosome, start columns and primer lengths |
| PrimerManifest.SameCoordinatesSamePair | ampliconsoftclipper/clipper.py:66-73 | only the primer lengths, not their bases, affect the registered pair |
| PrimerManifest.PositiveIntervalsIff | ampliconsoftclipper/clipper.py:66-69 | both intervals have positive length exactly when both primer sequences are non-empty |
| ReadTransformations.TransformationsOf | ampliconsoftclipper/clipper.py:36-42 | the key set of the pass-1 map is the set of keys of the reads |
| ReadTransformations.LastReadWins | ampliconsoftclipper/clipper.py:37-42 | the entry for a key is `(match(r), softclip(match(r), cigar(r)).reference_start, .cigar)` for the last read `r` with that key |
| ReadTransformations.BuildReadTransformations | ampliconsoftclipper/clipper.py:33-45 | the loop builds exactly the pass-1 map, whose keys are the reads' keys, and counts every read |
| ReadPipeline.FirstMissing | ampliconsoftclipper/clipper.py:51-52 | locates the first read whose own key has no transformation: all earlier keys are present and that one is not |
| ReadPipeline.HandleReads | ampliconsoftclipper/clipper.py:47-61 | the nested loops make exactly the calls of `PipelineRun`: begins, per-read stage calls cut short by a stop, ends; the run completes exactly when every read's key has a transformation |
| ReadPipeline.BeginEventsShape | ampliconsoftclipper/clipper.py:49-50 | `begin` is called for stages 0..n-1, in that order |
| ReadPipeline.EndEventsShape | ampliconsoftclipper/clipper.py:60-61 | `end` is called for stages 0..n-1, in that order |
| ReadPipeline.StageEventsShape | ampliconsoftclipper/clipper.py:55-59 | for one read the stages are called in list order, and stage `s` is called exactly when no earlier stage stopped the read |
| ReadPipeline.HandledEventsShape | ampliconsoftclipper/clipper.py:51-57 | every call made for the reads is a `handle` of a listed stage, naming one of those reads with its own transformation and its mate's (null when absent), and reads are handled in input order |
| ReadPipeline.HandledEventsStopScope | ampliconsoftclipper/clipper.py:55-59 | over the reads handled so far, stage `s` handles read `k` exactly when no earlier stage stopped read `k`, whatever happened to other reads |
| ReadPipeline.RunBegins | ampliconsoftclipper/clipper.py:49-51 | a run starts with `begin` of every stage once, in list order, before any `handle`, and has no other `begin` |
| ReadPipeline.RunEnds | ampliconsoftclipper/clipper.py:60-61 | a completed run ends with `end` of every stage once, in list order, after every `handle`; an aborted run calls no `end` |
| ReadPipeline.RunHandles | ampliconsoftclipper/clipper.py:51-57 | every `handle` of a run passes the read's own transformation and its mate's, or the null transformation `(NULL_PRIMER_PAIR, 0, "")` when the mate key is absent; reads come in input order |
| ReadPipeline.StopScope | ampliconsoftclipper/clipper.py:55-59 | in a completed run, stage `s` handles read `k` exactly when no stage before `s` stopped read `k`; so a stop skips only the later stages of that read and every read reaches the first stage |
| Handlers.RemoveFirst | ampliconsoftclipper/clipper.py:88 | list removal drops exactly the first occurrence and keeps the other elements in order |
| Handlers.RemoveFirstMultiset | ampliconsoftclipper/clipper.py:88 | removal takes away one occurrence of the element and nothing else |
| Handlers.BuildHandlers | ampliconsoftclipper/clipper.py:75-89 | with the flag, `[stats, exclude, tag, transform, write]`; without it, the same list less `exclude`; `exclude` is present exactly when the flag is set |
| Clipper.ParseCommandLine | ampliconsoftclipper/clipper.py:99-108 | a command line is accepted exactly when the vector in force (the given one, or the process's when none is given) has four entries, and then its last three entries are the manifest, input and output names |
| Clipper.CommandLineRoundTrip | ampliconsoftclipper/clipper.py:101-108 | a program name followed by the three names is accepted and gives those names back |
| Clipper.SameReadsComplete | ampliconsoftclipper/clipper.py:122-130 | when pass 2 iterates the reads pass 1 was built from, every own-key lookup succeeds and the run completes |
| Clipper.HandledWithOwnTransformation | ampliconsoftclipper/clipper.py:36-57 | when keys are unique, every `handle` call passes the read the transformation pass 1 computed from that read |
| Clipper.RunClipper | ampliconsoftclipper/clipper.py:97-138 | exit status 1 exactly when the argument count is not four, before anything is registered or handled; otherwise status 0, the registry is the manifest's pairs, and the trace is pass 2 over the same reads with the full five-stage chain and pass 1's map |

## Left out

- Reading and writing BAM files, and both `fetch()` calls: the reads are a parameter, and both fetches are taken to yield the same reads in the same order.
- Tokenising the manifest and converting its start columns with `int(...)`: rows arrive split, with integer start columns; a failing conversion (which ends the program outside the error handler) is not modelled.
- Logging (`_log`, timestamps, the usage line, the traceback) and the read count that pass 1 only logs (it is returned, not printed).
- The primer registry's own checks: whatever `PrimerPair`'s constructor checks or stores is not part of this model; the registry is the returned sequence of pairs, in manifest order.
- Primer matching, CIGAR construction, soft-clipping and the five stages' effects: these are defined outside the file and enter as uninterpreted functions; in particular no CIGAR arithmetic, idempotence or exclusion behaviour is stated.
- Stage state: a stage's answer is a function of the stage, the read and the two transformations; a stage whose answer depends on what it saw earlier (its own state) is not captured.
- The catch-all error handler of `main`: the only run-time error modelled is the failing own-key lookup in pass 2, which ends the run with status 1 and no `end` calls; errors raised by the engine or the stages are not modelled.
- `main` with `command_line_args=None`: modelled as the empty vector, which falls back to the process's arguments in the same way.
