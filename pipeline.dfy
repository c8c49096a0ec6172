/**
 Pass 2: the handler pipeline. Every stage is begun, in list order; then each
 read is given to the stages in list order, with its own transformation and
 its mate's, until a stage stops that read; then every stage is ended, in list
 order.

 The stages themselves are not part of this model. A stage's handling of a
 read is recorded as an event, and its answer (go on, or stop this read) is
 given by the function `handle`.
 */
module ReadPipeline {
  import opened Types

  /** One call into a stage: `begin`, `handle` of the read at index `read`
      with the two transformations it was given, or `end`. */
  datatype Event =
    | Begin(stage: int)
    | Handle(stage: int, read: int, own: Transformation, mate: Transformation)
    | End(stage: int)

  /** The stage answers, as a function of the stage and its arguments. */
  type HandleFn = (Handler, Read, Transformation, Transformation) -> Signal

  /** The transformation of a read's mate; the null transformation when the
      mate was never seen. */
  function MateTransformation(transformations: map<ReadKey, Transformation>, read: Read): Transformation
  {
    if read.mateKey in transformations then transformations[read.mateKey] else NullTransformation
  }

  /** `begin` (or `end`) of the first `n` stages, in order. */
  function BeginEvents(n: nat): seq<Event>
  {
    if n == 0 then [] else BeginEvents(n - 1) + [Begin(n - 1)]
  }

  function EndEvents(n: nat): seq<Event>
  {
    if n == 0 then [] else EndEvents(n - 1) + [End(n - 1)]
  }

  /** The calls stages `j..` make for one read: each stage is called in turn,
      and a stage that answers `Stop` is the last one called. */
  function StageEvents(handlers: seq<Handler>, handle: HandleFn, j: nat, i: int,
                       read: Read, own: Transformation, mate: Transformation): seq<Event>
    requires j <= |handlers|
    decreases |handlers| - j
  {
    if j == |handlers| then []
    else
      [Handle(j, i, own, mate)] +
      (if handle(handlers[j], read, own, mate) == Stop then []
       else StageEvents(handlers, handle, j + 1, i, read, own, mate))
  }

  /** The calls made for the read at index `i`, whose key has a transformation. */
  function ReadEvents(handlers: seq<Handler>, handle: HandleFn,
                      transformations: map<ReadKey, Transformation>, inputReads: seq<Read>, i: nat)
    : seq<Event>
    requires i < |inputReads| && inputReads[i].key in transformations
  {
    var read := inputReads[i];
    StageEvents(handlers, handle, 0, i, read, transformations[read.key],
                MateTransformation(transformations, read))
  }

  /** The calls made for the first `n` reads. */
  function HandledEvents(handlers: seq<Handler>, handle: HandleFn,
                         transformations: map<ReadKey, Transformation>, inputReads: seq<Read>, n: nat)
    : seq<Event>
    requires n <= |inputReads|
    requires forall k :: 0 <= k < n ==> inputReads[k].key in transformations
  {
    if n == 0 then []
    else HandledEvents(handlers, handle, transformations, inputReads, n - 1)
         + ReadEvents(handlers, handle, transformations, inputReads, n - 1)
  }

  /** The index of the first read whose key has no transformation, or the
      number of reads when there is none. */
  function FirstMissing(transformations: map<ReadKey, Transformation>, inputReads: seq<Read>): (r: nat)
    ensures r <= |inputReads|
    ensures forall k :: 0 <= k < r ==> inputReads[k].key in transformations
    ensures r < |inputReads| ==> inputReads[r].key !in transformations
  {
    if |inputReads| == 0 then 0
    else if inputReads[0].key !in transformations then 0
    else 1 + FirstMissing(transformations, inputReads[1..])
  }

  /** What a run of pass 2 does: the calls it makes, and whether it got to the
      end. A read whose own key has no transformation aborts the run (the
      lookup fails) before any stage sees that read, and no stage is ended. */
  datatype Run = Run(trace: seq<Event>, completed: bool)

  function PipelineRun(handlers: seq<Handler>, handle: HandleFn,
                       transformations: map<ReadKey, Transformation>, inputReads: seq<Read>): Run
  {
    var n := FirstMissing(transformations, inputReads);
    var completed := n == |inputReads|;
    Run(BeginEvents(|handlers|)
        + HandledEvents(handlers, handle, transformations, inputReads, n)
        + (if completed then EndEvents(|handlers|) else []),
        completed)
  }

  /** Pass 2 as the source runs it: nested loops over reads and stages, the
      inner one left early when a stage stops the current read. */
  method HandleReads(handlers: seq<Handler>, handle: HandleFn, inputReads: seq<Read>,
                     transformations: map<ReadKey, Transformation>)
    returns (trace: seq<Event>, completed: bool)
    ensures Run(trace, completed) == PipelineRun(handlers, handle, transformations, inputReads)
    ensures completed <==> forall k :: 0 <= k < |inputReads| ==> inputReads[k].key in transformations
  {
    trace := [];
    for h := 0 to |handlers|
      invariant trace == BeginEvents(h)
    {
      trace := trace + [Begin(h)];
    }
    completed := true;
    var i := 0;
    while i < |inputReads|
      invariant i <= |inputReads|
      invariant forall k :: 0 <= k < i ==> inputReads[k].key in transformations
      invariant trace == BeginEvents(|handlers|) + HandledEvents(handlers, handle, transformations, inputReads, i)
    {
      var read := inputReads[i];
      if read.key !in transformations {
        completed := false;
        break;
      }
      var own := transformations[read.key];
      var mate := if read.mateKey in transformations then transformations[read.mateKey]
                  else NullTransformation;
      ghost var before := trace;
      var j := 0;
      var stopped := false;
      while j < |handlers| && !stopped
        invariant 0 <= j <= |handlers|
        invariant before + StageEvents(handlers, handle, 0, i, read, own, mate)
                  == trace + (if stopped then [] else StageEvents(handlers, handle, j, i, read, own, mate))
      {
        assert StageEvents(handlers, handle, j, i, read, own, mate)
               == [Handle(j, i, own, mate)]
                  + (if handle(handlers[j], read, own, mate) == Stop then []
                     else StageEvents(handlers, handle, j + 1, i, read, own, mate));
        trace := trace + [Handle(j, i, own, mate)];
        if handle(handlers[j], read, own, mate) == Stop {
          stopped := true;
        }
        j := j + 1;
      }
      assert trace == before + ReadEvents(handlers, handle, transformations, inputReads, i);
      assert HandledEvents(handlers, handle, transformations, inputReads, i + 1)
             == HandledEvents(handlers, handle, transformations, inputReads, i)
                + ReadEvents(handlers, handle, transformations, inputReads, i);
      i := i + 1;
    }
    assert FirstMissing(transformations, inputReads) == i;
    assert completed <==> i == |inputReads|;
    if completed {
      for h := 0 to |handlers|
        invariant trace == BeginEvents(|handlers|)
                           + HandledEvents(handlers, handle, transformations, inputReads, |inputReads|)
                           + EndEvents(h)
      {
        trace := trace + [End(h)];
      }
    }
  }

  // Properties of a run, stated on the specification functions above.

  lemma {:induction false} BeginEventsShape(n: nat)
    ensures |BeginEvents(n)| == n
    ensures forall k :: 0 <= k < n ==> BeginEvents(n)[k] == Begin(k)
  {
    if n > 0 { BeginEventsShape(n - 1); }
  }

  lemma {:induction false} EndEventsShape(n: nat)
    ensures |EndEvents(n)| == n
    ensures forall k :: 0 <= k < n ==> EndEvents(n)[k] == End(k)
  {
    if n > 0 { EndEventsShape(n - 1); }
  }

  /** Every stage from `j` up to (not including) `s` lets the read go on. */
  predicate ContinuesBefore(handlers: seq<Handler>, handle: HandleFn, read: Read,
                            own: Transformation, mate: Transformation, j: int, s: int)
  {
    forall t :: j <= t < s && 0 <= t < |handlers| ==> handle(handlers[t], read, own, mate) == Continue
  }

  /** For one read, the stages from `j` on are called in list order, and stage
      `s` is called exactly when no stage before it (from `j`) stopped the
      read: a stop skips the rest of the stages. */
  lemma {:induction false} StageEventsShape(handlers: seq<Handler>, handle: HandleFn, j: nat, i: int,
                                            read: Read, own: Transformation, mate: Transformation)
    requires j <= |handlers|
    ensures var e := StageEvents(handlers, handle, j, i, read, own, mate);
            && |e| <= |handlers| - j
            && (forall k :: 0 <= k < |e| ==> e[k] == Handle(j + k, i, own, mate))
            && (forall s :: j <= s < |handlers| ==>
                  (s - j < |e| <==> ContinuesBefore(handlers, handle, read, own, mate, j, s)))
    decreases |handlers| - j
  {
    if j < |handlers| {
      var e := StageEvents(handlers, handle, j, i, read, own, mate);
      if handle(handlers[j], read, own, mate) == Stop {
        forall s | j < s < |handlers|
          ensures !ContinuesBefore(handlers, handle, read, own, mate, j, s)
        {
          assert handle(handlers[j], read, own, mate) != Continue;
        }
      } else {
        StageEventsShape(handlers, handle, j + 1, i, read, own, mate);
        var rest := StageEvents(handlers, handle, j + 1, i, read, own, mate);
        assert e == [Handle(j, i, own, mate)] + rest;
        forall s | j < s < |handlers|
          ensures ContinuesBefore(handlers, handle, read, own, mate, j, s)
                  <==> ContinuesBefore(handlers, handle, read, own, mate, j + 1, s)
        {
        }
      }
    }
  }

  /** `ev` is a `handle` call of a stage of the list, for one of the first
      `bound` reads, with that read's own transformation and its mate's. */
  predicate HandleCallOf(handlers: seq<Handler>, transformations: map<ReadKey, Transformation>,
                         inputReads: seq<Read>, bound: int, ev: Event)
  {
    && ev.Handle?
    && 0 <= ev.stage < |handlers|
    && 0 <= ev.read < bound
    && ev.read < |inputReads|
    && inputReads[ev.read].key in transformations
    && ev.own == transformations[inputReads[ev.read].key]
    && ev.mate == MateTransformation(transformations, inputReads[ev.read])
  }

  /** The `handle` calls of a trace name reads in nondecreasing input order. */
  predicate InReadOrder(trace: seq<Event>)
  {
    forall a, b :: 0 <= a < b < |trace| && trace[a].Handle? && trace[b].Handle? ==>
      trace[a].read <= trace[b].read
  }

  /** The calls made for the first `n` reads are all `handle` calls, with a
      stage of the list; each names one of those reads and passes it its own
      transformation and its mate's (or the null one); and the reads come in
      input order. */
  lemma {:induction false} HandledEventsShape(handlers: seq<Handler>, handle: HandleFn,
                                              transformations: map<ReadKey, Transformation>,
                                              inputReads: seq<Read>, n: nat)
    requires n <= |inputReads|
    requires forall k :: 0 <= k < n ==> inputReads[k].key in transformations
    ensures forall k :: 0 <= k < |HandledEvents(handlers, handle, transformations, inputReads, n)| ==>
              HandleCallOf(handlers, transformations, inputReads, n,
                           HandledEvents(handlers, handle, transformations, inputReads, n)[k])
    ensures InReadOrder(HandledEvents(handlers, handle, transformations, inputReads, n))
  {
    if n > 0 {
      HandledEventsShape(handlers, handle, transformations, inputReads, n - 1);
      var read := inputReads[n - 1];
      StageEventsShape(handlers, handle, 0, n - 1, read, transformations[read.key],
                       MateTransformation(transformations, read));
      var prior := HandledEvents(handlers, handle, transformations, inputReads, n - 1);
      var block := ReadEvents(handlers, handle, transformations, inputReads, n - 1);
      var e := prior + block;
      assert e == HandledEvents(handlers, handle, transformations, inputReads, n);
      forall k | 0 <= k < |e|
        ensures HandleCallOf(handlers, transformations, inputReads, n, e[k])
        ensures k < |prior| ==> e[k].read < n - 1
        ensures |prior| <= k ==> e[k].read == n - 1
      {
        if k < |prior| {
          assert e[k] == prior[k];
          assert HandleCallOf(handlers, transformations, inputReads, n - 1, prior[k]);
        } else {
          assert e[k] == block[k - |prior|];
        }
      }
    }
  }

  /** Stop scope, for the first `n` reads: stage `s` handles read `k` exactly
      when no earlier stage stopped read `k`, whatever happened to the other
      reads. */
  lemma {:induction false} HandledEventsStopScope(handlers: seq<Handler>, handle: HandleFn,
                                                  transformations: map<ReadKey, Transformation>,
                                                  inputReads: seq<Read>, n: nat, k: nat, s: nat)
    requires n <= |inputReads|
    requires forall k :: 0 <= k < n ==> inputReads[k].key in transformations
    requires k < n && s < |handlers|
    ensures var read := inputReads[k];
            var own := transformations[read.key];
            var mate := MateTransformation(transformations, read);
            Handle(s, k, own, mate) in HandledEvents(handlers, handle, transformations, inputReads, n)
            <==> ContinuesBefore(handlers, handle, read, own, mate, 0, s)
  {
    var read := inputReads[k];
    var own := transformations[read.key];
    var mate := MateTransformation(transformations, read);
    var x := Handle(s, k, own, mate);
    var prior := HandledEvents(handlers, handle, transformations, inputReads, n - 1);
    var last := inputReads[n - 1];
    var block := ReadEvents(handlers, handle, transformations, inputReads, n - 1);
    HandledEventsShape(handlers, handle, transformations, inputReads, n - 1);
    StageEventsShape(handlers, handle, 0, n - 1, last, transformations[last.key],
                     MateTransformation(transformations, last));
    if k == n - 1 {
      assert x !in prior by {
        forall m | 0 <= m < |prior| ensures prior[m] != x {
          assert HandleCallOf(handlers, transformations, inputReads, n - 1, prior[m]);
        }
      }
      if x in block {
        var m :| 0 <= m < |block| && block[m] == x;
        assert m == s;
      }
      if ContinuesBefore(handlers, handle, read, own, mate, 0, s) {
        assert block[s] == x;
      }
    } else {
      assert x !in block by {
        forall m | 0 <= m < |block| ensures block[m] != x {
          assert block[m].read == n - 1;
        }
      }
      HandledEventsStopScope(handlers, handle, transformations, inputReads, n - 1, k, s);
    }
  }

  lemma RunLength(handlers: seq<Handler>, handle: HandleFn,
                  transformations: map<ReadKey, Transformation>, inputReads: seq<Read>)
    ensures var r := PipelineRun(handlers, handle, transformations, inputReads);
            var n := FirstMissing(transformations, inputReads);
            |r.trace| == |handlers|
                         + |HandledEvents(handlers, handle, transformations, inputReads, n)|
                         + (if r.completed then |handlers| else 0)
  {
    BeginEventsShape(|handlers|);
    EndEventsShape(|handlers|);
  }

  /** Where each part of a run's trace sits: `begin` calls first, then the
      `handle` calls, then (for a completed run) the `end` calls. */
  lemma RunLayout(handlers: seq<Handler>, handle: HandleFn,
                  transformations: map<ReadKey, Transformation>, inputReads: seq<Read>, k: int)
    requires 0 <= k < |PipelineRun(handlers, handle, transformations, inputReads).trace|
    ensures var r := PipelineRun(handlers, handle, transformations, inputReads);
            var n := FirstMissing(transformations, inputReads);
            var handled := HandledEvents(handlers, handle, transformations, inputReads, n);
            var m := |handlers|;
            && |r.trace| == m + |handled| + (if r.completed then m else 0)
            && (k < m ==> r.trace[k] == Begin(k))
            && (m <= k < m + |handled| ==> r.trace[k] == handled[k - m])
            && (m + |handled| <= k ==> r.completed && r.trace[k] == End(k - m - |handled|))
  {
    var n := FirstMissing(transformations, inputReads);
    var begins := BeginEvents(|handlers|);
    var handled := HandledEvents(handlers, handle, transformations, inputReads, n);
    var ends := if n == |inputReads| then EndEvents(|handlers|) else [];
    BeginEventsShape(|handlers|);
    EndEventsShape(|handlers|);
    var t := begins + handled + ends;
    if k < |begins| {
      assert t[k] == begins[k];
    } else if k < |begins| + |handled| {
      assert t[k] == handled[k - |begins|];
    } else {
      assert t[k] == ends[k - |begins| - |handled|];
    }
  }

  /** A run starts with `begin` of every stage, once each and in list order,
      and calls `begin` nowhere else. */
  lemma RunBegins(handlers: seq<Handler>, handle: HandleFn,
                  transformations: map<ReadKey, Transformation>, inputReads: seq<Read>)
    ensures var t := PipelineRun(handlers, handle, transformations, inputReads).trace;
            && |t| >= |handlers|
            && (forall k :: 0 <= k < |handlers| ==> t[k] == Begin(k))
            && (forall k :: 0 <= k < |t| ==> (t[k].Begin? <==> k < |handlers|))
  {
    var n := FirstMissing(transformations, inputReads);
    var t := PipelineRun(handlers, handle, transformations, inputReads).trace;
    HandledEventsShape(handlers, handle, transformations, inputReads, n);
    forall k | 0 <= k < |t| ensures (k < |handlers| ==> t[k] == Begin(k)) && (t[k].Begin? <==> k < |handlers|) {
      RunLayout(handlers, handle, transformations, inputReads, k);
    }
    if |handlers| > 0 { RunLayout(handlers, handle, transformations, inputReads, 0); }
  }

  /** A completed run ends with `end` of every stage, once each and in list
      order; no run calls `end` anywhere else, and an aborted run not at all. */
  lemma RunEnds(handlers: seq<Handler>, handle: HandleFn,
                transformations: map<ReadKey, Transformation>, inputReads: seq<Read>)
    ensures var r := PipelineRun(handlers, handle, transformations, inputReads);
            var t := r.trace;
            && (r.completed ==>
                  && |t| >= |handlers|
                  && forall k :: 0 <= k < |handlers| ==> t[|t| - |handlers| + k] == End(k))
            && (forall k :: 0 <= k < |t| ==> (t[k].End? <==> r.completed && |t| - |handlers| <= k))
  {
    var n := FirstMissing(transformations, inputReads);
    var r := PipelineRun(handlers, handle, transformations, inputReads);
    var t := r.trace;
    HandledEventsShape(handlers, handle, transformations, inputReads, n);
    RunLength(handlers, handle, transformations, inputReads);
    forall k | 0 <= k < |t| ensures t[k].End? <==> r.completed && |t| - |handlers| <= k {
      RunLayout(handlers, handle, transformations, inputReads, k);
    }
    if r.completed {
      forall k | 0 <= k < |handlers| ensures t[|t| - |handlers| + k] == End(k) {
        RunLayout(handlers, handle, transformations, inputReads, |t| - |handlers| + k);
      }
    }
  }

  /** Between `begin` and `end`, a run makes only `handle` calls: each names a
      stage of the list and a read whose key has a transformation, passes that
      read its own transformation and its mate's (or the null one), and the
      reads come in input order. */
  lemma RunHandles(handlers: seq<Handler>, handle: HandleFn,
                   transformations: map<ReadKey, Transformation>, inputReads: seq<Read>)
    ensures var t := PipelineRun(handlers, handle, transformations, inputReads).trace;
            && (forall k :: 0 <= k < |t| && t[k].Handle? ==>
                  HandleCallOf(handlers, transformations, inputReads, |inputReads|, t[k]))
            && InReadOrder(t)
  {
    var n := FirstMissing(transformations, inputReads);
    var t := PipelineRun(handlers, handle, transformations, inputReads).trace;
    var handled := HandledEvents(handlers, handle, transformations, inputReads, n);
    HandledEventsShape(handlers, handle, transformations, inputReads, n);
    forall k | 0 <= k < |t| && t[k].Handle?
      ensures |handlers| <= k < |handlers| + |handled| && t[k] == handled[k - |handlers|]
    {
      RunLayout(handlers, handle, transformations, inputReads, k);
    }
    forall a, b | 0 <= a < b < |t| && t[a].Handle? && t[b].Handle?
      ensures t[a].read <= t[b].read
    {
      assert t[a] == handled[a - |handlers|] && t[b] == handled[b - |handlers|];
    }
  }

  /** Stop scope for a run that read to the end: stage `s` handles read `k`
      exactly when no stage before `s` stopped read `k`. In particular every
      read reaches the first stage, whatever a stage did with an earlier read. */
  lemma StopScope(handlers: seq<Handler>, handle: HandleFn,
                  transformations: map<ReadKey, Transformation>, inputReads: seq<Read>,
                  k: nat, s: nat)
    requires forall j :: 0 <= j < |inputReads| ==> inputReads[j].key in transformations
    requires k < |inputReads| && s < |handlers|
    ensures var read := inputReads[k];
            var own := transformations[read.key];
            var mate := MateTransformation(transformations, read);
            Handle(s, k, own, mate) in PipelineRun(handlers, handle, transformations, inputReads).trace
            <==> ContinuesBefore(handlers, handle, read, own, mate, 0, s)
  {
    var n := FirstMissing(transformations, inputReads);
    assert n == |inputReads|;
    BeginEventsShape(|handlers|);
    EndEventsShape(|handlers|);
    HandledEventsStopScope(handlers, handle, transformations, inputReads, n, k, s);
    var read := inputReads[k];
    var x := Handle(s, k, transformations[read.key], MateTransformation(transformations, read));
    assert x !in BeginEvents(|handlers|);
    assert x !in EndEvents(|handlers|);
  }
}
