/** ThreadedQueuedConcurrentMetricsServiceThread: the single consumer of metrics events. It
    folds submitted results into the metrics manager, answers status and snapshot requests,
    and stops once it has processed as many results as the termination event announced.

    The queue is the sequence of events the thread fetches, in order. The collaborators are
    represented by what they do to the thread: the delay policy's decision, whether the metrics
    manager's measure raises, and whether handling an event raises some other Throwable; the
    manager, the CSV writer, the futures and the error reporter are append-only logs. */
module MetricsServiceThread {
  import opened Wrappers
  import opened JavaInts

  const NANOS_PER_MILLI: nat := 1_000_000

  /** A non-negative Java `long` count of nanoseconds: an instant (Time.asNano()) or a
      duration (Duration.asNano()). */
  type Nanos = x: int | 0 <= x < TWO_63

  /** The part of an operation the thread reads: its class name and scheduled start. */
  datatype Operation = Operation(className: string, scheduledStartTimeNano: Nanos)

  /** An OperationResultReport: the operation, its actual start and its run duration. */
  datatype OperationResultReport = OperationResultReport(operation: Operation, actualStartTimeNano: Nanos, runDurationNano: Nanos)

  /** A row of the CSV results log: operation class, scheduled start, actual start, duration (ms). */
  datatype CsvRow = CsvRow(operationType: string, scheduledStartTimeMilli: nat, actualStartTimeMilli: nat, runDurationMilli: nat)

  /** A MetricsCollectionEvent; futures are named by an identifier. UnexpectedEvent stands for
      an event type the dispatch has no case for. */
  datatype MetricsCollectionEvent =
    | SubmitResult(result: OperationResultReport)
    | WorkloadStatus(statusFuture: nat)
    | WorkloadResult(workloadResultFuture: nat)
    | TerminateService(expectedEventCount: int)
    | UnexpectedEvent(typeName: string)

  /** What a future is set to: the manager's status or results snapshot, both derived from the
      results the manager has been asked to measure so far. */
  datatype FutureValue =
    | WorkloadStatusValue(measuredSoFar: seq<OperationResultReport>)
    | WorkloadResultsSnapshot(measuredSoFar: seq<OperationResultReport>)

  /** What the thread reports to the error reporter. */
  datatype ErrorReport =
    | MetricsCollectionError(result: OperationResultReport)
    | MultipleTerminateEvents(firstExpectedEventCount: int, secondExpectedEventCount: int)
    | UnexpectedEventType(typeName: string)
    | UnexpectedException(event: MetricsCollectionEvent)

  /** The thread's configuration and its collaborators' decisions. */
  datatype Config = Config(
    shouldRecordStartTimeDelayLatencies: bool,
    toleratedDelayNano: Nanos,
    csvResultsLogWriterPresent: bool,
    handleExcessiveDelay: Operation -> bool,            // ExecutionDelayPolicy
    measureRaises: OperationResultReport -> bool,       // MetricsManager.measure throws MetricsCollectionException
    handlingRaises: MetricsCollectionEvent -> bool)     // any other Throwable while handling the event

  /** The thread's counters and everything it has done to its collaborators. */
  datatype MetricsState = MetricsState(
    processedEventCount: int,
    expectedEventCount: Option<int>,
    measured: seq<OperationResultReport>,
    csvRows: seq<CsvRow>,
    resolvedFutures: seq<(nat, FutureValue)>,
    errors: seq<ErrorReport>)

  /** Why run() returned: the expected count was reached, it stopped on an error, or (in this
      model only) the supplied events ran out while it was still waiting for more. */
  datatype Exit = Drained | Halted | AwaitingEvents

  datatype RunOutcome = RunOutcome(state: MetricsState, consumed: nat, exit: Exit)

  function InitialState(): MetricsState
  {
    MetricsState(0, None, [], [], [], [])
  }

  /** The loop condition of run(). */
  predicate Running(s: MetricsState)
  {
    s.expectedEventCount.None? || s.processedEventCount < s.expectedEventCount.value
  }

  /** The late-start check: record unless delay recording is on, the operation started
      strictly later than its scheduled start plus the tolerated delay, and the policy says no.
      The sum is a Java `long`: when it exceeds Long.MAX_VALUE it wraps to a negative value,
      and then every operation counts as late. */
  function ShouldRecord(config: Config, result: OperationResultReport): (b: bool)
    ensures !config.shouldRecordStartTimeDelayLatencies ==> b
    ensures config.shouldRecordStartTimeDelayLatencies
            && result.operation.scheduledStartTimeNano + config.toleratedDelayNano < result.actualStartTimeNano
            ==> (b <==> config.handleExcessiveDelay(result.operation))
    ensures result.actualStartTimeNano <= result.operation.scheduledStartTimeNano + config.toleratedDelayNano < TWO_63 ==> b
    ensures config.shouldRecordStartTimeDelayLatencies
            && result.operation.scheduledStartTimeNano + config.toleratedDelayNano >= TWO_63
            ==> (b <==> config.handleExcessiveDelay(result.operation))
  {
    var record := true;
    if config.shouldRecordStartTimeDelayLatencies
       && Wrap64(result.operation.scheduledStartTimeNano + config.toleratedDelayNano) < result.actualStartTimeNano
    then config.handleExcessiveDelay(result.operation)
    else record
  }

  /** Time.asMilli(): whole milliseconds of a nanosecond instant or duration. */
  function AsMilli(nano: nat): nat
  {
    nano / NANOS_PER_MILLI
  }

  function CsvRowFor(result: OperationResultReport): CsvRow
  {
    CsvRow(result.operation.className,
           AsMilli(result.operation.scheduledStartTimeNano),
           AsMilli(result.actualStartTimeNano),
           AsMilli(result.runDurationNano))
  }

  /** One pass of the loop body on a fetched event: the new state and whether the loop goes on. */
  function Step(config: Config, s: MetricsState, e: MetricsCollectionEvent): (r: (MetricsState, bool))
    ensures r.1 <==> !config.handlingRaises(e) && !e.UnexpectedEvent?
    ensures r.0.processedEventCount
            == s.processedEventCount + (if e.SubmitResult? && !config.handlingRaises(e) then 1 else 0)
    ensures s.expectedEventCount.Some? ==> r.0.expectedEventCount == s.expectedEventCount
    ensures !e.TerminateService? ==> r.0.expectedEventCount == s.expectedEventCount
    ensures |r.0.errors| > |s.errors|
            <==> (!r.1 || (e.TerminateService? && s.expectedEventCount.Some?)
                  || (e.SubmitResult? && ShouldRecord(config, e.result) && config.measureRaises(e.result)))
  {
    if config.handlingRaises(e) then (s.(errors := s.errors + [UnexpectedException(e)]), false)
    else match e
      case SubmitResult(result) =>
        var s1 := if config.csvResultsLogWriterPresent then s.(csvRows := s.csvRows + [CsvRowFor(result)]) else s;
        var s2 := if !ShouldRecord(config, result) then s1
                  else if config.measureRaises(result)
                  then s1.(measured := s1.measured + [result], errors := s1.errors + [MetricsCollectionError(result)])
                  else s1.(measured := s1.measured + [result]);
        (s2.(processedEventCount := s2.processedEventCount + 1), true)
      case WorkloadStatus(future) =>
        (s.(resolvedFutures := s.resolvedFutures + [(future, WorkloadStatusValue(s.measured))]), true)
      case WorkloadResult(future) =>
        (s.(resolvedFutures := s.resolvedFutures + [(future, WorkloadResultsSnapshot(s.measured))]), true)
      case TerminateService(n) =>
        if s.expectedEventCount.None? then (s.(expectedEventCount := Some(n)), true)
        else (s.(errors := s.errors + [MultipleTerminateEvents(s.expectedEventCount.value, n)]), true)
      case UnexpectedEvent(name) =>
        (s.(errors := s.errors + [UnexpectedEventType(name)]), false)
  }

  /** run() over the events it fetches, from state s. */
  function RunEvents(config: Config, s: MetricsState, events: seq<MetricsCollectionEvent>): (o: RunOutcome)
    ensures o.consumed <= |events|
    ensures o.exit == AwaitingEvents ==> o.consumed == |events|
    decreases |events|
  {
    if !Running(s) then RunOutcome(s, 0, Drained)
    else if events == [] then RunOutcome(s, 0, AwaitingEvents)
    else
      var (s', goOn) := Step(config, s, events[0]);
      if !goOn then RunOutcome(s', 1, Halted)
      else
        var o := RunEvents(config, s', events[1..]);
        o.(consumed := o.consumed + 1)
  }

  /** The events that count as processed: submitted results whose handling did not raise. */
  function ProcessedCount(config: Config, events: seq<MetricsCollectionEvent>): nat
  {
    if events == [] then 0
    else (if events[0].SubmitResult? && !config.handlingRaises(events[0]) then 1 else 0)
         + ProcessedCount(config, events[1..])
  }

  /** The results measure() is called on: those the late-start check decides to record. */
  function Recorded(config: Config, events: seq<MetricsCollectionEvent>): seq<OperationResultReport>
  {
    if events == [] then []
    else (if events[0].SubmitResult? && !config.handlingRaises(events[0]) && ShouldRecord(config, events[0].result)
          then [events[0].result] else [])
         + Recorded(config, events[1..])
  }

  /** The CSV rows written: one per submitted result when a writer is present. */
  function Logged(config: Config, events: seq<MetricsCollectionEvent>): seq<CsvRow>
  {
    if events == [] then []
    else (if config.csvResultsLogWriterPresent && events[0].SubmitResult? && !config.handlingRaises(events[0])
          then [CsvRowFor(events[0].result)] else [])
         + Logged(config, events[1..])
  }

  /** The expected count the first accepted termination event carries, if any. */
  function FirstTermination(config: Config, events: seq<MetricsCollectionEvent>): Option<int>
  {
    if events == [] then None
    else if events[0].TerminateService? && !config.handlingRaises(events[0]) then Some(events[0].expectedEventCount)
    else FirstTermination(config, events[1..])
  }

  /** How run() ends: it consumes a prefix of the events; it drains exactly when the expected
      count is set and reached; it halts right after an unexpected event type or a Throwable;
      otherwise it has used up every event while still running. */
  lemma {:induction false} RunExit(config: Config, s: MetricsState, events: seq<MetricsCollectionEvent>)
    ensures var o := RunEvents(config, s, events);
            && o.consumed <= |events|
            && (o.exit == Drained <==> !Running(o.state))
            && (o.exit == Drained ==> (o.state.expectedEventCount.Some?
                                      && o.state.processedEventCount >= o.state.expectedEventCount.value))
            && (o.exit == AwaitingEvents ==> o.consumed == |events|)
            && (o.exit == Halted ==> (o.consumed > 0
                                     && (config.handlingRaises(events[o.consumed - 1]) || events[o.consumed - 1].UnexpectedEvent?)))
            && (o.consumed > 0 && (config.handlingRaises(events[o.consumed - 1]) || events[o.consumed - 1].UnexpectedEvent?)
                ==> o.exit == Halted)
    decreases |events|
  {
    if Running(s) && events != [] {
      var (s', goOn) := Step(config, s, events[0]);
      if goOn {
        RunExit(config, s', events[1..]);
        var o := RunEvents(config, s', events[1..]);
        if o.consumed > 0 {
          assert events[1..][o.consumed - 1] == events[o.consumed];
        }
      } else {
        assert !Running(s') <==> false by {
          assert s'.expectedEventCount == s.expectedEventCount && s'.processedEventCount == s.processedEventCount;
        }
      }
    }
  }

  /** run() checks its loop condition before every fetch: each consumed event was fetched
      while the expected count was unset or not yet reached, so no event is consumed once it is. */
  lemma {:induction false} RunningBeforeEachConsumed(config: Config, s: MetricsState, events: seq<MetricsCollectionEvent>, k: nat)
    requires k < RunEvents(config, s, events).consumed
    ensures Running(RunEvents(config, s, events[..k]).state)
    decreases k
  {
    if k > 0 {
      var s' := Step(config, s, events[0]).0;
      RunningBeforeEachConsumed(config, s', events[1..], k - 1);
      assert events[..k][0] == events[0];
      assert events[..k][1..] == events[1..][..k - 1];
    }
  }

  /** Before the last consumed event, nothing stopped the loop: no consumed event but the
      last raised or had an unexpected type. */
  lemma {:induction false} RunStopsAtFirstStop(config: Config, s: MetricsState, events: seq<MetricsCollectionEvent>, k: nat)
    requires k + 1 < RunEvents(config, s, events).consumed
    ensures k < |events| && !config.handlingRaises(events[k]) && !events[k].UnexpectedEvent?
    decreases |events|
  {
    assert Running(s) && events != [];
    var (s', goOn) := Step(config, s, events[0]);
    assert goOn;
    if k > 0 {
      RunStopsAtFirstStop(config, s', events[1..], k - 1);
    }
  }

  /** processedEventCount grows by one per consumed SUBMIT_RESULT whose handling did not raise,
      the recording decision notwithstanding, and by nothing else. */
  lemma {:induction false} RunProcessedCount(config: Config, s: MetricsState, events: seq<MetricsCollectionEvent>)
    ensures var o := RunEvents(config, s, events);
            o.consumed <= |events|
            && o.state.processedEventCount == s.processedEventCount + ProcessedCount(config, events[..o.consumed])
    decreases |events|
  {
    if Running(s) && events != [] {
      var (s', goOn) := Step(config, s, events[0]);
      if goOn {
        RunProcessedCount(config, s', events[1..]);
        var o := RunEvents(config, s', events[1..]);
        assert events[..o.consumed + 1][1..] == events[1..][..o.consumed];
      } else {
        assert events[..1][1..] == [];
      }
    }
  }

  /** measure() is called on exactly the consumed results the late-start check records, in order. */
  lemma {:induction false} RunMeasured(config: Config, s: MetricsState, events: seq<MetricsCollectionEvent>)
    ensures var o := RunEvents(config, s, events);
            o.consumed <= |events| && o.state.measured == s.measured + Recorded(config, events[..o.consumed])
    decreases |events|
  {
    if Running(s) && events != [] {
      if Step(config, s, events[0]).1 {
        RunMeasured(config, Step(config, s, events[0]).0, events[1..]);
        RunMeasuredContinue(config, s, events);
      } else {
        StepMeasures(config, s, events[0]);
        RecordedSplit(config, events, 0);
      }
    }
  }

  /** The continuing case of RunMeasured: the claim for the events after the first, from the
      state after it, gives the claim for all of them. */
  lemma {:induction false} RunMeasuredContinue(config: Config, s: MetricsState, events: seq<MetricsCollectionEvent>)
    requires Running(s) && events != [] && Step(config, s, events[0]).1
    requires var r := Step(config, s, events[0]).0;
             var o := RunEvents(config, r, events[1..]);
             o.consumed <= |events| - 1 && o.state.measured == r.measured + Recorded(config, events[1..][..o.consumed])
    ensures var o := RunEvents(config, s, events);
            o.consumed <= |events| && o.state.measured == s.measured + Recorded(config, events[..o.consumed])
  {
    StepMeasures(config, s, events[0]);
    var o' := RunEvents(config, Step(config, s, events[0]).0, events[1..]);
    assert RunEvents(config, s, events).state == o'.state;
    assert RunEvents(config, s, events).consumed == o'.consumed + 1;
    RecordedSplit(config, events, o'.consumed);
  }

  /** With a writer present, every consumed result is logged, whether recorded or not. */
  lemma {:induction false} RunLogged(config: Config, s: MetricsState, events: seq<MetricsCollectionEvent>)
    ensures var o := RunEvents(config, s, events);
            o.consumed <= |events| && o.state.csvRows == s.csvRows + Logged(config, events[..o.consumed])
    decreases |events|
  {
    if Running(s) && events != [] {
      if Step(config, s, events[0]).1 {
        RunLogged(config, Step(config, s, events[0]).0, events[1..]);
        RunLoggedContinue(config, s, events);
      } else {
        StepLogs(config, s, events[0]);
        LoggedSplit(config, events, 0);
      }
    }
  }

  /** The continuing case of RunLogged: the claim for the events after the first, from the
      state after it, gives the claim for all of them. */
  lemma {:induction false} RunLoggedContinue(config: Config, s: MetricsState, events: seq<MetricsCollectionEvent>)
    requires Running(s) && events != [] && Step(config, s, events[0]).1
    requires var r := Step(config, s, events[0]).0;
             var o := RunEvents(config, r, events[1..]);
             o.consumed <= |events| - 1 && o.state.csvRows == r.csvRows + Logged(config, events[1..][..o.consumed])
    ensures var o := RunEvents(config, s, events);
            o.consumed <= |events| && o.state.csvRows == s.csvRows + Logged(config, events[..o.consumed])
  {
    StepLogs(config, s, events[0]);
    var o' := RunEvents(config, Step(config, s, events[0]).0, events[1..]);
    assert RunEvents(config, s, events).state == o'.state;
    assert RunEvents(config, s, events).consumed == o'.consumed + 1;
    LoggedSplit(config, events, o'.consumed);
  }

  /** The futures the events resolve, each with the results measured before it in event
      order: a status or snapshot request observes exactly what was submitted ahead of it. */
  function Resolutions(config: Config, measured: seq<OperationResultReport>, events: seq<MetricsCollectionEvent>)
    : seq<(nat, FutureValue)>
    decreases |events|
  {
    if events == [] then []
    else
      var e := events[0];
      var here := if config.handlingRaises(e) then []
                  else if e.WorkloadStatus? then [(e.statusFuture, WorkloadStatusValue(measured))]
                  else if e.WorkloadResult? then [(e.workloadResultFuture, WorkloadResultsSnapshot(measured))]
                  else [];
      here + Resolutions(config, measured + Recorded(config, [e]), events[1..])
  }

  /** Every consumed status or snapshot request resolves its future with the manager's view
      after the results ahead of it, in order; nothing else resolves a future. */
  lemma {:induction false} RunResolvesFutures(config: Config, s: MetricsState, events: seq<MetricsCollectionEvent>)
    ensures var o := RunEvents(config, s, events);
            o.consumed <= |events|
            && o.state.resolvedFutures == s.resolvedFutures + Resolutions(config, s.measured, events[..o.consumed])
    decreases |events|
  {
    if Running(s) && events != [] {
      if Step(config, s, events[0]).1 {
        RunResolvesFutures(config, Step(config, s, events[0]).0, events[1..]);
        RunResolvesFuturesContinue(config, s, events);
      } else {
        StepResolves(config, s, events[0]);
        ResolutionsSplit(config, s.measured, events, 0);
      }
    }
  }

  /** The continuing case of RunResolvesFutures. */
  lemma {:induction false} RunResolvesFuturesContinue(config: Config, s: MetricsState, events: seq<MetricsCollectionEvent>)
    requires Running(s) && events != [] && Step(config, s, events[0]).1
    requires var r := Step(config, s, events[0]).0;
             var o := RunEvents(config, r, events[1..]);
             o.consumed <= |events| - 1
             && o.state.resolvedFutures == r.resolvedFutures + Resolutions(config, r.measured, events[1..][..o.consumed])
    ensures var o := RunEvents(config, s, events);
            o.consumed <= |events|
            && o.state.resolvedFutures == s.resolvedFutures + Resolutions(config, s.measured, events[..o.consumed])
  {
    StepMeasures(config, s, events[0]);
    StepResolves(config, s, events[0]);
    var o' := RunEvents(config, Step(config, s, events[0]).0, events[1..]);
    assert RunEvents(config, s, events).state == o'.state;
    assert RunEvents(config, s, events).consumed == o'.consumed + 1;
    ResolutionsSplit(config, s.measured, events, o'.consumed);
  }

  /** Each event filter over the first c + 1 events splits into the first event's part and
      the part of the c events after it. */
  lemma RecordedSplit(config: Config, events: seq<MetricsCollectionEvent>, c: nat)
    requires c < |events|
    ensures Recorded(config, events[..c + 1]) == Recorded(config, [events[0]]) + Recorded(config, events[1..][..c])
  {
    var pre := events[..c + 1];
    assert pre[0] == events[0] && pre[1..] == events[1..][..c];
    assert [events[0]][1..] == [];
  }

  lemma LoggedSplit(config: Config, events: seq<MetricsCollectionEvent>, c: nat)
    requires c < |events|
    ensures Logged(config, events[..c + 1]) == Logged(config, [events[0]]) + Logged(config, events[1..][..c])
  {
    var pre := events[..c + 1];
    assert pre[0] == events[0] && pre[1..] == events[1..][..c];
    assert [events[0]][1..] == [];
  }

  lemma ResolutionsSplit(config: Config, measured: seq<OperationResultReport>, events: seq<MetricsCollectionEvent>, c: nat)
    requires c < |events|
    ensures Resolutions(config, measured, events[..c + 1])
            == Resolutions(config, measured, [events[0]])
               + Resolutions(config, measured + Recorded(config, [events[0]]), events[1..][..c])
  {
    var pre := events[..c + 1];
    assert pre[0] == events[0] && pre[1..] == events[1..][..c];
    assert [events[0]][1..] == [];
  }

  /** What one step does to each log: the results it measures, the row it writes and the
      future it resolves are those of the one-event filters. */
  lemma StepMeasures(config: Config, s: MetricsState, e: MetricsCollectionEvent)
    ensures Step(config, s, e).0.measured == s.measured + Recorded(config, [e])
  {
  }

  lemma StepLogs(config: Config, s: MetricsState, e: MetricsCollectionEvent)
    ensures Step(config, s, e).0.csvRows == s.csvRows + Logged(config, [e])
  {
  }

  lemma StepResolves(config: Config, s: MetricsState, e: MetricsCollectionEvent)
    ensures Step(config, s, e).0.resolvedFutures == s.resolvedFutures + Resolutions(config, s.measured, [e])
  {
  }

  /** The first termination event fixes expectedEventCount; a later one is reported as an
      error and does not replace it. */
  lemma {:induction false} RunExpectedEventCount(config: Config, s: MetricsState, events: seq<MetricsCollectionEvent>)
    ensures var o := RunEvents(config, s, events);
            o.consumed <= |events|
            && (s.expectedEventCount.Some? ==> o.state.expectedEventCount == s.expectedEventCount)
            && (s.expectedEventCount.None? ==> o.state.expectedEventCount == FirstTermination(config, events[..o.consumed]))
    decreases |events|
  {
    if Running(s) && events != [] {
      var (s', goOn) := Step(config, s, events[0]);
      if goOn {
        RunExpectedEventCount(config, s', events[1..]);
        var o := RunEvents(config, s', events[1..]);
        assert events[..o.consumed + 1][1..] == events[1..][..o.consumed];
        assert events[..o.consumed + 1][0] == events[0];
      } else {
        assert events[..1][1..] == [];
        assert events[..1][0] == events[0];
      }
    }
  }

  /** The drain-and-terminate protocol: if results arrive, then a termination event carrying
      their number, and nothing among them raises, the thread consumes exactly these events,
      counts every result and then stops. */
  lemma {:induction false} DrainAfterTermination(config: Config, s: MetricsState, results: seq<OperationResultReport>,
                                                 rest: seq<MetricsCollectionEvent>)
    requires s.expectedEventCount.None?
    requires forall i :: 0 <= i < |results| ==> !config.handlingRaises(SubmitResult(results[i]))
    requires !config.handlingRaises(TerminateService(s.processedEventCount + |results|))
    ensures var events := Submissions(results) + [TerminateService(s.processedEventCount + |results|)] + rest;
            var o := RunEvents(config, s, events);
            o.exit == Drained && o.consumed == |results| + 1
            && o.state.processedEventCount == s.processedEventCount + |results|
            && o.state.expectedEventCount == Some(s.processedEventCount + |results|)
    decreases |results|
  {
    var n := s.processedEventCount + |results|;
    var events := Submissions(results) + [TerminateService(n)] + rest;
    if results == [] {
      assert events == [TerminateService(n)] + rest;
      assert events[1..] == rest;
    } else {
      var (s', goOn) := Step(config, s, events[0]);
      assert events[0] == SubmitResult(results[0]);
      assert Running(s);
      assert forall i :: 0 <= i < |results[1..]| ==> results[1..][i] == results[i + 1];
      DrainAfterTermination(config, s', results[1..], rest);
      assert events[1..] == Submissions(results[1..]) + [TerminateService(n)] + rest;
    }
  }

  function Submissions(results: seq<OperationResultReport>): (events: seq<MetricsCollectionEvent>)
    ensures |events| == |results|
    ensures forall i :: 0 <= i < |results| ==> events[i] == SubmitResult(results[i])
  {
    if results == [] then [] else [SubmitResult(results[0])] + Submissions(results[1..])
  }

  /** With a permissive policy every result is recorded; with one that always refuses, exactly
      the results that started within the tolerated delay are (or all, with delay recording off). */
  lemma PolicyDecidesLateResults(config: Config, result: OperationResultReport)
    ensures (forall op :: config.handleExcessiveDelay(op)) ==> ShouldRecord(config, result)
    ensures (forall op :: !config.handleExcessiveDelay(op)) ==>
            (ShouldRecord(config, result)
             <==> (!config.shouldRecordStartTimeDelayLatencies
                   || result.actualStartTimeNano <= result.operation.scheduledStartTimeNano + config.toleratedDelayNano < TWO_63))
  {
  }

  /** The thread, its two counters and its collaborators' logs. */
  class MetricsServiceThread {
    const config: Config
    var processedEventCount: int
    var expectedEventCount: Option<int>
    var measured: seq<OperationResultReport>
    var csvRows: seq<CsvRow>
    var resolvedFutures: seq<(nat, FutureValue)>
    var errors: seq<ErrorReport>

    function State(): MetricsState
      reads this
    {
      MetricsState(processedEventCount, expectedEventCount, measured, csvRows, resolvedFutures, errors)
    }

    constructor(config: Config)
      ensures this.config == config && State() == InitialState()
    {
      this.config := config;
      processedEventCount := 0;
      expectedEventCount := None;
      measured := [];
      csvRows := [];
      resolvedFutures := [];
      errors := [];
    }

    /** One pass of run()'s loop body on a fetched event: the switch over the event's type,
        inside the try whose catch reports a Throwable. `goOn` is false where run() returns. */
    method HandleEvent(event: MetricsCollectionEvent) returns (goOn: bool)
      modifies this
      ensures (State(), goOn) == Step(config, old(State()), event)
    {
      if config.handlingRaises(event) {
        errors := errors + [UnexpectedException(event)];
        return false;
      }
      match event {
        case SubmitResult(result) =>
          if config.csvResultsLogWriterPresent {
            csvRows := csvRows + [CsvRowFor(result)];
          }
          var shouldRecordResultMetricsForThisOperation := true;
          if config.shouldRecordStartTimeDelayLatencies {
            if Wrap64(result.operation.scheduledStartTimeNano + config.toleratedDelayNano) < result.actualStartTimeNano {
              shouldRecordResultMetricsForThisOperation := config.handleExcessiveDelay(result.operation);
            }
          }
          if shouldRecordResultMetricsForThisOperation {
            measured := measured + [result];
            if config.measureRaises(result) {
              errors := errors + [MetricsCollectionError(result)];
            }
          }
          processedEventCount := processedEventCount + 1;
        case WorkloadStatus(future) =>
          resolvedFutures := resolvedFutures + [(future, WorkloadStatusValue(measured))];
        case WorkloadResult(future) =>
          resolvedFutures := resolvedFutures + [(future, WorkloadResultsSnapshot(measured))];
        case TerminateService(n) =>
          if expectedEventCount.None? {
            expectedEventCount := Some(n);
          } else {
            errors := errors + [MultipleTerminateEvents(expectedEventCount.value, n)];
          }
        case UnexpectedEvent(name) =>
          errors := errors + [UnexpectedEventType(name)];
          return false;
      }
      return true;
    }

    /** run(): fetches and handles events until the expected count is reached or an error
        stops it; `consumed` says how many of `events` it fetched. */
    method Run(events: seq<MetricsCollectionEvent>) returns (consumed: nat, exit: Exit)
      modifies this
      ensures RunOutcome(State(), consumed, exit) == RunEvents(config, old(State()), events)
    {
      ghost var s0 := old(State());
      var i := 0;
      while (expectedEventCount.None? || processedEventCount < expectedEventCount.value) && i < |events|
        invariant 0 <= i <= |events|
        invariant var o := RunEvents(config, State(), events[i..]);
                  o.(consumed := o.consumed + i) == RunEvents(config, s0, events)
        decreases |events| - i
      {
        var event := events[i];
        assert events[i..][0] == event && events[i..][1..] == events[i + 1..];
        i := i + 1;
        var goOn := HandleEvent(event);
        if !goOn {
          return i, Halted;
        }
      }
      consumed := i;
      if expectedEventCount.None? || processedEventCount < expectedEventCount.value {
        exit := AwaitingEvents;
      } else {
        exit := Drained;
      }
    }
  }
}
