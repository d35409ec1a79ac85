/** ThreadedQueuedConcurrentCompletionTimeService: the producer side of the completion time
    service. Every call puts one event on the queue that the (unmodelled) coordination thread
    consumes; write submissions also bump a shared counter, which the termination event carries.

    Each call is one atomic step. The queue, the counter and the shutting-down flag are shared
    by the service and by every writer it hands out, as the Java atomics are. The polling loops'
    clocks and the coordination thread appear only as what each polling round observes. */
module CompletionTimeService {
  import opened Wrappers

  /** An instant, as an opaque number. */
  type Time = int

  datatype CompletionTimeException = CompletionTimeException(message: string, cause: Option<CompletionTimeException>)

  datatype TimeoutException = TimeoutException(message: string)

  /** A set-once future (GlobalCompletionTimeFuture with T = Option<Time>, whose value starts
      as null; LocalCompletionTimeWriterFuture with T = int, whose value starts as 0). */
  class OneShotFuture<T> {
    var done: bool
    var value: T

    constructor(initial: T)
      ensures !done && value == initial
    {
      done := false;
      value := initial;
    }

    function IsDone(): (b: bool)
      reads this
      ensures b <==> done
    {
      done
    }

    /** set(value): the first call stores the value and marks the future done; any later call
        throws and keeps the first value. */
    method Set(v: T) returns (r: Outcome<CompletionTimeException>)
      modifies this
      ensures done
      ensures old(done) ==> r == Fail(CompletionTimeException("Value has already been set", None)) && value == old(value)
      ensures !old(done) ==> r == Pass && value == v
    {
      if done {
        return Fail(CompletionTimeException("Value has already been set", None));
      }
      value := v;
      done := true;
      return Pass;
    }

    /** get(): spins until done, so it returns only on a future that is done. */
    method Get() returns (v: T)
      requires done
      ensures v == value
    {
      v := value;
    }

    /** get(timeout): the clock permits `polls` checks before the deadline; nobody else runs
        in between, so the result is the value if the future is done and any check happens. */
    method GetWithin(polls: nat) returns (r: Result<T, TimeoutException>)
      ensures r.Ok? <==> done && polls > 0
      ensures r.Ok? ==> r.value == value
      ensures r.Err? ==> r.error == TimeoutException("Could not complete future in time")
    {
      var k := 0;
      while k < polls
        invariant k <= polls
        invariant k > 0 ==> !done
      {
        if done {
          return Ok(value);
        }
        k := k + 1;
      }
      return Err(TimeoutException("Could not complete future in time"));
    }
  }

  /** A CompletionTimeEvent as the service enqueues it. */
  datatype CompletionTimeEvent =
    | NewLocalCompletionTimeWriterEvent(writerFuture: OneShotFuture<int>)
    | GlobalCompletionTimeFutureEvent(gctFuture: OneShotFuture<Option<Time>>)
    | WriteLocalInitiatedTime(writerId: int, time: Time)
    | WriteLocalCompletedTime(writerId: int, time: Time)
    | WriteExternalCompletionTime(peerId: string, time: Time)
    | TerminateService(expectedEventCount: int)

  /** The events counted by the write-event counter. */
  predicate IsWrite(e: CompletionTimeEvent)
  {
    e.WriteLocalInitiatedTime? || e.WriteLocalCompletedTime? || e.WriteExternalCompletionTime?
  }

  function WriteCount(q: seq<CompletionTimeEvent>): nat
  {
    if q == [] then 0 else WriteCount(q[..|q| - 1]) + (if IsWrite(q[|q| - 1]) then 1 else 0)
  }

  function TerminateCount(q: seq<CompletionTimeEvent>): nat
  {
    if q == [] then 0 else TerminateCount(q[..|q| - 1]) + (if q[|q| - 1].TerminateService? then 1 else 0)
  }

  /** What the shared state always satisfies: the counter counts the write events on the queue;
      there is one termination event once shutdown has begun and none before; it carries the
      number of write events ahead of it; and no initiated time follows it. */
  predicate QueueInvariant(q: seq<CompletionTimeEvent>, writeEventCount: int, isShuttingDown: bool)
  {
    && writeEventCount == WriteCount(q)
    && TerminateCount(q) == (if isShuttingDown then 1 else 0)
    && (forall i :: 0 <= i < |q| && q[i].TerminateService? ==> q[i].expectedEventCount == WriteCount(q[..i]))
    && (forall i, j :: 0 <= i < j < |q| && q[i].TerminateService? ==> !q[j].WriteLocalInitiatedTime?)
  }

  lemma CountsAppend(q: seq<CompletionTimeEvent>, e: CompletionTimeEvent)
    ensures WriteCount(q + [e]) == WriteCount(q) + (if IsWrite(e) then 1 else 0)
    ensures TerminateCount(q + [e]) == TerminateCount(q) + (if e.TerminateService? then 1 else 0)
  {
  }

  /** There is never more than one termination event on a queue that counts at most one. */
  lemma {:induction false} AtMostOneTermination(q: seq<CompletionTimeEvent>, i: nat, j: nat)
    requires TerminateCount(q) <= 1
    requires i < |q| && j < |q| && q[i].TerminateService? && q[j].TerminateService?
    ensures i == j
    decreases |q|
  {
    var init := q[..|q| - 1];
    assert q == init + [q[|q| - 1]];
    CountsAppend(init, q[|q| - 1]);
    if i < |q| - 1 && j < |q| - 1 {
      AtMostOneTermination(init, i, j);
    } else if i != j {
      var k := if i < |q| - 1 then i else j;
      assert init[k].TerminateService?;
      TerminationCounted(init, k);
    }
  }

  /** A termination event anywhere on the queue is counted. */
  lemma {:induction false} TerminationCounted(q: seq<CompletionTimeEvent>, k: nat)
    requires k < |q| && q[k].TerminateService?
    ensures TerminateCount(q) >= 1
    decreases |q|
  {
    if k < |q| - 1 {
      assert q[..|q| - 1][k] == q[k];
      TerminationCounted(q[..|q| - 1], k);
    }
  }

  /** An accepted write submission keeps the invariant with the counter one higher; an
      initiated time is accepted only before shutdown. */
  lemma WriteKeepsInvariant(q: seq<CompletionTimeEvent>, c: int, sd: bool, e: CompletionTimeEvent)
    requires QueueInvariant(q, c, sd) && IsWrite(e)
    requires e.WriteLocalInitiatedTime? ==> !sd
    ensures QueueInvariant(q + [e], c + 1, sd)
  {
    CountsAppend(q, e);
    var q' := q + [e];
    forall i | 0 <= i < |q'| && q'[i].TerminateService?
      ensures q'[i].expectedEventCount == WriteCount(q'[..i])
    {
      assert i < |q| && q'[..i] == q[..i];
    }
    if !sd {
      NoTerminationUncounted(q);
    }
  }

  /** A registration or GCT request keeps the invariant with the counter unchanged. */
  lemma RequestKeepsInvariant(q: seq<CompletionTimeEvent>, c: int, sd: bool, e: CompletionTimeEvent)
    requires QueueInvariant(q, c, sd)
    requires e.NewLocalCompletionTimeWriterEvent? || e.GlobalCompletionTimeFutureEvent?
    ensures QueueInvariant(q + [e], c, sd)
  {
    CountsAppend(q, e);
    var q' := q + [e];
    forall i | 0 <= i < |q'| && q'[i].TerminateService?
      ensures q'[i].expectedEventCount == WriteCount(q'[..i])
    {
      assert i < |q| && q'[..i] == q[..i];
    }
  }

  /** Starting shutdown appends the one termination event, carrying the current count. */
  lemma TerminationKeepsInvariant(q: seq<CompletionTimeEvent>, c: int)
    requires QueueInvariant(q, c, false)
    ensures QueueInvariant(q + [TerminateService(c)], c, true)
  {
    CountsAppend(q, TerminateService(c));
    NoTerminationUncounted(q);
    assert (q + [TerminateService(c)])[..|q|] == q;
  }

  /** A queue that counts no termination event holds none. */
  lemma {:induction false} NoTerminationUncounted(q: seq<CompletionTimeEvent>)
    requires TerminateCount(q) == 0
    ensures forall i :: 0 <= i < |q| ==> !q[i].TerminateService?
    decreases |q|
  {
    if q != [] {
      var init := q[..|q| - 1];
      NoTerminationUncounted(init);
      assert forall i :: 0 <= i < |init| ==> init[i] == q[i];
    }
  }

  /** The termination event carries the number of write submissions accepted before it. */
  lemma TerminationCarriesWriteCount(q: seq<CompletionTimeEvent>, c: int, i: nat)
    requires QueueInvariant(q, c, true)
    requires i < |q| && q[i].TerminateService?
    ensures q[i].expectedEventCount == WriteCount(q[..i])
    ensures forall j :: 0 <= j < |q| && q[j].TerminateService? ==> j == i
  {
    forall j | 0 <= j < |q| && q[j].TerminateService?
      ensures j == i
    {
      AtMostOneTermination(q, i, j);
    }
  }

  /** What a registration polling round observes: the writer id if the future was set within
      the round's get(100 ms), and the error reporter's report if it holds one. */
  datatype RegistrationRound = RegistrationRound(writerId: Option<int>, errorReport: Option<string>)

  /** What a shutdown polling round observes. */
  datatype ShutdownRound = ShutdownRound(shutdownComplete: bool, errorReport: Option<string>)

  datatype RegistrationPoll = Assigned(writerId: int) | ErrorEncountered(report: string) | TookTooLong

  /** The outcome of newLocalCompletionTimeWriter's polling: the first round that sees the id or
      an error decides; none before the deadline means it took too long. */
  function PollRegistration(rounds: seq<RegistrationRound>): RegistrationPoll
  {
    if rounds == [] then TookTooLong
    else if rounds[0].writerId.Some? then Assigned(rounds[0].writerId.value)
    else if rounds[0].errorReport.Some? then ErrorEncountered(rounds[0].errorReport.value)
    else PollRegistration(rounds[1..])
  }

  /** A registration gets the id observed by the first round that observes anything. */
  lemma {:induction false} PollRegistrationFirstDecides(rounds: seq<RegistrationRound>)
    ensures PollRegistration(rounds).Assigned? <==>
            exists i :: 0 <= i < |rounds| && rounds[i].writerId.Some?
                        && (forall k :: 0 <= k < i ==> rounds[k].writerId.None? && rounds[k].errorReport.None?)
    decreases |rounds|
  {
    if rounds != [] {
      PollRegistrationFirstDecides(rounds[1..]);
      if PollRegistration(rounds[1..]).Assigned? && rounds[0].writerId.None? && rounds[0].errorReport.None? {
        var i :| 0 <= i < |rounds[1..]| && rounds[1..][i].writerId.Some?
                 && (forall k :: 0 <= k < i ==> rounds[1..][k].writerId.None? && rounds[1..][k].errorReport.None?);
        assert rounds[i + 1].writerId.Some?;
        assert forall k :: 1 <= k < i + 1 ==> rounds[k] == rounds[1..][k - 1];
      }
    }
  }

  /** A registration takes too long exactly when no round observes an id or an error. */
  lemma {:induction false} PollRegistrationTimesOut(rounds: seq<RegistrationRound>)
    ensures PollRegistration(rounds).TookTooLong? <==>
            forall k :: 0 <= k < |rounds| ==> rounds[k].writerId.None? && rounds[k].errorReport.None?
    decreases |rounds|
  {
    if rounds != [] {
      PollRegistrationTimesOut(rounds[1..]);
      assert forall k :: 1 <= k < |rounds| ==> rounds[k] == rounds[1..][k - 1];
    }
  }

  /** The outcome of shutdown's polling loop (when it had not already been called). */
  function PollShutdown(rounds: seq<ShutdownRound>): Outcome<CompletionTimeException>
  {
    if rounds == [] then Fail(CompletionTimeException("Service took too long to shutdown", None))
    else if rounds[0].shutdownComplete then Pass
    else if rounds[0].errorReport.Some?
    then Fail(CompletionTimeException("Error encountered while shutting down\n" + rounds[0].errorReport.value, None))
    else PollShutdown(rounds[1..])
  }

  /** Shutdown succeeds iff some round sees completion with no earlier round seeing it or an
      error. */
  lemma {:induction false} PollShutdownFirstDecides(rounds: seq<ShutdownRound>)
    ensures PollShutdown(rounds).Pass? <==>
            exists i :: 0 <= i < |rounds| && rounds[i].shutdownComplete
                        && (forall k :: 0 <= k < i ==> !rounds[k].shutdownComplete && rounds[k].errorReport.None?)
    decreases |rounds|
  {
    if rounds != [] {
      PollShutdownFirstDecides(rounds[1..]);
      if PollShutdown(rounds[1..]).Pass? && !rounds[0].shutdownComplete && rounds[0].errorReport.None? {
        var i :| 0 <= i < |rounds[1..]| && rounds[1..][i].shutdownComplete
                 && (forall k :: 0 <= k < i ==> !rounds[1..][k].shutdownComplete && rounds[1..][k].errorReport.None?);
        assert rounds[i + 1].shutdownComplete;
        assert forall k :: 1 <= k < i + 1 ==> rounds[k] == rounds[1..][k - 1];
      }
    }
  }

  /** Shutdown takes too long exactly when no round sees completion or an error. */
  lemma {:induction false} PollShutdownTimesOut(rounds: seq<ShutdownRound>)
    ensures PollShutdown(rounds) == Fail(CompletionTimeException("Service took too long to shutdown", None)) <==>
            forall k :: 0 <= k < |rounds| ==> !rounds[k].shutdownComplete && rounds[k].errorReport.None?
    decreases |rounds|
  {
    if rounds != [] {
      PollShutdownTimesOut(rounds[1..]);
      assert forall k :: 1 <= k < |rounds| ==> rounds[k] == rounds[1..][k - 1];
    }
  }

  /** The queue, the write-event counter and the shutting-down flag shared by the service, its
      writers and the coordination thread. */
  class SharedState {
    var queue: seq<CompletionTimeEvent>
    var writeEventCount: int
    var isShuttingDown: bool

    ghost predicate Valid()
      reads this
    {
      QueueInvariant(queue, writeEventCount, isShuttingDown)
    }

    constructor()
      ensures Valid() && queue == [] && writeEventCount == 0 && !isShuttingDown
    {
      queue := [];
      writeEventCount := 0;
      isShuttingDown := false;
    }
  }

  /** ThreadedQueuedLocalCompletionTimeWriter: a writer id and the shared state. */
  class LocalCompletionTimeWriter {
    const writerId: int
    const shared: SharedState

    constructor(writerId: int, shared: SharedState)
      ensures this.writerId == writerId && this.shared == shared
    {
      this.writerId := writerId;
      this.shared := shared;
    }

    /** submitLocalInitiatedTime: refused after shutdown, leaving queue and counter alone;
        otherwise one more write event and one initiated-time event at the tail. */
    method SubmitLocalInitiatedTime(time: Time) returns (r: Outcome<CompletionTimeException>)
      requires shared.Valid()
      modifies shared
      ensures shared.Valid() && shared.isShuttingDown == old(shared.isShuttingDown)
      ensures old(shared.isShuttingDown) ==>
              r == Fail(CompletionTimeException("Can not submit initiated time after calling shutdown", None))
              && shared.queue == old(shared.queue) && shared.writeEventCount == old(shared.writeEventCount)
      ensures !old(shared.isShuttingDown) ==>
              r == Pass
              && shared.queue == old(shared.queue) + [WriteLocalInitiatedTime(writerId, time)]
              && shared.writeEventCount == old(shared.writeEventCount) + 1
    {
      if shared.isShuttingDown {
        return Fail(CompletionTimeException("Can not submit initiated time after calling shutdown", None));
      }
      WriteKeepsInvariant(shared.queue, shared.writeEventCount, shared.isShuttingDown, WriteLocalInitiatedTime(writerId, time));
      shared.writeEventCount := shared.writeEventCount + 1;
      shared.queue := shared.queue + [WriteLocalInitiatedTime(writerId, time)];
      return Pass;
    }

    /** submitLocalCompletedTime: accepted even after shutdown. */
    method SubmitLocalCompletedTime(time: Time)
      requires shared.Valid()
      modifies shared
      ensures shared.Valid() && shared.isShuttingDown == old(shared.isShuttingDown)
      ensures shared.queue == old(shared.queue) + [WriteLocalCompletedTime(writerId, time)]
      ensures shared.writeEventCount == old(shared.writeEventCount) + 1
    {
      WriteKeepsInvariant(shared.queue, shared.writeEventCount, shared.isShuttingDown, WriteLocalCompletedTime(writerId, time));
      shared.writeEventCount := shared.writeEventCount + 1;
      shared.queue := shared.queue + [WriteLocalCompletedTime(writerId, time)];
    }
  }

  class ThreadedQueuedConcurrentCompletionTimeService {
    const shared: SharedState
    /** sharedGctReference: written only by the coordination thread, which is not modelled. */
    var gct: Option<Time>
    var writers: seq<LocalCompletionTimeWriter>

    ghost predicate Valid()
      reads this, shared
    {
      shared.Valid() && forall w :: w in writers ==> w.shared == shared
    }

    /** The constructor; the peer ids go to the coordination thread. */
    constructor(peerIds: set<string>)
      ensures Valid() && fresh(shared)
      ensures shared.queue == [] && shared.writeEventCount == 0 && !shared.isShuttingDown
      ensures gct == None && writers == []
    {
      shared := new SharedState();
      gct := None;
      writers := [];
    }

    /** globalCompletionTime(): the last GCT the coordination thread published. */
    function GlobalCompletionTime(): (g: Option<Time>)
      reads this
      ensures g == gct
    {
      gct
    }

    /** newLocalCompletionTimeWriter: enqueues a registration request with a fresh future, then
        polls. The first round that sees the id adds a writer with that id to the list; one that
        sees an error, or running out of rounds, fails. Every failure is wrapped once more. */
    method NewLocalCompletionTimeWriter(rounds: seq<RegistrationRound>)
      returns (r: Result<LocalCompletionTimeWriter, CompletionTimeException>)
      requires Valid()
      modifies this, shared
      ensures Valid() && gct == old(gct)
      ensures shared.writeEventCount == old(shared.writeEventCount) && shared.isShuttingDown == old(shared.isShuttingDown)
      ensures |shared.queue| == |old(shared.queue)| + 1 && shared.queue[..|old(shared.queue)|] == old(shared.queue)
      ensures shared.queue[|old(shared.queue)|].NewLocalCompletionTimeWriterEvent?
      ensures fresh(shared.queue[|old(shared.queue)|].writerFuture)
      ensures PollRegistration(rounds).Assigned? ==>
              r.Ok? && fresh(r.value) && r.value.writerId == PollRegistration(rounds).writerId
              && r.value.shared == shared && writers == old(writers) + [r.value]
      ensures PollRegistration(rounds).ErrorEncountered? ==>
              writers == old(writers)
              && r == Err(CompletionTimeException("Error requesting new local completion time writer",
                            Some(CompletionTimeException(PollRegistration(rounds).report, None))))
      ensures PollRegistration(rounds).TookTooLong? ==>
              writers == old(writers)
              && r == Err(CompletionTimeException("Error requesting new local completion time writer",
                            Some(CompletionTimeException("Future took too long to return", None))))
    {
      var future := new OneShotFuture<int>(0);
      RequestKeepsInvariant(shared.queue, shared.writeEventCount, shared.isShuttingDown, NewLocalCompletionTimeWriterEvent(future));
      shared.queue := shared.queue + [NewLocalCompletionTimeWriterEvent(future)];
      var i := 0;
      while i < |rounds|
        invariant 0 <= i <= |rounds|
        invariant PollRegistration(rounds[i..]) == PollRegistration(rounds)
        invariant writers == old(writers)
      {
        assert rounds[i..][1..] == rounds[i + 1..];
        var round := rounds[i];
        if round.writerId.Some? {
          var writer := new LocalCompletionTimeWriter(round.writerId.value, shared);
          writers := writers + [writer];
          return Ok(writer);
        }
        if round.errorReport.Some? {
          return Err(CompletionTimeException("Error requesting new local completion time writer",
                       Some(CompletionTimeException(round.errorReport.value, None))));
        }
        i := i + 1;
      }
      return Err(CompletionTimeException("Error requesting new local completion time writer",
                   Some(CompletionTimeException("Future took too long to return", None))));
    }

    /** globalCompletionTimeFuture: enqueues a fresh, unset future; the counter stays. */
    method GlobalCompletionTimeFuture() returns (future: OneShotFuture<Option<Time>>)
      requires Valid()
      modifies shared
      ensures Valid() && fresh(future) && !future.done && future.value == None
      ensures shared.queue == old(shared.queue) + [GlobalCompletionTimeFutureEvent(future)]
      ensures shared.writeEventCount == old(shared.writeEventCount) && shared.isShuttingDown == old(shared.isShuttingDown)
    {
      future := new OneShotFuture<Option<Time>>(None);
      RequestKeepsInvariant(shared.queue, shared.writeEventCount, shared.isShuttingDown, GlobalCompletionTimeFutureEvent(future));
      shared.queue := shared.queue + [GlobalCompletionTimeFutureEvent(future)];
    }

    /** getAllWriters(): every writer registered so far, in registration order. */
    method GetAllWriters() returns (ws: seq<LocalCompletionTimeWriter>)
      ensures ws == writers
    {
      ws := writers;
    }

    /** submitPeerCompletionTime: accepted even after shutdown. */
    method SubmitPeerCompletionTime(peerId: string, time: Time)
      requires Valid()
      modifies shared
      ensures Valid() && shared.isShuttingDown == old(shared.isShuttingDown)
      ensures shared.queue == old(shared.queue) + [WriteExternalCompletionTime(peerId, time)]
      ensures shared.writeEventCount == old(shared.writeEventCount) + 1
    {
      WriteKeepsInvariant(shared.queue, shared.writeEventCount, shared.isShuttingDown, WriteExternalCompletionTime(peerId, time));
      shared.writeEventCount := shared.writeEventCount + 1;
      shared.queue := shared.queue + [WriteExternalCompletionTime(peerId, time)];
    }

    /** shutdown(): a no-op once shutting down; otherwise sets the flag, enqueues the one
        termination event with the current write count and polls for the thread to finish. */
    method Shutdown(rounds: seq<ShutdownRound>) returns (r: Outcome<CompletionTimeException>)
      requires Valid()
      modifies shared
      ensures Valid() && shared.isShuttingDown
      ensures shared.writeEventCount == old(shared.writeEventCount)
      ensures old(shared.isShuttingDown) ==> r == Pass && shared.queue == old(shared.queue)
      ensures !old(shared.isShuttingDown) ==>
              shared.queue == old(shared.queue) + [TerminateService(old(shared.writeEventCount))]
              && r == PollShutdown(rounds)
    {
      if shared.isShuttingDown {
        return Pass;
      }
      shared.isShuttingDown := true;
      TerminationKeepsInvariant(shared.queue, shared.writeEventCount);
      shared.queue := shared.queue + [TerminateService(shared.writeEventCount)];
      var i := 0;
      while i < |rounds|
        invariant 0 <= i <= |rounds|
        invariant PollShutdown(rounds[i..]) == PollShutdown(rounds)
      {
        assert rounds[i..][1..] == rounds[i + 1..];
        if rounds[i].shutdownComplete {
          return Pass;
        }
        if rounds[i].errorReport.Some? {
          return Fail(CompletionTimeException("Error encountered while shutting down\n" + rounds[i].errorReport.value, None));
        }
        i := i + 1;
      }
      return Fail(CompletionTimeException("Service took too long to shutdown", None));
    }
  }
}
