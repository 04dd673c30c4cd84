/**
 The job stream: optimistic publishers that add at most one entry per job, the consumer
 group's pending entries, and the adapter that acknowledges or retains a delivery.
 */
module Queue {
  import opened Prelude
  import opened JobRepository
  import opened JobProtocol

  /* ---------------------------------------------------------------------------------------
     Publishers and the stream, as one interleaved system.
     --------------------------------------------------------------------------------------- */

  type Publisher = nat

  /** A call of `Publish`: the watched version of the job's index key, then whether the key was
      absent, then the result. */
  datatype Publishing =
    | Watching(job: JobId, version: nat)
    | Absent(job: JobId, version: nat)
    | Published(job: JobId, accepted: bool)

  /** Entries in stream order, the index keys set, how often each key was written, the calls in
      progress, and the consumer group: entries before the cursor were delivered, and are pending
      until acknowledged. */
  datatype Broker = Broker(
    stream: seq<JobId>, index: set<JobId>, versions: map<JobId, nat>, calls: map<Publisher, Publishing>,
    cursor: nat, pending: set<nat>, acknowledged: set<nat>)

  datatype Reply = Replied | RepliedError | RanSilently

  datatype BrokerEvent =
    | Watch(publisher: Publisher, job: JobId)
    | Get(publisher: Publisher, reply: Reply)
    | Exec(publisher: Publisher, reply: Reply)
    | Read
    | Ack(entry: nat)

  function Version(b: Broker, job: JobId): nat {
    if job in b.versions then b.versions[job] else 0
  }

  function Calling(b: Broker, p: Publisher, call: Publishing): Broker {
    b.(calls := b.calls[p := call])
  }

  /** `WATCH`, for a new call. */
  function WatchStep(b: Broker, p: Publisher, job: JobId): Option<Broker> {
    if p in b.calls then None else Some(Calling(b, p, Watching(job, Version(b, job))))
  }

  /** `GET`: a set key ends the call as accepted, an error ends it as refused. */
  function GetStep(b: Broker, p: Publisher, reply: Reply): Option<Broker> {
    if p !in b.calls || !b.calls[p].Watching? then None
    else
      var call := b.calls[p];
      Some(Calling(b, p,
        if reply != Replied then Published(call.job, false)
        else if call.job in b.index then Published(call.job, true)
        else Absent(call.job, call.version)))
  }

  /** `MULTI`/`EXEC`: both commands, unless the watched key was written since. */
  function ExecStep(b: Broker, p: Publisher, reply: Reply): Option<Broker> {
    if p !in b.calls || !b.calls[p].Absent? then None
    else
      var call := b.calls[p];
      if reply == RepliedError || Version(b, call.job) != call.version then
        Some(Calling(b, p, Published(call.job, false)))
      else
        var next := b.(stream := b.stream + [call.job], index := b.index + {call.job},
                       versions := b.versions[call.job := Version(b, call.job) + 1]);
        Some(Calling(next, p, Published(call.job, reply == Replied)))
  }

  /** `XREADGROUP`, entry by entry: the next undelivered one becomes pending. Reclaiming and
      heartbeats only change which consumer a pending entry belongs to. */
  function ReadStep(b: Broker): Option<Broker> {
    if b.cursor >= |b.stream| then None
    else Some(b.(cursor := b.cursor + 1, pending := b.pending + {b.cursor}))
  }

  function AckStep(b: Broker, entry: nat): Option<Broker> {
    if entry !in b.pending then Some(b)
    else Some(b.(pending := b.pending - {entry}, acknowledged := b.acknowledged + {entry}))
  }

  function BrokerNext(b: Broker, e: BrokerEvent): Option<Broker> {
    match e
    case Watch(p, job) => WatchStep(b, p, job)
    case Get(p, reply) => GetStep(b, p, reply)
    case Exec(p, reply) => ExecStep(b, p, reply)
    case Read => ReadStep(b)
    case Ack(entry) => AckStep(b, entry)
  }

  const EMPTY_BROKER := Broker([], {}, map[], map[], 0, {}, {})

  function BrokerAfter(b: Broker, events: seq<BrokerEvent>): Option<Broker>
    decreases |events|
  {
    if events == [] then Some(b)
    else
      match BrokerNext(b, events[0])
      case None => None
      case Some(next) => BrokerAfter(next, events[1..])
  }

  /** Every job has at most one entry, and its key is set exactly when it has one; a call that
      found the key absent may still add one only while the key is unset. */
  ghost predicate StreamInv(b: Broker) {
    && (forall i, j :: 0 <= i < j < |b.stream| ==> b.stream[i] != b.stream[j])
    && (forall job :: job in b.index <==> job in b.stream)
    && (forall p :: p in b.calls ==>
          var call := b.calls[p];
          match call
          case Watching(job, version) => version <= Version(b, job)
          case Absent(job, version) => version <= Version(b, job) && (version == Version(b, job) ==> job !in b.index)
          case Published(job, accepted) => accepted ==> job in b.index)
  }

  /** Every delivered entry is pending or acknowledged, and no other is. */
  ghost predicate GroupInv(b: Broker) {
    && b.cursor <= |b.stream|
    && b.pending !! b.acknowledged
    && forall i: nat :: i < b.cursor <==> i in b.pending || i in b.acknowledged
  }

  lemma StreamKept(b: Broker, e: BrokerEvent)
    requires StreamInv(b) && BrokerNext(b, e).Some?
    ensures StreamInv(BrokerNext(b, e).value)
  {
    var c := BrokerNext(b, e).value;
    assert e.Exec? && c.stream != b.stream ==> c.stream == b.stream + [b.calls[e.publisher].job];
  }

  lemma GroupKept(b: Broker, e: BrokerEvent)
    requires GroupInv(b) && BrokerNext(b, e).Some?
    ensures GroupInv(BrokerNext(b, e).value)
  {
  }

  /** What an `EXEC` does: the entry is added exactly when the key was not written since it was
      watched and the commands run, and the call is accepted exactly when it then hears so. */
  lemma ExecMeans(b: Broker, p: Publisher, reply: Reply)
    requires ExecStep(b, p, reply).Some?
    ensures var c, call := ExecStep(b, p, reply).value, b.calls[p];
            && (c.stream == b.stream || c.stream == b.stream + [call.job])
            && (c.stream != b.stream <==> Version(b, call.job) == call.version && reply != RepliedError)
            && c.calls == b.calls[p := Published(call.job, c.stream != b.stream && reply == Replied)]
            && c.index == b.index + (if c.stream != b.stream then {call.job} else {})
  {
    assert |b.stream + [b.calls[p].job]| == |b.stream| + 1;
  }

  lemma {:induction false} BrokerKeeps(b: Broker, events: seq<BrokerEvent>)
    requires StreamInv(b) && GroupInv(b) && BrokerAfter(b, events).Some?
    ensures StreamInv(BrokerAfter(b, events).value) && GroupInv(BrokerAfter(b, events).value)
    decreases |events|
  {
    if events != [] {
      hide StreamInv, GroupInv, BrokerNext;
      StreamKept(b, events[0]);
      GroupKept(b, events[0]);
      BrokerKeeps(BrokerNext(b, events[0]).value, events[1..]);
    }
  }

  function Count(stream: seq<JobId>, job: JobId): nat {
    if stream == [] then 0 else (if stream[0] == job then 1 else 0) + Count(stream[1..], job)
  }

  lemma {:induction false} DistinctCount(stream: seq<JobId>, job: JobId)
    requires forall i, j :: 0 <= i < j < |stream| ==> stream[i] != stream[j]
    ensures Count(stream, job) == if job in stream then 1 else 0
  {
    if stream != [] {
      assert forall i :: 0 <= i < |stream[1..]| ==> stream[1..][i] == stream[i + 1];
      DistinctCount(stream[1..], job);
      assert stream == [stream[0]] + stream[1..];
    }
  }

  /** No duplicated task, in any interleaving of publishers and consumers: a job has at most one
      entry, its key is set exactly when it has one, and a call that reports success left it
      with one. */
  lemma OneEntryPerJob(events: seq<BrokerEvent>, job: JobId)
    requires BrokerAfter(EMPTY_BROKER, events).Some?
    ensures var b := BrokerAfter(EMPTY_BROKER, events).value;
            && Count(b.stream, job) <= 1
            && (job in b.index <==> Count(b.stream, job) == 1)
            && forall p :: p in b.calls && b.calls[p] == Published(job, true) ==> Count(b.stream, job) == 1
  {
    BrokerKeeps(EMPTY_BROKER, events);
    DistinctCount(BrokerAfter(EMPTY_BROKER, events).value.stream, job);
  }

  /** No lost task: an entry that was not acknowledged is still to be read or still pending, so
      it can be delivered again. */
  lemma NoLostEntry(events: seq<BrokerEvent>, entry: nat)
    requires BrokerAfter(EMPTY_BROKER, events).Some? && entry < |BrokerAfter(EMPTY_BROKER, events).value.stream|
    ensures var b := BrokerAfter(EMPTY_BROKER, events).value;
            entry !in b.acknowledged <==> entry >= b.cursor || entry in b.pending
  {
    BrokerKeeps(EMPTY_BROKER, events);
  }

  /** Publishing on a quiet broker always succeeds: the first call adds the entry, and every
      later call is accepted without adding another. */
  lemma PublishIdempotent(b: Broker, p: Publisher, job: JobId)
    requires StreamInv(b) && p !in b.calls
    ensures var events := if job in b.index then [Watch(p, job), Get(p, Replied)]
                          else [Watch(p, job), Get(p, Replied), Exec(p, Replied)];
            && BrokerAfter(b, events).Some?
            && p in BrokerAfter(b, events).value.calls
            && BrokerAfter(b, events).value.calls[p] == Published(job, true)
            && BrokerAfter(b, events).value.stream == (if job in b.index then b.stream else b.stream + [job])
  {
    var watched := BrokerNext(b, Watch(p, job)).value;
    var got := BrokerNext(watched, Get(p, Replied)).value;
    assert [Watch(p, job), Get(p, Replied)][1..] == [Get(p, Replied)];
    assert [Watch(p, job), Get(p, Replied), Exec(p, Replied)][1..] == [Get(p, Replied), Exec(p, Replied)];
    assert [Get(p, Replied), Exec(p, Replied)][1..] == [Exec(p, Replied)];
    assert [Get(p, Replied)][1..] == [] == [Exec(p, Replied)][1..];
    assert BrokerAfter(got, []) == Some(got);
    if job !in b.index {
      var done := BrokerNext(got, Exec(p, Replied)).value;
      assert BrokerAfter(done, []) == Some(done);
      assert BrokerAfter(got, [Exec(p, Replied)]) == Some(done);
    }
    assert BrokerAfter(watched, if job in b.index then [Get(p, Replied)] else [Get(p, Replied), Exec(p, Replied)]).Some?;
  }

  /* ---------------------------------------------------------------------------------------
     The adapter.
     --------------------------------------------------------------------------------------- */

  datatype Payload = Undecodable | Task(job: JobId)

  const TASK_PROCESS_JOB := "job.process"

  class Delivery {
    const taskType: string
    const taskId: Option<JobId>
    const payload: Payload
    var acks: nat
    var retries: nat

    constructor (taskType: string, taskId: Option<JobId>, payload: Payload)
      ensures this.taskType == taskType && this.taskId == taskId && this.payload == payload
      ensures acks == 0 && retries == 0
    {
      this.taskType, this.taskId, this.payload := taskType, taskId, payload;
      acks, retries := 0, 0;
    }

    /** A job task whose stream identifier matches its payload. */
    predicate WellFormed() {
      taskType == TASK_PROCESS_JOB && payload.Task? && taskId == Some(payload.job)
    }

    method Acknowledge()
      modifies this`acks
      ensures acks == old(acks) + 1
    {
      acks := acks + 1;
    }

    method Retry()
      modifies this`retries
      ensures retries == old(retries) + 1
    {
      retries := retries + 1;
    }
  }

  /** `handle`, with what the processor does given as its outcome. Exactly one of acknowledge
      and retry is called, and a well-formed delivery is acknowledged only for an outcome that
      `AcknowledgedClosed` shows to mean a missing or terminal job. */
  method Handle(d: Delivery, outcome: Outcome) returns (action: DeliveryAction)
    modifies d
    ensures action == if d.WellFormed() then Handled(outcome) else ACK
    ensures !(d.taskType == "job.process" && d.payload.Task? && d.taskId == Some(d.payload.job)) ==> action == ACK
    ensures d.taskType == "job.process" && d.payload.Task? && d.taskId == Some(d.payload.job) ==>
              (action == ACK <==> match outcome
                                  case ReturnedAck => true
                                  case ReturnedTrue => true
                                  case ReturnedFalse => false
                                  case Escaped(e) => e.WorkerFailure? && !e.transient)
    ensures d.acks == old(d.acks) + (if action == ACK then 1 else 0)
    ensures d.retries == old(d.retries) + (if action == RETRY then 1 else 0)
  {
    if d.taskType != TASK_PROCESS_JOB {
      d.Acknowledge();
      return ACK;
    }
    if d.payload.Undecodable? || d.taskId != Some(d.payload.job) {
      d.Acknowledge();
      return ACK;
    }
    match outcome
    case Escaped(WorkerFailure(transient, _)) =>
      if transient {
        d.Retry();
        return RETRY;
      }
      d.Acknowledge();
      return ACK;
    case Escaped(OtherException) =>
      d.Retry();
      return RETRY;
    case ReturnedFalse =>
      d.Retry();
      return RETRY;
    case _ =>
      d.Acknowledge();
      return ACK;
  }
}
