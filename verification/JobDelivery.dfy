/**
 Jobs and their stream together: the API inserts a row and publishes it, consumers read and
 reclaim entries, attempts run the job protocol for the entry they were given, and an entry is
 acknowledged by a finished attempt on its job and by nothing else.
 */
module JobDelivery {
  import opened Prelude
  import opened JobRepository
  import opened JobProtocol
  import opened JobSafety
  import opened JobRuns
  import opened Queue

  /** The broker, every inserted job with its attempts, and the entry each attempt was started
      for. */
  datatype World = World(broker: Broker, jobs: map<JobId, System>, served: map<(JobId, Attempt), nat>)

  datatype WorldEvent =
    | Insert(job: JobId, clock: int)
    | Publish(call: BrokerEvent)
    | Deliver
    | Start(entry: nat, attempt: Attempt, seconds: nat, db: Database)
    | Work(job: JobId, step: Event)
    | Finish(job: JobId, attempt: Attempt)

  /** The job an entry is for. */
  function JobOf(w: World, entry: nat): JobId
    requires entry < |w.broker.stream|
  {
    w.broker.stream[entry]
  }

  /** The API publishes only jobs it has inserted. */
  function PublishStep(w: World, e: BrokerEvent): Option<World> {
    if e.Read? || e.Ack? || (e.Watch? && e.job !in w.jobs) then None
    else
      match BrokerNext(w.broker, e)
      case None => None
      case Some(broker) => Some(w.(broker := broker))
  }

  /** A consumer holding a pending entry, just read or reclaimed, starts an attempt for it. */
  function StartStep(w: World, entry: nat, a: Attempt, seconds: nat, db: Database): Option<World> {
    if entry !in w.broker.pending || entry >= |w.broker.stream| || JobOf(w, entry) !in w.jobs then None
    else
      var job := JobOf(w, entry);
      match ClaimStep(w.jobs[job], a, seconds, db)
      case None => None
      case Some(system) => Some(w.(jobs := w.jobs[job := system], served := w.served[(job, a) := entry]))
  }

  function WorkStep(w: World, job: JobId, e: Event): Option<World> {
    if job !in w.jobs || e.Claim? || e.Settle? then None
    else
      match Next(w.jobs[job], e)
      case None => None
      case Some(system) => Some(w.(jobs := w.jobs[job := system]))
  }

  /** The adapter settles a finished attempt: its entry is acknowledged exactly when the outcome
      is to be, and is left pending otherwise. */
  function FinishStep(w: World, job: JobId, a: Attempt): Option<World> {
    if job !in w.jobs || (job, a) !in w.served then None
    else
      match SettleStep(w.jobs[job], a)
      case None => None
      case Some(system) =>
        var settled := w.(jobs := w.jobs[job := system]);
        if Handled(w.jobs[job].attempts[a].pc.outcome) == RETRY then Some(settled)
        else
          match AckStep(w.broker, w.served[(job, a)])
          case None => None
          case Some(broker) => Some(settled.(broker := broker))
  }

  function WorldNext(w: World, e: WorldEvent): Option<World> {
    match e
    case Insert(job, clock) => if job in w.jobs then None else Some(w.(jobs := w.jobs[job := Initial(clock)]))
    case Publish(call) => PublishStep(w, call)
    case Deliver =>
      (match ReadStep(w.broker) case None => None case Some(broker) => Some(w.(broker := broker)))
    case Start(entry, a, seconds, db) => StartStep(w, entry, a, seconds, db)
    case Work(job, step) => WorkStep(w, job, step)
    case Finish(job, a) => FinishStep(w, job, a)
  }

  const EMPTY_WORLD := World(EMPTY_BROKER, map[], map[])

  function WorldAfter(w: World, events: seq<WorldEvent>): Option<World>
    decreases |events|
  {
    if events == [] then Some(w)
    else
      match WorldNext(w, events[0])
      case None => None
      case Some(next) => WorldAfter(next, events[1..])
  }

  /* ---------------------------------------------------------------------------------------
     What every run keeps.
     --------------------------------------------------------------------------------------- */

  ghost predicate JobsInv(w: World) {
    forall job :: job in w.jobs ==> Inv(w.jobs[job])
  }

  /** Calls and entries are for inserted jobs, and attempts were started for delivered entries of
      their job. */
  ghost predicate Linkage(w: World) {
    && (forall p :: p in w.broker.calls ==> w.broker.calls[p].job in w.jobs)
    && (forall i :: 0 <= i < |w.broker.stream| ==> w.broker.stream[i] in w.jobs)
    && (forall key :: key in w.served ==>
          && w.served[key] < w.broker.cursor && w.served[key] < |w.broker.stream|
          && w.broker.stream[w.served[key]] == key.0)
  }

  /** Every acknowledged entry's job is missing or terminal. */
  ghost predicate AckInv(w: World) {
    forall i :: i in w.broker.acknowledged ==>
      i < |w.broker.stream| && w.broker.stream[i] in w.jobs && Closed(w.jobs[w.broker.stream[i]])
  }

  ghost predicate WorldInv(w: World) {
    StreamInv(w.broker) && GroupInv(w.broker) && JobsInv(w) && Linkage(w) && AckInv(w)
  }

  /** A closed job stays closed by any step. */
  lemma ClosedStays(s: System, e: Event)
    requires Inv(s) && Next(s, e).Some? && Closed(s)
    ensures Closed(Next(s, e).value)
  {
    hide Inv, Next;
    NextForward(s, e);
  }

  /** One job moves by a step of its protocol, the broker stands still. */
  lemma JobMoves(w: World, job: JobId, e: Event, v: World)
    requires WorldInv(w) && job in w.jobs && Next(w.jobs[job], e).Some?
    requires v.broker == w.broker && v.jobs == w.jobs[job := Next(w.jobs[job], e).value] && Linkage(v)
    ensures WorldInv(v)
  {
    hide Inv, Next, Closed, StreamInv, GroupInv;
    NextKeeps(w.jobs[job], e);
    if Closed(w.jobs[job]) {
      ClosedStays(w.jobs[job], e);
    }
  }

  lemma PublishKeeps(w: World, e: BrokerEvent)
    requires WorldInv(w) && PublishStep(w, e).Some?
    ensures WorldInv(PublishStep(w, e).value)
  {
    hide Inv, Closed;
    StreamKept(w.broker, e);
    GroupKept(w.broker, e);
    hide StreamInv, GroupInv;
  }

  lemma DeliverKeeps(w: World)
    requires WorldInv(w) && WorldNext(w, Deliver).Some?
    ensures WorldInv(WorldNext(w, Deliver).value)
  {
    hide Inv, Closed;
    StreamKept(w.broker, Read);
    GroupKept(w.broker, Read);
    hide StreamInv, GroupInv;
  }

  lemma InsertKeeps(w: World, job: JobId, clock: int)
    requires WorldInv(w) && WorldNext(w, Insert(job, clock)).Some?
    ensures WorldInv(WorldNext(w, Insert(job, clock)).value)
  {
    InitialInv(clock);
    hide Inv, Closed, Initial, StreamInv, GroupInv;
  }

  lemma InitialInv(clock: int)
    ensures Inv(Initial(clock))
  {
  }

  lemma StartKeeps(w: World, entry: nat, a: Attempt, seconds: nat, db: Database)
    requires WorldInv(w) && StartStep(w, entry, a, seconds, db).Some?
    ensures WorldInv(StartStep(w, entry, a, seconds, db).value)
  {
    assert entry < w.broker.cursor;
    hide Inv, Closed, ClaimStep, StreamInv, GroupInv;
    JobMoves(w, JobOf(w, entry), Claim(a, seconds, db), StartStep(w, entry, a, seconds, db).value);
  }

  lemma WorkKeeps(w: World, job: JobId, e: Event)
    requires WorldInv(w) && WorkStep(w, job, e).Some?
    ensures WorldInv(WorkStep(w, job, e).value)
  {
    hide Inv, Closed, Next, StreamInv, GroupInv;
    JobMoves(w, job, e, WorkStep(w, job, e).value);
  }

  /** Settling acknowledges only the entry of a job that is missing or terminal. */
  lemma FinishKeeps(w: World, job: JobId, a: Attempt)
    requires WorldInv(w) && FinishStep(w, job, a).Some?
    ensures WorldInv(FinishStep(w, job, a).value)
  {
    var s, v := w.jobs[job], FinishStep(w, job, a).value;
    assert AttemptInv(s, a, s.attempts[a]);
    hide Inv, Closed, RowInv, StreamInv, GroupInv;
    var settled := w.(jobs := w.jobs[job := Next(s, Settle(a)).value]);
    JobMoves(w, job, Settle(a), settled);
    if Handled(s.attempts[a].pc.outcome) == ACK {
      ClosedStays(s, Settle(a));
      StreamKept(w.broker, Ack(w.served[(job, a)]));
      GroupKept(w.broker, Ack(w.served[(job, a)]));
    }
  }

  lemma WorldKeeps(w: World, e: WorldEvent)
    requires WorldInv(w) && WorldNext(w, e).Some?
    ensures WorldInv(WorldNext(w, e).value)
  {
    hide WorldInv;
    match e
    case Insert(job, clock) => InsertKeeps(w, job, clock);
    case Publish(call) => PublishKeeps(w, call);
    case Deliver => DeliverKeeps(w);
    case Start(entry, a, seconds, db) => StartKeeps(w, entry, a, seconds, db);
    case Work(job, step) => WorkKeeps(w, job, step);
    case Finish(job, a) => FinishKeeps(w, job, a);
  }

  lemma {:induction false} WorldAfterKeeps(w: World, events: seq<WorldEvent>)
    requires WorldInv(w) && WorldAfter(w, events).Some?
    ensures WorldInv(WorldAfter(w, events).value)
    decreases |events|
  {
    if events != [] {
      hide WorldInv, WorldNext;
      WorldKeeps(w, events[0]);
      WorldAfterKeeps(WorldNext(w, events[0]).value, events[1..]);
    }
  }

  /** An entry is still to be read or can be reclaimed. */
  predicate Deliverable(w: World, entry: nat) {
    entry < |w.broker.stream| && (entry >= w.broker.cursor || entry in w.broker.pending)
  }

  /** No open job is ever forgotten: in every run of publishers, consumers and attempts, a job
      whose index key is set and whose row is neither missing nor terminal has an entry that is
      unread or pending, and an acknowledged entry is of a missing or terminal job. */
  lemma OpenJobDeliverable(events: seq<WorldEvent>, job: JobId)
    requires WorldAfter(EMPTY_WORLD, events).Some?
    ensures var w := WorldAfter(EMPTY_WORLD, events).value;
            && (job in w.broker.index ==> job in w.jobs)
            && (job in w.broker.index && !Closed(w.jobs[job]) ==>
                  exists entry: nat :: Deliverable(w, entry) && JobOf(w, entry) == job)
            && (forall entry :: entry in w.broker.acknowledged ==>
                  && entry < |w.broker.stream| && JobOf(w, entry) in w.jobs
                  && Closed(w.jobs[JobOf(w, entry)]))
  {
    hide Inv, Closed;
    WorldAfterKeeps(EMPTY_WORLD, events);
    var w := WorldAfter(EMPTY_WORLD, events).value;
    if job in w.broker.index && !Closed(w.jobs[job]) {
      var entry: nat :| entry < |w.broker.stream| && w.broker.stream[entry] == job;
      assert entry !in w.broker.acknowledged;
      assert Deliverable(w, entry);
    }
  }

  /* ---------------------------------------------------------------------------------------
     Recovery by redelivery.
     --------------------------------------------------------------------------------------- */

  /** A step of an attempt for an entry, as a step of the world. */
  function Lifted(job: JobId, entry: nat, e: Event): WorldEvent {
    match e
    case Claim(a, seconds, db) => Start(entry, a, seconds, db)
    case _ => Work(job, e)
  }

  function LiftedAll(job: JobId, entry: nat, events: seq<Event>): seq<WorldEvent> {
    if events == [] then [] else [Lifted(job, entry, events[0])] + LiftedAll(job, entry, events[1..])
  }

  /** The attempt was started for the entry. */
  predicate Serves(w: World, job: JobId, a: Attempt, entry: nat) {
    (job, a) in w.served && w.served[(job, a)] == entry
  }

  /** A run of one job whose deliveries are not settled is a run of the world on a pending entry. */
  lemma {:induction false} LiftRuns(w: World, job: JobId, entry: nat, events: seq<Event>)
    requires entry in w.broker.pending && entry < |w.broker.stream| && JobOf(w, entry) == job && job in w.jobs
    requires Unsettled(events) && After(w.jobs[job], events).Some?
    ensures WorldAfter(w, LiftedAll(job, entry, events)).Some?
    ensures var v := WorldAfter(w, LiftedAll(job, entry, events)).value;
            && v.broker == w.broker && job in v.jobs && v.jobs[job] == After(w.jobs[job], events).value
            && forall a :: a in v.jobs[job].attempts && (a in w.jobs[job].attempts ==> Serves(w, job, a, entry)) ==>
                 Serves(v, job, a, entry)
    decreases |events|
  {
    if events != [] {
      var e, rest := events[0], events[1..];
      assert !e.Settle? && Unsettled(rest);
      var lifted := LiftedAll(job, entry, events);
      assert lifted[0] == Lifted(job, entry, e) && lifted[1..] == LiftedAll(job, entry, rest);
      LiftStep(w, job, entry, e);
      hide Next, WorldNext;
      LiftRuns(WorldNext(w, Lifted(job, entry, e)).value, job, entry, rest);
    }
  }

  lemma LiftStep(w: World, job: JobId, entry: nat, e: Event)
    requires entry in w.broker.pending && entry < |w.broker.stream| && JobOf(w, entry) == job && job in w.jobs
    requires !e.Settle? && Next(w.jobs[job], e).Some?
    ensures WorldNext(w, Lifted(job, entry, e)).Some?
    ensures var v := WorldNext(w, Lifted(job, entry, e)).value;
            && v.broker == w.broker && job in v.jobs && v.jobs[job] == Next(w.jobs[job], e).value
            && forall a :: a in v.jobs[job].attempts && (a in w.jobs[job].attempts ==> Serves(w, job, a, entry)) ==>
                 Serves(v, job, a, entry)
  {
    OnlyClaimsStart(w.jobs[job], e);
    hide ClaimStep, WriteStep, LinkStep, RenewStep;
  }

  lemma OnlyClaimsStart(s: System, e: Event)
    requires Next(s, e).Some?
    ensures forall a :: a in Next(s, e).value.attempts <==> a in s.attempts || (e.Claim? && e.attempt == a)
  {
    hide UpdateSql, ClaimSql, RequestOf;
  }

  lemma {:induction false} WorldAfterAppend(w: World, xs: seq<WorldEvent>, ys: seq<WorldEvent>)
    requires WorldAfter(w, xs).Some?
    ensures WorldAfter(w, xs + ys) == WorldAfter(WorldAfter(w, xs).value, ys)
    decreases |xs|
  {
    if xs == [] {
      assert xs + ys == ys;
    } else {
      hide WorldNext;
      WorldAfterAppend(WorldNext(w, xs[0]).value, xs[1..], ys);
      assert (xs + ys)[1..] == xs[1..] + ys;
    }
  }

  /** Reading on until an unread entry is pending. */
  lemma {:induction false} ReadUntil(w: World, entry: nat) returns (events: seq<WorldEvent>)
    requires Deliverable(w, entry)
    ensures WorldAfter(w, events).Some?
    ensures var v := WorldAfter(w, events).value;
            v.jobs == w.jobs && v.broker.stream == w.broker.stream && entry in v.broker.pending
    decreases entry - w.broker.cursor
  {
    if entry in w.broker.pending {
      events := [];
    } else {
      var v := WorldNext(w, Deliver).value;
      assert entry == w.broker.cursor ==> entry in v.broker.pending;
      var rest := ReadUntil(v, entry);
      events := [Deliver] + rest;
      assert events[1..] == rest;
    }
  }

  /** Every published open job can still be completed: from every reachable state its entry can
      be delivered, again if need be, and a fresh attempt for it can complete the job. */
  lemma AlwaysCompletable(before: seq<WorldEvent>, job: JobId, a: Attempt) returns (events: seq<WorldEvent>)
    requires WorldAfter(EMPTY_WORLD, before).Some?
    requires var w := WorldAfter(EMPTY_WORLD, before).value;
             job in w.broker.index && job in w.jobs && !Closed(w.jobs[job]) && a !in w.jobs[job].attempts
    ensures var w := WorldAfter(EMPTY_WORLD, before).value;
            && WorldAfter(w, events).Some?
            && var v := WorldAfter(w, events).value;
               job in v.jobs && v.jobs[job].row.Some? && v.jobs[job].row.value.job.state == Completed
  {
    hide Inv, Closed, WorldNext, Next;
    var w := WorldAfter(EMPTY_WORLD, before).value;
    OpenJobDeliverable(before, job);
    WorldAfterKeeps(EMPTY_WORLD, before);
    var entry: nat :| Deliverable(w, entry) && JobOf(w, entry) == job;
    var reading := ReadUntil(w, entry);
    var v := WorldAfter(w, reading).value;
    var run := Resumable(v.jobs[job], a);
    InStream(v, entry, w);
    LiftRuns(v, job, entry, run);
    WorldAfterAppend(w, reading, LiftedAll(job, entry, run));
    events := reading + LiftedAll(job, entry, run);
  }

  lemma InStream(v: World, entry: nat, w: World)
    requires Deliverable(w, entry) && v.broker.stream == w.broker.stream
    ensures entry < |v.broker.stream| && JobOf(v, entry) == JobOf(w, entry)
  {
  }
}
