/**
 `Worker.process` as the code it is: one attempt on a shared job store, with whatever the
 other attempts, the clock and its own heartbeat do between any two of its statements. Every
 path through it is a run of the job protocol.
 */
module WorkerProcess {
  import opened Prelude
  import opened JobRepository
  import opened JobProtocol
  import opened JobSafety
  import opened JobRuns
  import opened JobOutcomes
  import opened Queue

  /** Everything that happens while attempt `a` is between two statements of its own thread. */
  predicate Foreign(e: Event, a: Attempt) {
    e.Tick? || e.Delete? || e.Cancel? || e.Renew? || e.attempt != a
  }

  /** The attempt is where it was; only its heartbeat may have failed, for good. */
  predicate Undisplaced(s: System, t: System, a: Attempt) {
    && a in s.attempts && a in t.attempts
    && (s.attempts[a].leaseLost ==> t.attempts[a].leaseLost)
    && t.attempts[a] == s.attempts[a].(leaseLost := t.attempts[a].leaseLost)
  }

  lemma ForeignKeeps(s: System, e: Event, a: Attempt)
    requires a in s.attempts && Foreign(e, a) && Next(s, e).Some?
    ensures Undisplaced(s, Next(s, e).value, a)
  {
  }

  class JobStore {
    var system: System
    ghost const start: int
    ghost var history: seq<Event>

    /** The store is what the run so far has made of the inserted job. */
    ghost predicate Valid()
      reads this
    {
      Inv(system) && After(Initial(start), history) == Some(system)
    }

    constructor (clock: int)
      ensures system == Initial(clock) && start == clock && history == [] && Valid()
    {
      system := Initial(clock);
      start, history := clock, [];
    }

    /** Where an attempt is. */
    function At(a: Attempt): Pc
      requires a in system.attempts
      reads this
    {
      system.attempts[a].pc
    }

    /** One event, which is possible. */
    method Perform(e: Event)
      requires Valid() && Next(system, e).Some?
      modifies this
      ensures system == Next(old(system), e).value && history == old(history) + [e] && Valid()
    {
      hide Inv, Next;
      NextKeeps(system, e);
      AfterOne(system, e);
      AfterAppend(Initial(start), history, [e]);
      system, history := Next(system, e).value, history + [e];
    }

    /** Any number of possible events of others, of time and of the attempt's heartbeat. */
    method Elapse(a: Attempt)
      requires Valid() && a in system.attempts
      modifies this
      ensures old(history) <= history && Valid() && Undisplaced(old(system), system, a)
    {
      hide Inv, Next;
      var events: seq<Event> := *;
      for k := 0 to |events|
        invariant Valid() && old(history) <= history && Undisplaced(old(system), system, a)
      {
        var e := events[k];
        if Foreign(e, a) && Next(system, e).Some? {
          ForeignKeeps(system, e, a);
          Perform(e);
        }
      }
    }

    /** An `update` of what the attempt stores next; it may fail in any way. */
    method Update(a: Attempt)
      requires Valid() && a in system.attempts && RequestOf(system.attempts[a], 0).Some?
      modifies this
      ensures old(history) <= history && Valid() && a in system.attempts
      ensures var q := RequestOf(old(system).attempts[a], 0).value; At(a) == q.accepted || At(a) == q.refused
    {
      hide Inv;
      Elapse(a);
      var db: Database := *;
      Perform(Write(a, 0, db));
    }

    method Release(a: Attempt)
      requires Valid() && a in system.attempts
      requires At(a) == Releasing || (At(a).Raising? && At(a).exception.WorkerFailure? && At(a).exception.transient)
      modifies this
      ensures old(history) <= history && Valid() && a in system.attempts
      ensures At(a) == Finished(Escaped(if old(At(a)).Raising? then old(At(a)).exception else OtherException))
    {
      hide Inv;
      Elapse(a);
      var db: Database := *;
      Perform(Event.Release(a, db));
    }
  }

  /** Into a stage: the lease check, and the update unless resumed. */
  method EnterStage(store: JobStore, a: Attempt, i: nat)
    requires store.Valid() && a in store.system.attempts && i < STAGES && store.At(a) == Entering(i)
    modifies store
    ensures old(store.history) <= store.history && store.Valid() && a in store.system.attempts
    ensures store.At(a).Raising? || store.At(a) == Handling(i)
    ensures old(store.system.attempts[a].leaseLost) ==> store.At(a).Raising? && Yielded(store.system, a)
  {
    hide Inv;
    store.Elapse(a);
    store.Perform(Enter(a));
    if store.At(a).Writing? {
      store.Update(a);
    }
  }

  /** Out of a stage: the lease check again. */
  method LeaveStage(store: JobStore, a: Attempt, i: nat)
    requires store.Valid() && a in store.system.attempts && i < STAGES && store.At(a) == Leaving(i)
    modifies store
    ensures old(store.history) <= store.history && store.Valid() && a in store.system.attempts
    ensures store.At(a).Raising? || store.At(a) == if i + 1 < STAGES then Entering(i + 1) else Completing
  {
    hide Inv;
    store.Elapse(a);
    var late: bool := *;
    if late {
      store.Perform(Raise(a, OtherException));
    } else {
      store.Perform(Proceed(a));
    }
  }

  /** One stage of the loop: the lease check, the update unless resumed, the handler with any
      outcome, and the lease check again. The handler runs only on a record of its own stage, and
      not at all once the lease is known to be lost. */
  method RunStage(store: JobStore, a: Attempt, i: nat)
    requires store.Valid() && a in store.system.attempts && i < STAGES && store.At(a) == Entering(i)
    modifies store
    ensures old(store.history) <= store.history && store.Valid() && a in store.system.attempts
    ensures store.At(a).Raising? || store.At(a) == if i + 1 < STAGES then Entering(i + 1) else Completing
    ensures old(store.system.attempts[a].leaseLost) ==> store.At(a).Raising? && Yielded(store.system, a)
  {
    EnterStage(store, a, i);
    if store.At(a).Raising? {
      return;
    }
    OwnStage(store.system, a, i);
    assert store.system.attempts[a].copy.state == StageState(i);
    hide Inv, Next, After, JobStore.Valid, Yielded;
    RunHandler(store, a, i);
    if store.At(a).Raising? {
      return;
    }
    LeaveStage(store, a, i);
  }

  lemma OwnStage(s: System, a: Attempt, i: nat)
    requires Inv(s) && a in s.attempts && s.attempts[a].pc == Handling(i)
    ensures s.attempts[a].copy.state == StageState(i)
  {
    assert AttemptInv(s, a, s.attempts[a]);
  }

  /** A handler: it raises anything at any point, or returns; the uploading one links its output
      first, and may still raise once it has. */
  method RunHandler(store: JobStore, a: Attempt, i: nat)
    requires store.Valid() && a in store.system.attempts && i < STAGES && store.At(a) == Handling(i)
    modifies store
    ensures old(store.history) <= store.history && store.Valid() && a in store.system.attempts
    ensures store.At(a).Raising? || store.At(a) == Leaving(i)
  {
    hide Inv;
    store.Elapse(a);
    var raises: bool := *;
    if raises {
      var e: Exception := *;
      store.Perform(Raise(a, e));
      return;
    }
    if i == 3 {
      var asset: Option<AssetId> := *;
      var db: Database := *;
      store.Perform(Link(a, asset, db));
      if store.At(a).Raising? {
        return;
      }
      store.Elapse(a);
      var late: bool := *;
      if late {
        var e: Exception := *;
        store.Perform(Raise(a, e));
        return;
      }
    }
    store.Perform(Return(a));
  }

  /** The exception handlers around the loop. */
  method Recover(store: JobStore, a: Attempt)
    requires store.Valid() && a in store.system.attempts && store.At(a).Raising?
    modifies store
    ensures old(Yielded(store.system, a)) ==> Yielded(store.system, a)
    ensures old(store.history) <= store.history && store.Valid() && a in store.system.attempts && store.At(a).Finished?
  {
    hide Inv;
    match store.At(a).exception
    case WorkerFailure(transient, _) =>
      if transient {
        store.Release(a);
      } else {
        store.Update(a);
      }
    case OtherException =>
      store.Update(a);
      if store.At(a) == Releasing {
        store.Release(a);
      }
  }

  /** `Worker.process` of a fresh attempt, over any interference: it always comes to an outcome,
      one that acknowledges means the job is missing or terminal, and no terminal failure
      escapes. */
  method Process(store: JobStore, a: Attempt, seconds: nat) returns (outcome: Outcome)
    requires store.Valid() && a !in store.system.attempts
    modifies store
    ensures old(store.history) <= store.history && store.Valid() && a in store.system.attempts && store.At(a) == Finished(outcome)
    ensures Handled(outcome) == ACK ==> Closed(store.system)
    ensures Handled(outcome) == ACK <==> Concluded(store.start, store.history, a)
    ensures outcome.Escaped? ==> Handled(outcome) == RETRY
  {
    hide Inv;
    var db: Database := *;
    store.Perform(Claim(a, seconds, db));
    if store.At(a).Looking? {
      store.Elapse(a);
      db := *;
      store.Perform(LookUp(a, db));
    } else if store.At(a).Starting? {
      var mismatch: bool := *;
      if mismatch {
        RejectModel(store, a);
      } else {
        RunStages(store, a);
      }
    }
    outcome := store.At(a).outcome;
    OutcomeMeans(store.system, a);
    ConclusionRun(store.start, store.history, a);
  }

  lemma OutcomeMeans(s: System, a: Attempt)
    requires Inv(s) && a in s.attempts && s.attempts[a].pc.Finished?
    ensures Handled(s.attempts[a].pc.outcome) == ACK ==> Closed(s)
    ensures s.attempts[a].pc.outcome.Escaped? ==> Handled(s.attempts[a].pc.outcome) == RETRY
  {
    assert AttemptInv(s, a, s.attempts[a]);
  }

  /** A job that needs another model version is failed, through the validating state if new. */
  method RejectModel(store: JobStore, a: Attempt)
    requires store.Valid() && a in store.system.attempts && store.At(a) == Starting
    modifies store
    ensures old(store.history) <= store.history && store.Valid() && a in store.system.attempts && store.At(a).Finished?
  {
    hide Inv;
    if store.system.attempts[a].copy.state == Queued {
      store.Update(a);
      if store.At(a).Finished? {
        return;
      }
    } else {
      store.Perform(Begin(a, true));
    }
    store.Update(a);
  }

  /** One pass of the loop: its body raises before the stage, or takes it. */
  method TakeStage(store: JobStore, a: Attempt, i: nat)
    requires store.Valid() && a in store.system.attempts && i < STAGES && store.At(a) == Entering(i)
    modifies store
    ensures old(store.history) <= store.history && store.Valid() && a in store.system.attempts
    ensures store.At(a).Raising? || store.At(a) == if i + 1 < STAGES then Entering(i + 1) else Completing
  {
    hide Inv;
    var broken: bool := *;
    if broken {
      store.Perform(Raise(a, OtherException));
    } else {
      RunStage(store, a, i);
    }
  }

  /** The resume point. */
  method Resume(store: JobStore, a: Attempt) returns (i: nat)
    requires store.Valid() && a in store.system.attempts && store.At(a) == Starting
    modifies store
    ensures old(store.history) <= store.history && store.Valid() && a in store.system.attempts
    ensures i < STAGES && store.At(a) == Entering(i)
  {
    Resumes(store.system, a);
    hide Inv;
    store.Perform(Begin(a, false));
    i := store.At(a).stage;
  }

  /** The update that completes the job. */
  method Complete(store: JobStore, a: Attempt)
    requires store.Valid() && a in store.system.attempts && store.At(a) == Completing
    modifies store
    ensures old(store.history) <= store.history && store.Valid() && a in store.system.attempts
    ensures store.At(a).Raising? || store.At(a).Finished?
  {
    hide Inv;
    store.Update(a);
  }

  /** The loop over the remaining stages, then completion, and recovery from what either raises. */
  method RunStages(store: JobStore, a: Attempt)
    requires store.Valid() && a in store.system.attempts && store.At(a) == Starting
    modifies store
    ensures old(store.history) <= store.history && store.Valid() && a in store.system.attempts && store.At(a).Finished?
  {
    hide Inv, Next, After, JobStore.Valid;
    var i := Resume(store, a);
    while i < STAGES
      invariant old(store.history) <= store.history && store.Valid() && a in store.system.attempts && i <= STAGES
      invariant store.At(a) == if i < STAGES then Entering(i) else Completing
    {
      TakeStage(store, a, i);
      if store.At(a).Raising? {
        Recover(store, a);
        return;
      }
      i := i + 1;
    }
    Complete(store, a);
    if store.At(a).Raising? {
      Recover(store, a);
    }
  }

  /** The resume lookup finds a stage. */
  lemma Resumes(s: System, a: Attempt)
    requires Inv(s) && a in s.attempts && s.attempts[a].pc == Starting
    ensures Next(s, Begin(a, false)).Some?
    ensures var t := Next(s, Begin(a, false)).value;
            a in t.attempts && t.attempts[a].pc.Entering? && t.attempts[a].pc.stage < STAGES
  {
    assert AttemptInv(s, a, s.attempts[a]);
  }

  /** One delivery end to end: a well-formed one is acknowledged only when its job is missing or
      durably terminal, on every return and exception path, and otherwise left pending. */
  method Deliver(store: JobStore, d: Delivery, a: Attempt, seconds: nat) returns (action: DeliveryAction)
    requires store.Valid() && a !in store.system.attempts
    modifies store, d
    ensures old(store.history) <= store.history && store.Valid()
    ensures d.acks == old(d.acks) + (if action == ACK then 1 else 0)
    ensures d.retries == old(d.retries) + (if action == RETRY then 1 else 0)
    ensures d.WellFormed() ==> (action == ACK <==> Concluded(store.start, store.history, a))
    ensures d.WellFormed() && action == ACK ==> Closed(store.system)
    ensures !d.WellFormed() ==> action == ACK && store.system == old(store.system)
  {
    if d.WellFormed() {
      var outcome := Process(store, a, seconds);
      action := Handle(d, outcome);
    } else {
      action := Handle(d, ReturnedTrue);
    }
  }
}
