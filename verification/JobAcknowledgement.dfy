/** That finished work is acknowledged: an attempt that concluded and is settled has its entry
    acknowledged, and every published entry can still come to be. */
module JobAcknowledgement {
  import opened Prelude
  import opened JobRepository
  import opened JobProtocol
  import opened JobSafety
  import opened JobRuns
  import opened JobOutcomes
  import opened Queue
  import opened JobDelivery

  /** The attempt serves the job and is to be acknowledged, or is gone. */
  predicate Owed(w: World, job: JobId, a: Attempt) {
    && job in w.jobs && a in w.jobs[job].attempts
    && (Acknowledging(w.jobs[job], a) || w.jobs[job].attempts[a].pc in {Crashed, Settled})
  }

  lemma OwedStep(s: System, e: Event, a: Attempt)
    requires Inv(s) && Next(s, e).Some? && a in s.attempts
    requires Acknowledging(s, a) || s.attempts[a].pc in {Crashed, Settled}
    ensures a in Next(s, e).value.attempts
    ensures Acknowledging(Next(s, e).value, a) || Next(s, e).value.attempts[a].pc in {Crashed, Settled}
  {
    hide Inv, Next, Handled;
    NextStarted(s, e, a);
    AcknowledgingStep(s, e, a);
    if s.attempts[a].pc in {Crashed, Settled} {
      GoneStays(s, e, a);
    }
  }

  /** A step of the world moves one job by a step of its protocol, or none. */
  lemma WorldMoves(w: World, e: WorldEvent, job: JobId)
    requires WorldNext(w, e).Some? && job in w.jobs
    ensures job in WorldNext(w, e).value.jobs
    ensures WorldNext(w, e).value.jobs[job] == w.jobs[job]
         || exists step :: Next(w.jobs[job], step) == Some(WorldNext(w, e).value.jobs[job])
  {
    hide LookUpStep, BeginStep, EnterStep, WriteStep, LinkStep, RenewStep, ReleaseStep, ClaimStep, SettleStep;
    match e
    case Start(entry, a, seconds, db) =>
      assert Next(w.jobs[JobOf(w, entry)], Claim(a, seconds, db)) == ClaimStep(w.jobs[JobOf(w, entry)], a, seconds, db);
    case Work(b, step) =>
    case Finish(b, a) => assert Next(w.jobs[b], Settle(a)) == SettleStep(w.jobs[b], a);
    case _ =>
  }

  lemma OwedMoves(w: World, e: WorldEvent, job: JobId, a: Attempt)
    requires WorldInv(w) && WorldNext(w, e).Some? && Owed(w, job, a)
    ensures Owed(WorldNext(w, e).value, job, a)
  {
    WorldMoves(w, e, job);
    hide WorldNext, Next, Inv, Acknowledging;
    var v := WorldNext(w, e).value;
    if v.jobs[job] != w.jobs[job] {
      var step :| Next(w.jobs[job], step) == Some(v.jobs[job]);
      OwedStep(w.jobs[job], step, a);
    }
  }

  lemma {:induction false} OwedRun(w: World, events: seq<WorldEvent>, job: JobId, a: Attempt)
    requires WorldInv(w) && WorldAfter(w, events).Some? && Owed(w, job, a)
    ensures Owed(WorldAfter(w, events).value, job, a) && WorldInv(WorldAfter(w, events).value)
    decreases |events|
  {
    if events != [] {
      OwedMoves(w, events[0], job, a);
      WorldKeeps(w, events[0]);
      hide WorldNext, Owed, WorldInv;
      OwedRun(WorldNext(w, events[0]).value, events[1..], job, a);
    }
  }

  lemma FinishAcks(w: World, job: JobId, a: Attempt)
    requires WorldInv(w) && Owed(w, job, a) && WorldNext(w, Finish(job, a)).Some?
    ensures (job, a) in w.served && w.served[(job, a)] in WorldNext(w, Finish(job, a)).value.broker.acknowledged
    ensures WorldNext(w, Finish(job, a)).value.jobs[job].acknowledged
  {
    hide Inv, Closed, StreamInv;
  }

  lemma ConcludedOwed(w: World, job: JobId, e: Event, a: Attempt)
    requires job in w.jobs && Inv(w.jobs[job]) && Concludes(w.jobs[job], e, a) && WorldNext(w, Work(job, e)).Some?
    ensures Owed(WorldNext(w, Work(job, e)).value, job, a)
  {
    ConcludesActs(w.jobs[job], e, a);
    AcknowledgingStep(w.jobs[job], e, a);
    hide Concludes, Acknowledging, Next, Inv;
  }

  /** Finished work is acknowledged: when an attempt's own terminal update is accepted and heard,
      or its claim finds the row missing or terminal, then whatever happens in between, settling
      the attempt acknowledges the entry it was started for. */
  lemma ConcludedAcknowledges(before: seq<WorldEvent>, job: JobId, e: Event, a: Attempt, more: seq<WorldEvent>)
    requires WorldAfter(EMPTY_WORLD, before).Some?
    requires var w := WorldAfter(EMPTY_WORLD, before).value;
             job in w.jobs && Concludes(w.jobs[job], e, a) && WorldNext(w, Work(job, e)).Some?
    requires WorldAfter(WorldNext(WorldAfter(EMPTY_WORLD, before).value, Work(job, e)).value, more).Some?
    ensures var u := WorldAfter(WorldNext(WorldAfter(EMPTY_WORLD, before).value, Work(job, e)).value, more).value;
            WorldNext(u, Finish(job, a)).Some? ==>
              && (job, a) in u.served
              && u.served[(job, a)] in WorldNext(u, Finish(job, a)).value.broker.acknowledged
  {
    WorldAfterKeeps(EMPTY_WORLD, before);
    var w := WorldAfter(EMPTY_WORLD, before).value;
    var v := WorldNext(w, Work(job, e)).value;
    hide Concludes, Acknowledging, Next, Inv, Owed;
    WorldKeeps(w, Work(job, e));
    ConcludedOwed(w, job, e, a);
    hide WorldNext, WorldInv;
    OwedRun(v, more, job, a);
    var u := WorldAfter(v, more).value;
    if WorldNext(u, Finish(job, a)).Some? {
      FinishAcks(u, job, a);
    }
  }

  /* ---------------------------------------------------------------------------------------
     Every entry can be acknowledged.
     --------------------------------------------------------------------------------------- */

  /** A fresh attempt on a closed job finds it so. */
  lemma ClosedFound(s: System, a: Attempt)
    requires Inv(s) && Closed(s) && a !in s.attempts
    ensures var run := [Claim(a, 60, Ran), LookUp(a, Ran)];
            && Unsettled(run) && After(s, run).Some?
            && a in After(s, run).value.attempts && Acknowledging(After(s, run).value, a)
  {
    var claim, look := Claim(a, 60, Ran), LookUp(a, Ran);
    var t := Next(s, claim).value;
    assert [claim, look] == [claim] + [look];
    AfterOne(s, claim);
    AfterOne(t, look);
    AfterAppend(s, [claim], [look]);
  }

  /** A fresh attempt can conclude, whatever state the job is in. */
  lemma Concludable(s: System, a: Attempt) returns (run: seq<Event>)
    requires Inv(s) && a !in s.attempts
    ensures Unsettled(run) && After(s, run).Some?
    ensures a in After(s, run).value.attempts && Acknowledging(After(s, run).value, a)
  {
    hide Inv, Closed, After, Unsettled;
    if Closed(s) {
      ClosedFound(s, a);
      run := [Claim(a, 60, Ran), LookUp(a, Ran)];
    } else {
      run := Resumable(s, a);
    }
  }

  /** No entry is ever stuck: from every reachable state of publishers, consumers and attempts,
      every published entry can still come to be acknowledged, by a delivery to a fresh attempt. */
  lemma AlwaysAcknowledgeable(before: seq<WorldEvent>, entry: nat, a: Attempt) returns (events: seq<WorldEvent>)
    requires WorldAfter(EMPTY_WORLD, before).Some?
    requires var w := WorldAfter(EMPTY_WORLD, before).value;
             && entry < |w.broker.stream|
             && (JobOf(w, entry) in w.jobs ==> a !in w.jobs[JobOf(w, entry)].attempts)
    ensures var w := WorldAfter(EMPTY_WORLD, before).value;
            WorldAfter(w, events).Some? && entry in WorldAfter(w, events).value.broker.acknowledged
  {
    var w := WorldAfter(EMPTY_WORLD, before).value;
    WorldAfterKeeps(EMPTY_WORLD, before);
    if entry in w.broker.acknowledged {
      events := [];
    } else {
      events := Acknowledgeable(w, entry, a);
    }
  }

  lemma Acknowledgeable(w: World, entry: nat, a: Attempt) returns (events: seq<WorldEvent>)
    requires WorldInv(w) && entry < |w.broker.stream| && entry !in w.broker.acknowledged
    requires JobOf(w, entry) in w.jobs && a !in w.jobs[JobOf(w, entry)].attempts
    ensures WorldAfter(w, events).Some? && entry in WorldAfter(w, events).value.broker.acknowledged
  {
    hide Inv, Closed, WorldNext, Next, StreamInv;
    var job := JobOf(w, entry);
    assert Deliverable(w, entry);
    var reading := ReadUntil(w, entry);
    var v := WorldAfter(w, reading).value;
    var run := Concludable(v.jobs[job], a);
    InStream(v, entry, w);
    LiftRuns(v, job, entry, run);
    var lifted := LiftedAll(job, entry, run);
    var u := WorldAfter(v, lifted).value;
    Finishes(u, job, entry, a);
    WorldAfterAppend(w, reading, lifted);
    WorldAfterAppend(w, reading + lifted, [Finish(job, a)]);
    events := reading + lifted + [Finish(job, a)];
  }

  lemma Finishes(u: World, job: JobId, entry: nat, a: Attempt)
    requires job in u.jobs && a in u.jobs[job].attempts && Acknowledging(u.jobs[job], a)
    requires Serves(u, job, a, entry) && entry in u.broker.pending
    ensures WorldAfter(u, [Finish(job, a)]).Some?
    ensures entry in WorldAfter(u, [Finish(job, a)]).value.broker.acknowledged
  {
    assert [Finish(job, a)][1..] == [];
    var v := WorldNext(u, Finish(job, a)).value;
    assert WorldAfter(v, []) == Some(v);
  }
}
