/** Why runs of the job protocol end as they do: what an interrupted attempt may still do, which
    event fails a job and with which error, and which deliveries are acknowledged. */
module JobOutcomes {
  import opened Prelude
  import opened JobRepository
  import opened JobProtocol
  import opened JobSafety
  import opened JobRuns

  /** An event of the attempt's own. */
  predicate Acts(e: Event, a: Attempt) {
    !e.Tick? && !e.Delete? && !e.Cancel? && e.attempt == a
  }

  /** No other event moves an attempt or hides that it lost its lease. */
  lemma ForeignStep(s: System, e: Event, a: Attempt)
    requires Next(s, e).Some? && a in Next(s, e).value.attempts && !Acts(e, a)
    ensures a in s.attempts && Next(s, e).value.attempts[a] == s.attempts[a]
  {
    hide RequestOf, UpdateSql;
  }

  /* ---------------------------------------------------------------------------------------
     Interruption.
     --------------------------------------------------------------------------------------- */

  predicate Passing(e: Exception) {
    e.WorkerFailure? && e.transient
  }

  /** The attempt has left the job to a later one, or is gone. */
  predicate Yielded(s: System, a: Attempt) {
    && a in s.attempts
    && match s.attempts[a].pc
       case Raising(e) => Passing(e)
       case Finished(o) => o.Escaped? && Passing(o.exception)
       case Crashed => true
       case Settled => true
       case _ => false
  }

  /** The same row but for its lease. */
  predicate SameWork(before: Option<Row>, after: Option<Row>) {
    && (before.Some? <==> after.Some?)
    && (before.Some? ==>
          var lease := after.value.job;
          before.value.(job := before.value.job.(owner := lease.owner, expires := lease.expires)) == after.value)
  }

  /** A yielded attempt stays so; it asks for no update, of the row it touches nothing but the
      lease, and settling it acknowledges nothing. */
  lemma YieldedStep(s: System, e: Event, a: Attempt)
    requires Yielded(s, a) && Next(s, e).Some?
    ensures Yielded(Next(s, e).value, a)
    ensures forall report :: RequestOf(s.attempts[a], report).None?
    ensures s.attempts[a].leaseLost ==> Next(s, e).value.attempts[a].leaseLost
    ensures Acts(e, a) ==>
              && (e.Release? || e.Crash? || e.Settle? || (e.Renew? && !s.attempts[a].leaseLost))
              && SameWork(s.row, Next(s, e).value.row)
    ensures Acts(e, a) && e.Settle? && s.attempts[a].pc.Finished? ==>
              Next(s, e).value.acknowledged == s.acknowledged
  {
    NextStarted(s, e, a);
    if Acts(e, a) {
      YieldedActs(s, e, a);
    } else {
      ForeignStep(s, e, a);
      YieldedAsks(s, a);
      hide Next;
    }
  }

  lemma YieldedAsks(s: System, a: Attempt)
    requires Yielded(s, a)
    ensures forall report :: RequestOf(s.attempts[a], report).None?
  {
  }

  lemma YieldedActs(s: System, e: Event, a: Attempt)
    requires Yielded(s, a) && Next(s, e).Some? && Acts(e, a)
    ensures Yielded(Next(s, e).value, a)
    ensures forall report :: RequestOf(s.attempts[a], report).None?
    ensures s.attempts[a].leaseLost ==> Next(s, e).value.attempts[a].leaseLost
    ensures e.Release? || e.Crash? || e.Settle? || (e.Renew? && !s.attempts[a].leaseLost)
    ensures SameWork(s.row, Next(s, e).value.row)
    ensures e.Settle? && s.attempts[a].pc.Finished? ==> Next(s, e).value.acknowledged == s.acknowledged
  {
    hide UpdateSql, ClaimSql, FinalizeSql;
  }

  lemma {:induction false} YieldedRun(s: System, events: seq<Event>, a: Attempt)
    requires Yielded(s, a) && After(s, events).Some?
    ensures Yielded(After(s, events).value, a)
    ensures s.attempts[a].leaseLost ==> After(s, events).value.attempts[a].leaseLost
    ensures forall i :: 0 <= i < |events| && Acts(events[i], a) ==>
              events[i].Release? || events[i].Crash? || events[i].Settle? || (events[i].Renew? && !s.attempts[a].leaseLost)
    decreases |events|
  {
    if events != [] {
      YieldedStep(s, events[0], a);
      hide Yielded, Next;
      YieldedRun(Next(s, events[0]).value, events[1..], a);
      assert forall i :: 0 < i < |events| ==> events[i] == events[1..][i - 1];
    }
  }

  /** What a heartbeat does: while the attempt's lease is live and the statement runs, the lease is
      extended; and the attempt takes its lease for lost unless it hears so. */
  lemma HeartbeatMeans(clock: int, before: seq<Event>, a: Attempt, seconds: nat, db: Database)
    requires After(Initial(clock), before).Some?
    requires Next(After(Initial(clock), before).value, Renew(a, seconds, db)).Some?
    ensures var s := After(Initial(clock), before).value;
            var t := Next(s, Renew(a, seconds, db)).value;
            && a in s.attempts && a in t.attempts
            && (t.attempts[a].leaseLost <==> db != Ran || !Live(s, a))
            && SameWork(s.row, t.row)
            && (Live(s, a) && db != DidNotRun ==>
                  forall now: int :: LiveLease(t.row.value.job, a, now) <==> now < s.clock + 1000000 * seconds)
            && (!Live(s, a) || db == DidNotRun ==> t.row == s.row)
  {
    ReachableInv(clock, before);
    hide After, Passed, AttemptInv;
  }

  /** What linking an output does: while the attempt's lease is live, an asset was stored and the
      statement runs, the row gets that output and nothing else changes; and the handler goes on
      exactly when it hears so. */
  lemma LinkMeans(clock: int, before: seq<Event>, a: Attempt, asset: Option<AssetId>, db: Database)
    requires After(Initial(clock), before).Some?
    requires Next(After(Initial(clock), before).value, Link(a, asset, db)).Some?
    ensures var s := After(Initial(clock), before).value;
            var t := Next(s, Link(a, asset, db)).value;
            && a in s.attempts && a in t.attempts
            && t.row == (if Live(s, a) && asset.Some? && db != DidNotRun then Some(s.row.value.(output := asset)) else s.row)
            && (t.attempts[a].pc == Handling(3) <==> db == Ran && Live(s, a) && asset.Some?)
            && (t.attempts[a].pc != Handling(3) ==> t.attempts[a].pc == Raising(OtherException))
  {
    ReachableInv(clock, before);
    var s := After(Initial(clock), before).value;
    assert AttemptInv(s, a, s.attempts[a]);
    hide After, Passed, RowInv;
  }

  /** Where an attempt that has lost its lease can still get to: not past its present stage. */
  predicate WithinStage(from: Pc, to: Pc) {
    match to
    case Entering(i) => from == Entering(i)
    case Writing(i) => from == Writing(i)
    case Handling(i) => from == Writing(i) || from == Handling(i)
    case Leaving(i) => from == Writing(i) || from == Handling(i) || from == Leaving(i)
    case Completing => from == Completing
    case Raising(_) => true
    case Releasing => true
    case Finished(_) => true
    case Crashed => true
    case Settled => true
    case _ => false
  }

  /** Past its claim, and maybe over. */
  predicate UnderWay(pc: Pc) {
    Beating(pc) || pc.Finished? || pc.Crashed? || pc.Settled?
  }

  lemma WithinStages(x: Pc, y: Pc, z: Pc)
    requires WithinStage(x, y) && WithinStage(y, z)
    ensures WithinStage(x, z)
  {
  }

  lemma LostWrites(s: System, a: Attempt, report: nat, db: Database)
    requires WriteStep(s, a, report, db).Some? && UnderWay(s.attempts[a].pc)
    ensures var t := WriteStep(s, a, report, db).value;
            && t.attempts[a].leaseLost == s.attempts[a].leaseLost && UnderWay(t.attempts[a].pc)
            && WithinStage(s.attempts[a].pc, t.attempts[a].pc)
  {
    WriteMoves(s, a, report, db);
    hide Updated;
  }

  lemma LostActs(s: System, e: Event, a: Attempt)
    requires Next(s, e).Some? && Acts(e, a) && !e.Write? && a in s.attempts && s.attempts[a].leaseLost
    requires UnderWay(s.attempts[a].pc)
    ensures var t := Next(s, e).value;
            && a in t.attempts && t.attempts[a].leaseLost && UnderWay(t.attempts[a].pc)
            && WithinStage(s.attempts[a].pc, t.attempts[a].pc)
  {
    hide RequestOf, UpdateSql, ClaimSql;
  }

  lemma LostStep(s: System, e: Event, a: Attempt)
    requires Next(s, e).Some? && a in s.attempts && s.attempts[a].leaseLost && UnderWay(s.attempts[a].pc)
    ensures var t := Next(s, e).value;
            && a in t.attempts && t.attempts[a].leaseLost && UnderWay(t.attempts[a].pc)
            && WithinStage(s.attempts[a].pc, t.attempts[a].pc)
  {
    NextStarted(s, e, a);
    if !Acts(e, a) {
      ForeignStep(s, e, a);
    } else if e.Write? {
      LostWrites(s, a, e.report, e.db);
    } else {
      LostActs(s, e, a);
    }
    hide WriteStep, EnterStep, ProceedStep, RequestOf;
  }

  /** An attempt that has lost its lease never gets past its present stage again: it enters no
      other, and completes the job only if it already was to. */
  lemma {:induction false} LostEntersNothing(s: System, events: seq<Event>, a: Attempt)
    requires After(s, events).Some? && a in s.attempts && s.attempts[a].leaseLost && UnderWay(s.attempts[a].pc)
    ensures var t := After(s, events).value;
            && a in t.attempts && t.attempts[a].leaseLost && WithinStage(s.attempts[a].pc, t.attempts[a].pc)
    decreases |events|
  {
    if events == [] {
    } else {
      LostStep(s, events[0], a);
      hide Next, UnderWay;
      var t := Next(s, events[0]).value;
      LostEntersNothing(t, events[1..], a);
      WithinStages(s.attempts[a].pc, t.attempts[a].pc, After(s, events).value.attempts[a].pc);
    }
  }

  /** The lease check of an attempt at the top or the end of a stage. */
  function LeaseCheck(pc: Pc, a: Attempt): Event {
    if pc.Entering? then Enter(a) else Proceed(a)
  }

  /** About to check a lease that its heartbeat has found lost. */
  predicate Interrupted(s: System, a: Attempt) {
    a in s.attempts && s.attempts[a].leaseLost && (s.attempts[a].pc.Entering? || s.attempts[a].pc.Leaving?)
  }

  /** The check leaves the job and its delivery as they are, and the attempt yields. */
  lemma InterruptedChecks(s: System, a: Attempt)
    requires Interrupted(s, a)
    ensures Next(s, LeaseCheck(s.attempts[a].pc, a)).Some?
    ensures var t := Next(s, LeaseCheck(s.attempts[a].pc, a)).value;
            && Yielded(t, a) && t.attempts[a].leaseLost && t.attempts[a].pc.Raising?
            && t.row == s.row && t.acknowledged == s.acknowledged
  {
  }

  lemma YieldedSettles(s: System, a: Attempt)
    requires Yielded(s, a)
    ensures forall report :: RequestOf(s.attempts[a], report).None?
    ensures Next(s, Settle(a)).Some? ==> Next(s, Settle(a)).value.acknowledged == s.acknowledged
  {
  }

  /** A heartbeat that failed interrupts the attempt without failing the job: from any reachable
      state in which the attempt is about to check its lease and has lost it, the check leaves
      the row as it is, and from then on, whatever else happens, the attempt asks for no update,
      only releases its lease, crashes or settles, and settling acknowledges nothing. */
  lemma InterruptedYields(clock: int, before: seq<Event>, a: Attempt, more: seq<Event>)
    requires After(Initial(clock), before).Some? && Interrupted(After(Initial(clock), before).value, a)
    ensures var s := After(Initial(clock), before).value;
            var checked := Next(s, LeaseCheck(s.attempts[a].pc, a));
            && checked.Some? && checked.value.row == s.row && checked.value.acknowledged == s.acknowledged
            && (After(checked.value, more).Some? ==>
                  var u := After(checked.value, more).value;
                  && a in u.attempts
                  && (forall report :: RequestOf(u.attempts[a], report).None?)
                  && (forall i :: 0 <= i < |more| && Acts(more[i], a) ==>
                        more[i].Release? || more[i].Crash? || more[i].Settle?)
                  && (Next(u, Settle(a)).Some? ==> Next(u, Settle(a)).value.acknowledged == u.acknowledged))
  {
    var s := After(Initial(clock), before).value;
    InterruptedChecks(s, a);
    var t := Next(s, LeaseCheck(s.attempts[a].pc, a)).value;
    hide Next, RequestOf, Initial, LeaseCheck;
    if After(t, more).Some? {
      YieldedRun(t, more, a);
      YieldedSettles(After(t, more).value, a);
    }
  }

  lemma TransientRaised(s: System, a: Attempt, error: JobError)
    requires Next(s, Raise(a, WorkerFailure(true, error))).Some?
    ensures var t := Next(s, Raise(a, WorkerFailure(true, error))).value;
            Yielded(t, a) && t.row == s.row && t.acknowledged == s.acknowledged
  {
  }

  /** A transient failure of a handler is no verdict either: whatever follows, the attempt asks
      for no update, and settling it acknowledges nothing. */
  lemma TransientYields(clock: int, before: seq<Event>, a: Attempt, error: JobError, more: seq<Event>)
    requires After(Initial(clock), before).Some?
    requires Next(After(Initial(clock), before).value, Raise(a, WorkerFailure(true, error))).Some?
    ensures var s := After(Initial(clock), before).value;
            var t := Next(s, Raise(a, WorkerFailure(true, error))).value;
            && t.row == s.row && t.acknowledged == s.acknowledged
            && (After(t, more).Some? ==>
                  var u := After(t, more).value;
                  && a in u.attempts
                  && (forall report :: RequestOf(u.attempts[a], report).None?)
                  && (forall i :: 0 <= i < |more| && Acts(more[i], a) ==>
                        more[i].Release? || more[i].Crash? || more[i].Settle? || more[i].Renew?)
                  && (Next(u, Settle(a)).Some? ==> Next(u, Settle(a)).value.acknowledged == u.acknowledged))
  {
    var s := After(Initial(clock), before).value;
    var t := Next(s, Raise(a, WorkerFailure(true, error))).value;
    TransientRaised(s, a, error);
    hide Next, RequestOf, Initial, Yielded;
    if After(t, more).Some? {
      YieldedRun(t, more, a);
      YieldedSettles(After(t, more).value, a);
    }
  }

  lemma YieldedReleases(s: System, a: Attempt, db: Database)
    requires Yielded(s, a) && s.attempts[a].pc.Raising? && RowInv(s)
    ensures Next(s, Event.Release(a, db)).Some?
    ensures var t := Next(s, Event.Release(a, db)).value;
            && Yielded(t, a) && t.attempts[a].pc.Finished? && Next(t, Settle(a)).Some? && t.acknowledged == s.acknowledged
            && (t.row.Some? && db != DidNotRun ==> t.row.value.job.owner != Some(a))
            && SameWork(s.row, t.row)
  {
    hide Passed;
  }

  /** The release an interrupted attempt owes is possible at once, and once its statement runs
      the lease is no longer the attempt's and the delivery is left pending. */
  lemma InterruptedReleases(clock: int, before: seq<Event>, a: Attempt, db: Database)
    requires After(Initial(clock), before).Some? && Interrupted(After(Initial(clock), before).value, a)
    ensures var s := After(Initial(clock), before).value;
            var released := After(s, [LeaseCheck(s.attempts[a].pc, a), Event.Release(a, db)]);
            && released.Some?
            && (released.value.row.Some? && db != DidNotRun ==> released.value.row.value.job.owner != Some(a))
            && SameWork(s.row, released.value.row)
            && Next(released.value, Settle(a)).Some?
            && Next(released.value, Settle(a)).value.acknowledged == s.acknowledged
  {
    ReachableInv(clock, before);
    var s := After(Initial(clock), before).value;
    InterruptedChecks(s, a);
    var check, release := LeaseCheck(s.attempts[a].pc, a), Event.Release(a, db);
    var t := Next(s, check).value;
    NextKeeps(s, check);
    assert [check, release] == [check] + [release];
    hide Next, RequestOf, Initial, LeaseCheck, Passed, AttemptInv, RowInv;
    YieldedReleases(t, a, db);
    YieldedSettles(Next(t, release).value, a);
    AfterOne(s, check);
    AfterOne(t, release);
    AfterAppend(s, [check], [release]);
  }

  lemma UnstoredWrites(s: System, a: Attempt, report: nat, db: Database)
    requires a in s.attempts && s.attempts[a].pc == Raising(OtherException)
    requires Unheard(s, Write(a, report, db), a)
    ensures Next(s, Write(a, report, db)).Some?
    ensures var t := Next(s, Write(a, report, db)).value;
            a in t.attempts && t.attempts[a].pc == Releasing && t.acknowledged == s.acknowledged
  {
    hide UpdateSql, Fail;
  }

  lemma ReleasingEnds(t: System, a: Attempt, db: Database)
    requires a in t.attempts && t.attempts[a].pc == Releasing
    ensures Next(t, Event.Release(a, db)).Some?
    ensures var u := Next(t, Event.Release(a, db)).value;
            && (u.row.Some? && db != DidNotRun && !Terminal(u.row.value.job.state) ==> u.row.value.job.owner != Some(a))
            && Next(u, Settle(a)).Some? && Next(u, Settle(a)).value.acknowledged == t.acknowledged
  {
  }

  /** An exception that could not be stored as a failure leaves the job to a later attempt: the
      release is possible next, an open job is then no longer the attempt's, and the delivery is
      left pending. */
  lemma UnstoredReleases(clock: int, before: seq<Event>, a: Attempt, report: nat, db: Database, release: Database)
    requires After(Initial(clock), before).Some?
    requires var s := After(Initial(clock), before).value;
             a in s.attempts && s.attempts[a].pc == Raising(OtherException) && Unheard(s, Write(a, report, db), a)
    ensures var s := After(Initial(clock), before).value;
            var released := After(s, [Write(a, report, db), Event.Release(a, release)]);
            && released.Some?
            && (released.value.row.Some? && release != DidNotRun && !Terminal(released.value.row.value.job.state) ==>
                  released.value.row.value.job.owner != Some(a))
            && Next(released.value, Settle(a)).Some?
            && Next(released.value, Settle(a)).value.acknowledged == s.acknowledged
  {
    ReachableInv(clock, before);
    var s := After(Initial(clock), before).value;
    hide Initial, Inv;
    UnstoredWrites(s, a, report, db);
    hide Next, Unheard;
    ReleasingEnds(Next(s, Write(a, report, db)).value, a, release);
    var write, free := Write(a, report, db), Event.Release(a, release);
    assert [write, free] == [write] + [free];
    AfterOne(s, write);
    AfterOne(Next(s, write).value, free);
    AfterAppend(s, [write], [free]);
  }

  /* ---------------------------------------------------------------------------------------
     Failure.
     --------------------------------------------------------------------------------------- */

  /** The caller hears of no updated row. */
  predicate Unheard(s: System, e: Event, a: Attempt)
    requires e.Write? || e.Link?
  {
    e.db != Ran || ChangeOf(s, e).None?
  }

  function InternalError(): JobError {
    JobError("internal", "Processing could not be completed.")
  }

  function ModelError(): JobError {
    JobError("model_unavailable", "This job requires a different model version than this worker provides.")
  }

  /** The error an event decides that a job is to fail with: the mismatch of its model, the
      terminal failure or the other exception a handler or the loop body raises, or a stage's own
      statement that raises. Nothing else decides it. */
  function Blame(s: System, e: Event, a: Attempt): Option<JobError> {
    if a !in s.attempts then None
    else
      match e
      case Begin(b, mismatch) => if b == a && mismatch then Some(ModelError()) else None
      case Raise(b, WorkerFailure(false, error)) => if b == a then Some(error) else None
      case Raise(b, OtherException) => if b == a then Some(InternalError()) else None
      case Write(b, _, _) =>
        if b != a then None
        else if s.attempts[a].pc == Starting then Some(ModelError())
        else if (s.attempts[a].pc.Writing? || s.attempts[a].pc == Completing) && Unheard(s, e, a) then Some(InternalError())
        else None
      case Link(b, _, _) => if b == a && Unheard(s, e, a) then Some(InternalError()) else None
      case _ => None
  }

  /** The error an attempt is to fail the job with. */
  function Failing(pc: Pc): Option<JobError> {
    match pc
    case Mismatched => Some(ModelError())
    case Raising(WorkerFailure(false, error)) => Some(error)
    case Raising(OtherException) => Some(InternalError())
    case _ => None
  }

  lemma BlameStep(s: System, e: Event, a: Attempt)
    requires Inv(s) && Next(s, e).Some? && a in Next(s, e).value.attempts
    requires Failing(Next(s, e).value.attempts[a].pc).Some?
    ensures a in s.attempts
    ensures Failing(s.attempts[a].pc) == Failing(Next(s, e).value.attempts[a].pc)
         || Blame(s, e, a) == Failing(Next(s, e).value.attempts[a].pc)
  {
    if !Acts(e, a) {
      ForeignStep(s, e, a);
      hide Next, Blame, Inv;
    } else if e.Write? {
      BlameWrite(s, a, e.report, e.db);
      hide Inv, Blame;
    } else {
      BlameActs(s, e, a);
    }
  }

  lemma BlameWrite(s: System, a: Attempt, report: nat, db: Database)
    requires Inv(s) && WriteStep(s, a, report, db).Some?
    requires Failing(WriteStep(s, a, report, db).value.attempts[a].pc).Some?
    ensures Blame(s, Write(a, report, db), a) == Failing(WriteStep(s, a, report, db).value.attempts[a].pc)
  {
    var st := s.attempts[a];
    var q := RequestOf(st, report).value;
    assert AttemptInv(s, a, st);
    WriteMoves(s, a, report, db);
    if q.record.Failure? {
      OwnTransition(s, a, st, report);
    }
    hide Inv, AttemptInv, Passed, UpdateSql, WriteStep, InternalError, ModelError;
  }

  /** Where an update leaves its attempt. */
  lemma WriteMoves(s: System, a: Attempt, report: nat, db: Database)
    requires WriteStep(s, a, report, db).Some?
    ensures a in s.attempts && RequestOf(s.attempts[a], report).Some?
    ensures var q := RequestOf(s.attempts[a], report).value;
            WriteStep(s, a, report, db).value.attempts[a].pc
            == if q.record.Success? && Heard(Updated(s, q.record.value), db) then q.accepted else q.refused
  {
    hide RequestOf, Updated;
  }

  lemma OwnTransition(s: System, a: Attempt, st: AttemptState, report: nat)
    requires AttemptInv(s, a, st) && RequestOf(st, report).Some? && RequestOf(st, report).value.record.Failure?
    ensures st.pc.Raising?
  {
    hide Passed;
  }

  lemma BlameActs(s: System, e: Event, a: Attempt)
    requires Inv(s) && Next(s, e).Some? && Acts(e, a) && !e.Write?
    requires a in Next(s, e).value.attempts && Failing(Next(s, e).value.attempts[a].pc).Some?
    ensures a in s.attempts
    ensures Failing(s.attempts[a].pc) == Failing(Next(s, e).value.attempts[a].pc)
         || Blame(s, e, a) == Failing(Next(s, e).value.attempts[a].pc)
  {
    if e.Begin? {
      BlameBegin(s, a, e.mismatch);
      hide Next, Inv, Blame;
    } else if e.Link? {
      BlameLink(s, a, e.asset, e.db);
      hide Next, Inv, Blame;
    } else {
      hide Inv, RequestOf, BeginStep, LinkStep, UpdateSql, ClaimSql, InternalError, ModelError;
    }
  }

  lemma BlameBegin(s: System, a: Attempt, mismatch: bool)
    requires Inv(s) && BeginStep(s, a, mismatch).Some?
    requires Failing(BeginStep(s, a, mismatch).value.attempts[a].pc).Some?
    ensures Next(s, Begin(a, mismatch)) == BeginStep(s, a, mismatch)
    ensures Blame(s, Begin(a, mismatch), a) == Failing(BeginStep(s, a, mismatch).value.attempts[a].pc)
  {
    assert AttemptInv(s, a, s.attempts[a]);
    hide Inv, Passed, InternalError, ModelError;
  }

  lemma BlameLink(s: System, a: Attempt, asset: Option<AssetId>, db: Database)
    requires LinkStep(s, a, asset, db).Some?
    requires Failing(LinkStep(s, a, asset, db).value.attempts[a].pc).Some?
    ensures Next(s, Link(a, asset, db)) == LinkStep(s, a, asset, db)
    ensures Blame(s, Link(a, asset, db), a) == Failing(LinkStep(s, a, asset, db).value.attempts[a].pc)
  {
    hide FinalizeSql, InternalError, ModelError;
  }

  predicate FailedWith(row: Option<Row>, error: JobError) {
    row.Some? && row.value.job.state == Failed && row.value.job.error == Some(error)
  }

  /** Only a failing attempt's update fails the job, and with that attempt's error. */
  lemma FailStep(s: System, e: Event)
    requires Inv(s) && Next(s, e).Some?
    requires Next(s, e).value.row.Some? && Next(s, e).value.row.value.job.state == Failed
    ensures Next(s, e).value.row == s.row
         || (&& e.Write? && e.attempt in s.attempts && Failing(s.attempts[e.attempt].pc).Some?
             && FailedWith(Next(s, e).value.row, Failing(s.attempts[e.attempt].pc).value)
             && Next(s, e).value.row.value.job.report == Some(e.report))
  {
    hide Passed;
    if e.Write? {
      assert AttemptInv(s, e.attempt, s.attempts[e.attempt]);
    }
  }

  /** An event of a run that decides an attempt is to fail the job. */
  predicate BlamedAt(clock: int, events: seq<Event>, k: nat, a: Attempt, error: JobError) {
    && k < |events| && After(Initial(clock), events[..k]).Some?
    && Blame(After(Initial(clock), events[..k]).value, events[k], a) == Some(error)
  }

  ghost predicate Blamed(clock: int, events: seq<Event>, a: Attempt, error: JobError) {
    exists k: nat :: BlamedAt(clock, events, k, a, error)
  }

  /** An event of the run decides that an attempt is to fail the job with the error. */
  ghost predicate FailedForError(clock: int, events: seq<Event>, error: JobError) {
    exists a: Attempt, k: nat :: BlamedAt(clock, events, k, a, error)
  }

  lemma BlamedFor(clock: int, events: seq<Event>, a: Attempt, error: JobError)
    requires Blamed(clock, events, a, error)
    ensures FailedForError(clock, events, error)
  {
    var k: nat :| BlamedAt(clock, events, k, a, error);
  }

  lemma ErrorBefore(clock: int, init: seq<Event>, e: Event, error: JobError)
    requires FailedForError(clock, init, error)
    ensures FailedForError(clock, init + [e], error)
  {
    hide BlamedAt;
    var a: Attempt, k: nat :| BlamedAt(clock, init, k, a, error);
    BlamedBefore(clock, init, e, a, error);
    BlamedFor(clock, init + [e], a, error);
  }

  lemma BlamedBefore(clock: int, init: seq<Event>, e: Event, a: Attempt, error: JobError)
    requires Blamed(clock, init, a, error)
    ensures Blamed(clock, init + [e], a, error)
  {
    var k: nat :| BlamedAt(clock, init, k, a, error);
    assert (init + [e])[..k] == init[..k];
    assert BlamedAt(clock, init + [e], k, a, error);
  }

  lemma BlamedNow(clock: int, init: seq<Event>, e: Event, a: Attempt, error: JobError)
    requires After(Initial(clock), init).Some? && Blame(After(Initial(clock), init).value, e, a) == Some(error)
    ensures Blamed(clock, init + [e], a, error)
  {
    assert (init + [e])[..|init|] == init;
    assert BlamedAt(clock, init + [e], |init|, a, error);
  }

  /** The run without its last event, and the step of that event. */
  lemma LastStep(clock: int, events: seq<Event>)
    requires events != [] && After(Initial(clock), events).Some?
    ensures var init, e := events[..|events| - 1], events[|events| - 1];
            && events == init + [e] && After(Initial(clock), init).Some? && Inv(After(Initial(clock), init).value)
            && Next(After(Initial(clock), init).value, e) == After(Initial(clock), events)
  {
    hide Next, Inv;
    var n := |events| - 1;
    Midway(clock, events, n);
    AfterSplits(Initial(clock), events, n);
    AfterOne(After(Initial(clock), events[..n]).value, events[n]);
    assert events[n..] == [events[n]];
  }

  ghost predicate FailuresExplained(clock: int, events: seq<Event>)
    requires After(Initial(clock), events).Some?
  {
    var s := After(Initial(clock), events).value;
    && (forall a :: a in s.attempts && Failing(s.attempts[a].pc).Some? ==>
          Blamed(clock, events, a, Failing(s.attempts[a].pc).value))
    && (s.row.Some? && s.row.value.job.state == Failed ==>
          && s.row.value.job.error.Some? && s.row.value.job.report.Some?
          && FailedForError(clock, events, s.row.value.job.error.value))
  }

  lemma ExplainedStep(clock: int, init: seq<Event>, e: Event)
    requires After(Initial(clock), init).Some? && Inv(After(Initial(clock), init).value)
    requires After(Initial(clock), init + [e]).Some?
    requires Next(After(Initial(clock), init).value, e) == After(Initial(clock), init + [e])
    requires FailuresExplained(clock, init)
    ensures FailuresExplained(clock, init + [e])
  {
    var s, t := After(Initial(clock), init).value, After(Initial(clock), init + [e]).value;
    hide Inv, Next, Blame, Blamed, FailedForError, Failing, After;
    forall a | a in t.attempts && Failing(t.attempts[a].pc).Some?
      ensures Blamed(clock, init + [e], a, Failing(t.attempts[a].pc).value)
    {
      BlameStep(s, e, a);
      var error := Failing(t.attempts[a].pc).value;
      if Blame(s, e, a) == Some(error) {
        BlamedNow(clock, init, e, a, error);
      } else {
        BlamedBefore(clock, init, e, a, error);
      }
    }
    if t.row.Some? && t.row.value.job.state == Failed {
      FailStep(s, e);
      var error := t.row.value.job.error.value;
      if t.row == s.row {
        ErrorBefore(clock, init, e, error);
      } else {
        BlamedBefore(clock, init, e, e.attempt, error);
        BlamedFor(clock, init + [e], e.attempt, error);
      }
    }
  }

  lemma {:induction false} RunExplained(clock: int, events: seq<Event>)
    requires After(Initial(clock), events).Some?
    ensures FailuresExplained(clock, events)
    decreases |events|
  {
    if events != [] {
      LastStep(clock, events);
      hide FailuresExplained, After, Next, Inv;
      RunExplained(clock, events[..|events| - 1]);
      ExplainedStep(clock, events[..|events| - 1], events[|events| - 1]);
    }
  }

  /** A job only ever fails for a reason: in every run a failed row has a report and the error
      that some event of the run decided on. A failed heartbeat, a lease check, a release and a
      transient failure decide on none. */
  lemma FailedForReason(clock: int, events: seq<Event>)
    requires After(Initial(clock), events).Some?
    requires var s := After(Initial(clock), events).value; s.row.Some? && s.row.value.job.state == Failed
    ensures var j := After(Initial(clock), events).value.row.value.job;
            && j.error.Some? && j.report.Some?
            && FailedForError(clock, events, j.error.value)
  {
    hide After, BlamedAt, FailedForError;
    RunExplained(clock, events);
  }

  /* ---------------------------------------------------------------------------------------
     Acknowledgement.
     --------------------------------------------------------------------------------------- */

  /** The event that concludes an attempt: its own terminal update is accepted and heard, or its
      claim found nothing to claim and the row turns out missing or terminal. */
  predicate Concludes(s: System, e: Event, a: Attempt) {
    && Next(s, e).Some? && Acts(e, a)
    && ((&& e.Write? && e.db == Ran && ChangeOf(s, e).Some? && Terminal(ChangeOf(s, e).value.job.state))
        || (e.LookUp? && e.db == Ran && Closed(s)))
  }

  /** What settling an attempt does to its own delivery. */
  predicate Acknowledging(s: System, a: Attempt) {
    a in s.attempts && s.attempts[a].pc.Finished? && Handled(s.attempts[a].pc.outcome) == ACK
  }

  lemma WriteConcludes(s: System, a: Attempt, report: nat, db: Database)
    requires Inv(s) && WriteStep(s, a, report, db).Some?
    ensures Acknowledging(WriteStep(s, a, report, db).value, a) <==> Concludes(s, Write(a, report, db), a)
    ensures !s.attempts[a].pc.Finished?
  {
    var st := s.attempts[a];
    var q := RequestOf(st, report).value;
    assert AttemptInv(s, a, st);
    if q.record.Success? {
      RequestLegal(s, a, st, report);
      UpdatedState(s, q.record.value);
    }
    hide Inv, AttemptInv, Passed, UpdateSql, Updated;
  }

  lemma UpdatedState(s: System, record: JobRecord)
    ensures Updated(s, record).Some? ==> Updated(s, record).value.job.state == record.state
  {
  }

  /** The other events of an attempt's own, but for the lookup, conclude nothing. */
  lemma OtherConcludes(s: System, e: Event, a: Attempt)
    requires Inv(s) && Next(s, e).Some? && a in Next(s, e).value.attempts && Acts(e, a) && !e.Write?
    ensures Acknowledging(Next(s, e).value, a) ==> Concludes(s, e, a) || Acknowledging(s, a)
    ensures Concludes(s, e, a) ==> Acknowledging(Next(s, e).value, a)
    ensures Acknowledging(s, a) ==> Next(s, e).value.attempts[a].pc in {Crashed, Settled}
  {
    hide Inv, Passed, RequestOf, UpdateSql;
  }

  /** An attempt is to be acknowledged once it concludes and not before. */
  lemma AcknowledgingStep(s: System, e: Event, a: Attempt)
    requires Inv(s) && Next(s, e).Some? && a in Next(s, e).value.attempts
    ensures Concludes(s, e, a) ==> Acknowledging(Next(s, e).value, a)
    ensures Acknowledging(Next(s, e).value, a) ==> Concludes(s, e, a) || Acknowledging(s, a)
    ensures Acknowledging(s, a) ==>
              Acknowledging(Next(s, e).value, a) || Next(s, e).value.attempts[a].pc in {Crashed, Settled}
  {
    if !Acts(e, a) {
      ForeignStep(s, e, a);
    } else if e.Write? {
      WriteConcludes(s, a, e.report, e.db);
    } else {
      OtherConcludes(s, e, a);
    }
    hide Inv, Next, RequestOf, ChangeOf;
  }

  /** Event `k` of a run concludes attempt `a`. */
  predicate ConcludedAt(clock: int, events: seq<Event>, k: nat, a: Attempt) {
    && k < |events| && After(Initial(clock), events[..k]).Some?
    && Concludes(After(Initial(clock), events[..k]).value, events[k], a)
  }

  ghost predicate Concluded(clock: int, events: seq<Event>, a: Attempt) {
    exists k: nat :: ConcludedAt(clock, events, k, a)
  }

  lemma ConcludedGrows(clock: int, init: seq<Event>, e: Event, a: Attempt)
    requires After(Initial(clock), init).Some?
    ensures Concluded(clock, init + [e], a)
       <==> Concluded(clock, init, a) || Concludes(After(Initial(clock), init).value, e, a)
  {
    hide Concludes, After;
    var events := init + [e];
    forall k: nat | k <= |init| ensures events[..k] == init[..k] {
    }
    assert init[..|init|] == init;
    if Concluded(clock, events, a) {
      var k: nat :| ConcludedAt(clock, events, k, a);
      assert k < |init| ==> ConcludedAt(clock, init, k, a);
    }
    if Concluded(clock, init, a) {
      var k: nat :| ConcludedAt(clock, init, k, a);
      assert ConcludedAt(clock, events, k, a);
    }
    if Concludes(After(Initial(clock), init).value, e, a) {
      assert ConcludedAt(clock, events, |init|, a);
    }
  }

  /** Attempts that are to be acknowledged are those that concluded and are still there. */
  ghost predicate ConclusionsKept(clock: int, events: seq<Event>, a: Attempt)
    requires After(Initial(clock), events).Some?
  {
    var s := After(Initial(clock), events).value;
    && (Acknowledging(s, a) ==> Concluded(clock, events, a))
    && (Concluded(clock, events, a) ==>
          Acknowledging(s, a) || (a in s.attempts && s.attempts[a].pc in {Crashed, Settled}))
  }

  lemma GoneStays(s: System, e: Event, a: Attempt)
    requires Next(s, e).Some? && a in s.attempts && s.attempts[a].pc in {Crashed, Settled}
    ensures a in Next(s, e).value.attempts && Next(s, e).value.attempts[a].pc in {Crashed, Settled}
  {
    hide UpdateSql, ClaimSql;
  }

  lemma ConcludesActs(s: System, e: Event, a: Attempt)
    requires Concludes(s, e, a)
    ensures a in Next(s, e).value.attempts
  {
  }

  lemma ConclusionStep(clock: int, init: seq<Event>, e: Event, a: Attempt)
    requires After(Initial(clock), init).Some? && Inv(After(Initial(clock), init).value)
    requires After(Initial(clock), init + [e]).Some?
    requires Next(After(Initial(clock), init).value, e) == After(Initial(clock), init + [e])
    requires ConclusionsKept(clock, init, a)
    ensures ConclusionsKept(clock, init + [e], a)
  {
    var s, t := After(Initial(clock), init).value, After(Initial(clock), init + [e]).value;
    ConcludedGrows(clock, init, e, a);
    hide Concluded, Inv, Next, After;
    if Concludes(s, e, a) {
      ConcludesActs(s, e, a);
    }
    hide Concludes;
    if a in s.attempts {
      NextStarted(s, e, a);
      if s.attempts[a].pc in {Crashed, Settled} {
        GoneStays(s, e, a);
      }
    }
    if a in t.attempts {
      AcknowledgingStep(s, e, a);
    }
    hide Handled;
  }

  lemma {:induction false} ConclusionRun(clock: int, events: seq<Event>, a: Attempt)
    requires After(Initial(clock), events).Some?
    ensures ConclusionsKept(clock, events, a)
    decreases |events|
  {
    if events == [] {
      assert !Concluded(clock, events, a);
    } else {
      LastStep(clock, events);
      hide ConclusionsKept, After, Next, Inv;
      ConclusionRun(clock, events[..|events| - 1], a);
      ConclusionStep(clock, events[..|events| - 1], events[|events| - 1], a);
    }
  }

  /** Settling a finished attempt acknowledges its delivery exactly when the attempt concluded:
      its own terminal update was accepted and heard, or it found the row missing or terminal. */
  lemma SettledAsConcluded(clock: int, events: seq<Event>, a: Attempt)
    requires After(Initial(clock), events).Some? && Next(After(Initial(clock), events).value, Settle(a)).Some?
    ensures var s := After(Initial(clock), events).value;
            Next(s, Settle(a)).value.acknowledged <==> s.acknowledged || Concluded(clock, events, a)
  {
    hide After, Concluded;
    ConclusionRun(clock, events, a);
  }

  /** An attempt settled after it concluded. */
  ghost predicate SettledConcluded(clock: int, events: seq<Event>, a: Attempt) {
    exists j: nat :: SettledAt(clock, events, j, a)
  }

  ghost predicate SettledAt(clock: int, events: seq<Event>, j: nat, a: Attempt) {
    j < |events| && events[j] == Settle(a) && Concluded(clock, events[..j], a)
  }

  lemma AcknowledgedStep(s: System, e: Event)
    requires Next(s, e).Some? && !e.Settle?
    ensures Next(s, e).value.acknowledged == s.acknowledged
  {
    hide UpdateSql, ClaimSql;
  }

  lemma SettledGrows(clock: int, init: seq<Event>, e: Event)
    ensures (exists a :: SettledConcluded(clock, init + [e], a))
       <==> (exists a :: SettledConcluded(clock, init, a)) || (e.Settle? && Concluded(clock, init, e.attempt))
  {
    hide Concluded;
    var events := init + [e];
    forall j: nat | j <= |init| ensures events[..j] == init[..j] {
    }
    assert init[..|init|] == init;
    if a :| SettledConcluded(clock, events, a) {
      var j: nat :| SettledAt(clock, events, j, a);
      if j < |init| {
        assert SettledAt(clock, init, j, a) && SettledConcluded(clock, init, a);
      }
    }
    if a :| SettledConcluded(clock, init, a) {
      var j: nat :| SettledAt(clock, init, j, a);
      assert SettledAt(clock, events, j, a) && SettledConcluded(clock, events, a);
    }
    if e.Settle? && Concluded(clock, init, e.attempt) {
      assert SettledAt(clock, events, |init|, e.attempt) && SettledConcluded(clock, events, e.attempt);
    }
  }

  /** The job's deliveries are acknowledged exactly when some attempt concluded and was settled
      after that. */
  lemma {:induction false} AcknowledgedExactly(clock: int, events: seq<Event>)
    requires After(Initial(clock), events).Some?
    ensures After(Initial(clock), events).value.acknowledged <==> exists a :: SettledConcluded(clock, events, a)
    decreases |events|
  {
    if events != [] {
      var init, e := events[..|events| - 1], events[|events| - 1];
      LastStep(clock, events);
      hide After, Next, Inv, Concluded, SettledConcluded;
      AcknowledgedExactly(clock, init);
      SettledGrows(clock, init, e);
      if e.Settle? {
        SettledAsConcluded(clock, init, e.attempt);
      } else {
        AcknowledgedStep(After(Initial(clock), init).value, e);
      }
    }
  }
}
