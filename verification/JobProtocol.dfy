/**
 One job under any number of deliveries: every statement on its row is one atomic step, and
 between them attempts run the stage loop, lose their leases, crash, and are acknowledged or
 left pending. Runs are sequences of events.
 */
module JobProtocol {
  import opened Prelude
  import opened JobRepository

  /* ---------------------------------------------------------------------------------------
     State.
     --------------------------------------------------------------------------------------- */

  /** What a failing call or handler raises. */
  datatype Exception = WorkerFailure(transient: bool, error: JobError) | OtherException

  const INTERRUPTED := WorkerFailure(true, JobError("database_unavailable", "Processing was temporarily interrupted."))
  const MODEL_UNAVAILABLE := JobError("model_unavailable", "This job requires a different model version than this worker provides.")
  const INTERNAL := JobError("internal", "Processing could not be completed.")

  /** How an attempt ends for its delivery. */
  datatype Outcome = ReturnedAck | ReturnedFalse | ReturnedTrue | Escaped(exception: Exception)

  /** Where an attempt is. Stage numbers index the stage table. */
  datatype Pc =
    | Looking
    | Starting
    | Mismatched
    | Entering(stage: nat)
    | Writing(stage: nat)
    | Handling(stage: nat)
    | Leaving(stage: nat)
    | Completing
    | Raising(exception: Exception)
    | Releasing
    | Finished(outcome: Outcome)
    | Crashed
    | Settled

  /** One attempt: its copy of the job, whether its heartbeat failed, and whether the present
      upload has linked its output. */
  datatype AttemptState = AttemptState(pc: Pc, copy: JobRecord, leaseLost: bool, linked: bool)

  /** The job, the attempts so far, the stages whose handlers returned normally in order of
      return, and whether the delivery was acknowledged. */
  datatype System = System(
    clock: int, row: Option<Row>, attempts: map<Attempt, AttemptState>, returned: seq<State>, acknowledged: bool)

  /** What a statement does: runs, runs and commits but reports an error, or does not run. */
  datatype Database = Ran | RanButRaised | DidNotRun

  datatype Event =
    | Tick(clock: int)
    | Delete
    | Cancel
    | Claim(attempt: Attempt, seconds: nat, db: Database)
    | LookUp(attempt: Attempt, db: Database)
    | Begin(attempt: Attempt, mismatch: bool)
    | Enter(attempt: Attempt)
    | Write(attempt: Attempt, report: nat, db: Database)
    | Link(attempt: Attempt, asset: Option<AssetId>, db: Database)
    | Return(attempt: Attempt)
    | Raise(attempt: Attempt, exception: Exception)
    | Proceed(attempt: Attempt)
    | Renew(attempt: Attempt, seconds: nat, db: Database)
    | Release(attempt: Attempt, db: Database)
    | Crash(attempt: Attempt)
    | Settle(attempt: Attempt)

  /* ---------------------------------------------------------------------------------------
     The stage table.
     --------------------------------------------------------------------------------------- */

  const STAGES: nat := 4

  function StageState(i: nat): State {
    if i == 0 then Validating else if i == 1 then Analyzing else if i == 2 then Rendering else Uploading
  }

  function StageProgress(i: nat): int {
    if i == 0 then 10 else if i == 1 then 45 else if i == 2 then 75 else 90
  }

  /** The resume lookup: the first stage with the record's state. */
  function StageIndex(s: State): Option<nat> {
    match s
    case Validating => Some(0)
    case Analyzing => Some(1)
    case Rendering => Some(2)
    case Uploading => Some(3)
    case _ => None
  }

  /* ---------------------------------------------------------------------------------------
     Steps.
     --------------------------------------------------------------------------------------- */

  function With(s: System, a: Attempt, st: AttemptState): System {
    s.(attempts := s.attempts[a := st])
  }

  /** A statement's effect on the row, whether or not the caller hears of it. */
  function Effect(row: Row, result: Option<Row>, db: Database): Row {
    if db != DidNotRun && result.Some? then result.value else row
  }

  function RowAfter(s: System, result: Option<Row>, db: Database): Option<Row> {
    if s.row.Some? then Some(Effect(s.row.value, result, db)) else None
  }

  /** The caller hears that a row was updated. */
  predicate Heard(result: Option<Row>, db: Database) {
    db == Ran && result.Some?
  }

  /** An update: the statement's result on the present row. */
  function Updated(s: System, requested: JobRecord): Option<Row> {
    if s.row.Some? then UpdateSql(s.row.value, requested, s.clock) else None
  }

  function ClaimStep(s: System, a: Attempt, seconds: nat, db: Database): Option<System> {
    if a in s.attempts then None
    else
      var result := if s.row.Some? then ClaimSql(s.row.value, a, seconds, s.clock) else None;
      var next := s.(row := RowAfter(s, result, db));
      var blank := JobRecord(Queued, Queued, 0, None, None, None, None, None, None);
      Some(With(next, a,
        if db != Ran then AttemptState(Finished(Escaped(OtherException)), blank, false, false)
        else if result.Some? then AttemptState(Starting, result.value.job, false, false)
        else AttemptState(Looking, blank, false, false)))
  }

  /** `current_state` after a claim that found nothing to claim. */
  function LookUpStep(s: System, a: Attempt, db: Database): Option<System> {
    if a !in s.attempts || s.attempts[a].pc != Looking then None
    else
      var outcome := if db != Ran then Escaped(OtherException)
                     else if s.row.None? || Terminal(s.row.value.job.state) then ReturnedAck
                     else ReturnedFalse;
      Some(With(s, a, s.attempts[a].(pc := Finished(outcome))))
  }

  /** After the claim: the model check, then the resume point. */
  function BeginStep(s: System, a: Attempt, mismatch: bool): Option<System> {
    if a !in s.attempts || s.attempts[a].pc != Starting then None
    else
      var st := s.attempts[a];
      if mismatch then
        if st.copy.state == Queued then None else Some(With(s, a, st.(pc := Mismatched)))
      else if st.copy.state == Queued then Some(With(s, a, st.(pc := Entering(0))))
      else
        match StageIndex(st.copy.state)
        case None => Some(With(s, a, st.(pc := Raising(OtherException))))
        case Some(i) => Some(With(s, a, st.(pc := Entering(i))))
  }

  /** The top of the loop: the lease check, then the update unless the stage is resumed. */
  function EnterStep(s: System, a: Attempt): Option<System> {
    if a !in s.attempts || !s.attempts[a].pc.Entering? then None
    else
      var st := s.attempts[a];
      var i := st.pc.stage;
      Some(With(s, a,
        if st.leaseLost then st.(pc := Raising(INTERRUPTED))
        else if st.copy.state == StageState(i) then st.(pc := Handling(i), linked := false)
        else st.(pc := Writing(i))))
  }

  /** What an attempt asks the database to store, if its own checks pass, and where it continues
      when the update is accepted or refused. From `Starting` only a queued job that needs
      another model is written. */
  datatype Request = Request(record: Result<JobRecord, TransitionError>, accepted: Pc, refused: Pc, keeps: bool)

  function RequestOf(st: AttemptState, report: nat): Option<Request> {
    match st.pc
    case Starting =>
      if st.copy.state == Queued then
        Some(Request(Transition(st.copy, Validating, 10), Mismatched, Finished(Escaped(OtherException)), true))
      else None
    case Mismatched =>
      Some(Request(Reported(Fail(st.copy, MODEL_UNAVAILABLE), report),
                   Finished(ReturnedTrue), Finished(Escaped(OtherException)), false))
    case Writing(i) =>
      Some(Request(Transition(st.copy, StageState(i), StageProgress(i)), Handling(i), Raising(OtherException), true))
    case Completing =>
      Some(Request(Reported(Transition(st.copy, Completed, 100), report),
                   Finished(ReturnedTrue), Raising(OtherException), true))
    case Raising(WorkerFailure(transient, error)) =>
      if transient then None
      else Some(Request(Reported(Fail(st.copy, error), report),
                        Finished(ReturnedTrue), Finished(Escaped(OtherException)), false))
    case Raising(OtherException) =>
      Some(Request(Reported(Fail(st.copy, INTERNAL), report), Finished(ReturnedTrue), Releasing, false))
    case _ => None
  }

  function Reported(r: Result<JobRecord, TransitionError>, report: nat): Result<JobRecord, TransitionError> {
    match r
    case Failure(e) => Failure(e)
    case Success(record) => Success(record.(report := Some(report)))
  }

  /** One `transition` or `fail`, then one `update`. The loop's own record is replaced before the
      update is tried; a failure record is not kept. */
  function WriteStep(s: System, a: Attempt, report: nat, db: Database): Option<System> {
    if a !in s.attempts then None
    else
      var st := s.attempts[a];
      match RequestOf(st, report)
      case None => None
      case Some(request) =>
        match request.record
        case Failure(_) => Some(With(s, a, st.(pc := request.refused)))
        case Success(record) =>
          var result := Updated(s, record);
          Some(With(s.(row := RowAfter(s, result, db)), a,
                    st.(pc := if Heard(result, db) then request.accepted else request.refused,
                        copy := if request.keeps then record.(report := st.copy.report) else st.copy, linked := false)))
  }

  /** `finalize_output`, inside the uploading handler. */
  function LinkStep(s: System, a: Attempt, asset: Option<AssetId>, db: Database): Option<System> {
    if a !in s.attempts || s.attempts[a].pc != Handling(3) then None
    else
      var st := s.attempts[a];
      var result := if s.row.Some? then FinalizeSql(s.row.value, a, asset, s.clock) else None;
      Some(With(s.(row := RowAfter(s, result, db)), a,
                if Heard(result, db) then st.(linked := true) else st.(pc := Raising(OtherException))))
  }

  /** A handler returns normally; the uploading one only after it has linked its output. */
  function ReturnStep(s: System, a: Attempt): Option<System> {
    if a !in s.attempts || !s.attempts[a].pc.Handling? then None
    else
      var st := s.attempts[a];
      var i := st.pc.stage;
      if i == 3 && !st.linked then None
      else Some(With(s.(returned := s.returned + [StageState(i)]), a, st.(pc := Leaving(i))))
  }

  /** Anything in the loop body raises: a handler any exception, scratch creation and the report
      none of the worker's own. */
  function RaiseStep(s: System, a: Attempt, e: Exception): Option<System> {
    if a !in s.attempts then None
    else
      var st := s.attempts[a];
      if st.pc.Handling? then Some(With(s, a, st.(pc := Raising(e))))
      else if (st.pc.Entering? || st.pc.Leaving?) && e == OtherException then Some(With(s, a, st.(pc := Raising(e))))
      else None
  }

  /** After a handler: the lease check, then the next stage or completion. */
  function ProceedStep(s: System, a: Attempt): Option<System> {
    if a !in s.attempts || !s.attempts[a].pc.Leaving? then None
    else
      var st := s.attempts[a];
      var i := st.pc.stage;
      Some(With(s, a, st.(pc := if st.leaseLost then Raising(INTERRUPTED)
                                else if i + 1 < STAGES then Entering(i + 1) else Completing)))
  }

  /** While the heartbeat thread runs. */
  predicate Beating(pc: Pc) {
    pc.Entering? || pc.Writing? || pc.Handling? || pc.Leaving? || pc.Completing? || pc.Raising? || pc.Releasing?
  }

  function RenewStep(s: System, a: Attempt, seconds: nat, db: Database): Option<System> {
    if a !in s.attempts || !Beating(s.attempts[a].pc) || s.attempts[a].leaseLost then None
    else
      var result := if s.row.Some? then RenewSql(s.row.value, a, seconds, s.clock) else None;
      Some(With(s.(row := RowAfter(s, result, db)), a, s.attempts[a].(leaseLost := !Heard(result, db))))
  }

  /** The release of a transient failure, or of a failure that could not be stored. */
  function ReleaseStep(s: System, a: Attempt, db: Database): Option<System> {
    if a !in s.attempts then None
    else
      var st := s.attempts[a];
      var result := if s.row.Some? then ReleaseSql(s.row.value, a) else None;
      var next := s.(row := RowAfter(s, result, db));
      match st.pc
      case Raising(WorkerFailure(true, error)) => Some(With(next, a, st.(pc := Finished(Escaped(st.pc.exception)))))
      case Releasing => Some(With(next, a, st.(pc := Finished(Escaped(OtherException)))))
      case _ => None
  }

  function CrashStep(s: System, a: Attempt): Option<System> {
    if a !in s.attempts then None else Some(With(s, a, s.attempts[a].(pc := Crashed)))
  }

  datatype DeliveryAction = ACK | RETRY

  /** What the queue adapter does with a well-formed delivery. */
  function Handled(o: Outcome): DeliveryAction {
    match o
    case ReturnedAck => ACK
    case ReturnedFalse => RETRY
    case ReturnedTrue => ACK
    case Escaped(WorkerFailure(transient, _)) => if transient then RETRY else ACK
    case Escaped(OtherException) => RETRY
  }

  function SettleStep(s: System, a: Attempt): Option<System> {
    if a !in s.attempts || !s.attempts[a].pc.Finished? then None
    else
      Some(With(s.(acknowledged := s.acknowledged || Handled(s.attempts[a].pc.outcome) == ACK), a,
                s.attempts[a].(pc := Settled)))
  }

  /** The steps of the environment: time, deletion of the project, and the one transition of
      the table no worker takes. */
  function EnvironmentStep(s: System, e: Event): Option<System> {
    match e
    case Tick(clock) => if clock < s.clock then None else Some(s.(clock := clock))
    case Delete => Some(s.(row := None))
    case Cancel =>
      if s.row.None? || s.row.value.job.state != Queued then None
      else
        var row := s.row.value;
        Some(s.(row := Some(row.(job := row.job.(state := Cancelled, stage := Cancelled, owner := None, expires := None)))))
    case _ => None
  }

  function Next(s: System, e: Event): Option<System> {
    match e
    case Claim(a, seconds, db) => ClaimStep(s, a, seconds, db)
    case LookUp(a, db) => LookUpStep(s, a, db)
    case Begin(a, mismatch) => BeginStep(s, a, mismatch)
    case Enter(a) => EnterStep(s, a)
    case Write(a, report, db) => WriteStep(s, a, report, db)
    case Link(a, asset, db) => LinkStep(s, a, asset, db)
    case Return(a) => ReturnStep(s, a)
    case Raise(a, exception) => RaiseStep(s, a, exception)
    case Proceed(a) => ProceedStep(s, a)
    case Renew(a, seconds, db) => RenewStep(s, a, seconds, db)
    case Release(a, db) => ReleaseStep(s, a, db)
    case Crash(a) => CrashStep(s, a)
    case Settle(a) => SettleStep(s, a)
    case _ => EnvironmentStep(s, e)
  }

  /** The job as the API inserts it, before any delivery. */
  function Initial(clock: int): System {
    System(clock, Some(Row(JobRecord(Queued, Queued, 0, None, None, None, None, None, None), None)), map[], [], false)
  }

  /** The states a run passes through, from `s`; None where an event is not possible. */
  function After(s: System, events: seq<Event>): Option<System>
    decreases |events|
  {
    if events == [] then Some(s)
    else
      match Next(s, events[0])
      case None => None
      case Some(t) => After(t, events[1..])
  }
}
