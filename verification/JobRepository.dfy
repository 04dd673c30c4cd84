/**
 The job row and everything that may change it: the guarded SQL statements of the worker's
 repository, the pure transitions of the worker's own copy, and the in-memory reference
 repository both are meant to agree with.
 */
module JobRepository {
  import opened Prelude

  datatype State = Queued | Validating | Analyzing | Rendering | Uploading | Completed | Failed | Cancelled

  /** Attempt identifiers, fresh for every delivery. */
  type Attempt = nat

  type JobId = nat

  type AssetId = nat

  datatype JobError = JobError(code: string, message: string)

  /** The worker's copy of a job. Times are readings of the database clock. */
  datatype JobRecord = JobRecord(
    state: State, stage: State, progress: int, owner: Option<Attempt>, expires: Option<int>,
    error: Option<JobError>, started: Option<int>, completed: Option<int>, report: Option<nat>)

  /** A job row: what the worker copies, and the linked output. */
  datatype Row = Row(job: JobRecord, output: Option<AssetId>)

  predicate Terminal(s: State) {
    s in {Completed, Failed, Cancelled}
  }

  /** The transition table. */
  predicate Allowed(from: State, to: State) {
    match from
    case Queued => to in {Validating, Cancelled}
    case Validating => to in {Analyzing, Failed}
    case Analyzing => to in {Rendering, Failed}
    case Rendering => to in {Uploading, Failed}
    case Uploading => to in {Completed, Failed}
    case _ => false
  }

  datatype TransitionError =
    | InvalidTransition | ProgressNotMonotonic | IncompleteProgress | TerminalJob | LeaseNotOwned | StageMismatch

  function Transition(r: JobRecord, next: State, progress: int): Result<JobRecord, TransitionError> {
    if !Allowed(r.state, next) then Failure(InvalidTransition)
    else if progress < r.progress || !(0 <= progress <= 100) then Failure(ProgressNotMonotonic)
    else if next == Completed && progress != 100 then Failure(IncompleteProgress)
    else Success(r.(state := next, stage := next, progress := progress))
  }

  function Fail(r: JobRecord, error: JobError): Result<JobRecord, TransitionError> {
    if Terminal(r.state) then Failure(TerminalJob)
    else Success(r.(state := Failed, stage := Failed, error := Some(error)))
  }

  /** Owned by an attempt whose lease has not expired. */
  predicate LiveLease(r: JobRecord, a: Attempt, now: int) {
    r.owner == Some(a) && r.expires.Some? && r.expires.value > now
  }

  /* ---------------------------------------------------------------------------------------
     The SQL statements. Each gives the row it leaves, or None where it updates no row; an
     absent column compares as unknown, which no guard accepts.
     --------------------------------------------------------------------------------------- */

  function Later(now: int, seconds: nat): int {
    now + 1000000 * seconds
  }

  function ClaimSql(row: Row, a: Attempt, seconds: nat, now: int): Option<Row> {
    if !Terminal(row.job.state) && (row.job.expires.None? || row.job.expires.value <= now) then
      Some(row.(job := row.job.(owner := Some(a), expires := Some(Later(now, seconds)),
                                started := if row.job.started.Some? then row.job.started else Some(now))))
    else
      None
  }

  function RenewSql(row: Row, a: Attempt, seconds: nat, now: int): Option<Row> {
    if LiveLease(row.job, a, now) && !Terminal(row.job.state) then
      Some(row.(job := row.job.(expires := Some(Later(now, seconds)))))
    else
      None
  }

  function ReleaseSql(row: Row, a: Attempt): Option<Row> {
    if row.job.owner == Some(a) && !Terminal(row.job.state) then
      Some(row.(job := row.job.(owner := None, expires := None)))
    else
      None
  }

  /** The state pairs the update statement lists. */
  predicate ListedPair(from: State, to: State) {
    || (from == Queued && to == Validating)
    || (from == Validating && to in {Validating, Analyzing, Failed})
    || (from == Analyzing && to in {Analyzing, Rendering, Failed})
    || (from == Rendering && to in {Rendering, Uploading, Failed})
    || (from == Uploading && to in {Uploading, Completed, Failed})
  }

  /** The guard of the update statement, with the table's bound on progress. */
  predicate UpdateGuard(row: Row, requested: JobRecord, now: int) {
    && requested.owner.Some? && LiveLease(row.job, requested.owner.value, now)
    && row.job.state != Cancelled
    && row.job.progress <= requested.progress
    && (requested.state != Completed || requested.progress == 100)
    && requested.stage == requested.state
    && ListedPair(row.job.state, requested.state)
    && 0 <= requested.progress <= 100
  }

  function UpdateSql(row: Row, requested: JobRecord, now: int): Option<Row> {
    if UpdateGuard(row, requested, now) then
      var ends := Terminal(requested.state);
      Some(row.(job := row.job.(
        state := requested.state, stage := requested.stage, progress := requested.progress,
        error := requested.error, report := requested.report,
        completed := if ends then Some(now) else row.job.completed,
        owner := if ends then None else row.job.owner,
        expires := if ends then None else row.job.expires)))
    else
      None
  }

  /** `asset` is what the asset upsert returns: nothing when another kind of asset has the key. */
  function FinalizeSql(row: Row, a: Attempt, asset: Option<AssetId>, now: int): Option<Row> {
    if row.job.state == Uploading && LiveLease(row.job, a, now) && asset.Some? then
      Some(row.(output := asset))
    else
      None
  }

  /* ---------------------------------------------------------------------------------------
     The reference repository.
     --------------------------------------------------------------------------------------- */

  function ClaimReference(r: Option<JobRecord>, a: Attempt, seconds: nat, now: int): Option<JobRecord> {
    if r.None? || Terminal(r.value.state) then None
    else if !(r.value.expires.None? || r.value.expires.value <= now) then None
    else Some(r.value.(owner := Some(a), expires := Some(Later(now, seconds)),
                       started := if r.value.started.Some? then r.value.started else Some(now)))
  }

  function UpdateReference(r: Option<JobRecord>, requested: JobRecord, now: int): Result<JobRecord, TransitionError> {
    if r.None? || Terminal(r.value.state) || r.value.owner != requested.owner || r.value.expires.None?
       || r.value.expires.value <= now then Failure(LeaseNotOwned)
    else if requested.progress < r.value.progress || !(0 <= requested.progress <= 100) then Failure(ProgressNotMonotonic)
    else if requested.state == Completed && requested.progress != 100 then Failure(IncompleteProgress)
    else if requested.stage != requested.state then Failure(StageMismatch)
    else if requested.state != r.value.state && !Allowed(r.value.state, requested.state) then Failure(InvalidTransition)
    else Success(if Terminal(requested.state)
                 then requested.(owner := None, expires := None, completed := Some(now)) else requested)
  }

  function RenewReference(r: Option<JobRecord>, a: Attempt, seconds: nat, now: int): Option<JobRecord> {
    if r.None? || Terminal(r.value.state) || r.value.owner != Some(a) || r.value.expires.None?
       || r.value.expires.value <= now then None
    else Some(r.value.(expires := Some(Later(now, seconds))))
  }

  function ReleaseReference(r: Option<JobRecord>, a: Attempt): Option<JobRecord> {
    if r.None? || Terminal(r.value.state) || r.value.owner != Some(a) then None
    else Some(r.value.(owner := None, expires := None))
  }

  /* What the reference guarantees, whoever calls it. */

  /** A claim succeeds only where no lease is live, gives the caller the one live lease for the
      given seconds, dates the first start, and changes nothing of the work itself. */
  ghost predicate ClaimFencing(before: JobRecord, after: JobRecord, a: Attempt, seconds: nat, now: int) {
    && !Terminal(before.state) && (before.owner.Some? ==> !LiveLease(before, before.owner.value, now))
    && (forall b: Attempt, t: int :: LiveLease(after, b, t) <==> b == a && t < now + 1000000 * seconds)
    && after.started == (if before.started.Some? then before.started else Some(now))
    && after.(owner := before.owner, expires := before.expires, started := before.started) == before
  }

  lemma ClaimTakesLease(r: JobRecord, a: Attempt, seconds: nat, now: int)
    ensures ClaimReference(Some(r), a, seconds, now).Some? ==>
              ClaimFencing(r, ClaimReference(Some(r), a, seconds, now).value, a, seconds, now)
  {
  }

  /** An update succeeds only under the caller's live lease, never lowers progress, never leaves
      a terminal state, moves only as the table allows, and a terminal job keeps no lease. */
  ghost predicate UpdateForward(before: JobRecord, after: JobRecord, caller: Option<Attempt>, now: int) {
    && !Terminal(before.state) && before.owner == caller
    && before.expires.Some? && before.expires.value > now
    && before.progress <= after.progress && 0 <= after.progress <= 100
    && (after.state == before.state || Allowed(before.state, after.state))
    && after.stage == after.state && (after.state == Completed ==> after.progress == 100)
    && after.owner == (if Terminal(after.state) then None else caller)
    && (Terminal(after.state) ==> after.completed == Some(now) && after.expires.None?)
  }

  lemma UpdateAdvances(r: JobRecord, requested: JobRecord, now: int)
    ensures UpdateReference(Some(r), requested, now).Success? ==>
              UpdateForward(r, UpdateReference(Some(r), requested, now).value, requested.owner, now)
  {
  }

  /** One call of the reference by anybody, and the record it leaves. */
  datatype Call =
    | ClaimCall(a: Attempt, seconds: nat, now: int)
    | UpdateCall(requested: JobRecord, now: int)
    | RenewCall(a: Attempt, seconds: nat, now: int)
    | ReleaseCall(a: Attempt, now: int)

  function Called(r: JobRecord, c: Call): JobRecord {
    match c
    case ClaimCall(a, seconds, now) =>
      var claimed := ClaimReference(Some(r), a, seconds, now);
      if claimed.Some? then claimed.value else r
    case UpdateCall(requested, now) =>
      var updated := UpdateReference(Some(r), requested, now);
      if updated.Success? then updated.value else r
    case RenewCall(a, seconds, now) =>
      var renewed := RenewReference(Some(r), a, seconds, now);
      if renewed.Some? then renewed.value else r
    case ReleaseCall(a, _) =>
      var released := ReleaseReference(Some(r), a);
      if released.Some? then released.value else r
  }

  function CalledAll(r: JobRecord, calls: seq<Call>): JobRecord
    decreases |calls|
  {
    if calls == [] then r else CalledAll(Called(r, calls[0]), calls[1..])
  }

  /** Calls on a clock that does not run backwards. */
  ghost predicate Clocked(calls: seq<Call>, from: int) {
    calls != [] ==> from <= calls[0].now && Clocked(calls[1..], calls[0].now)
  }

  function LastTime(calls: seq<Call>, from: int): int {
    if calls == [] then from else LastTime(calls[1..], calls[0].now)
  }

  /** Over any calls by any workers progress never decreases and a terminal record never
      changes. */
  lemma {:induction false} CallsForward(r: JobRecord, calls: seq<Call>)
    ensures r.progress <= CalledAll(r, calls).progress
    ensures Terminal(r.state) ==> CalledAll(r, calls) == r
    decreases |calls|
  {
    if calls != [] {
      CallsForward(Called(r, calls[0]), calls[1..]);
    }
  }

  /** Fencing in the reference: a worker without a live lease that does not claim again has none
      after any calls by any workers, and none of its updates or renewals is accepted. */
  lemma {:induction false} CallsFenced(r: JobRecord, calls: seq<Call>, a: Attempt, from: int)
    requires Clocked(calls, from) && !LiveLease(r, a, from)
    requires forall i :: 0 <= i < |calls| ==> !(calls[i].ClaimCall? && calls[i].a == a)
    ensures !LiveLease(CalledAll(r, calls), a, LastTime(calls, from))
    ensures forall requested: JobRecord :: requested.owner == Some(a) ==>
              UpdateReference(Some(CalledAll(r, calls)), requested, LastTime(calls, from)).Failure?
    ensures forall seconds: nat ::
              RenewReference(Some(CalledAll(r, calls)), a, seconds, LastTime(calls, from)).None?
    decreases |calls|
  {
    if calls != [] {
      CallsFenced(Called(r, calls[0]), calls[1..], a, calls[0].now);
    }
  }

  function Find(records: map<JobId, JobRecord>, job: JobId): Option<JobRecord> {
    if job in records then Some(records[job]) else None
  }

  /** Stored where a new record is given, unchanged otherwise. */
  function Stored(records: map<JobId, JobRecord>, job: JobId, r: Option<JobRecord>): map<JobId, JobRecord> {
    if r.Some? then records[job := r.value] else records
  }

  class InMemoryJobRepository {
    var records: map<JobId, JobRecord>

    constructor (initial: map<JobId, JobRecord>)
      ensures records == initial
    {
      records := initial;
    }

    method Claim(job: JobId, a: Attempt, seconds: nat, now: int) returns (r: Option<JobRecord>)
      modifies this`records
      ensures r == ClaimReference(Find(old(records), job), a, seconds, now)
      ensures records == Stored(old(records), job, r)
      ensures r.Some? ==> job in old(records) && ClaimFencing(old(records)[job], r.value, a, seconds, now)
    {
      if job !in records || Terminal(records[job].state) {
        return None;
      }
      var record := records[job];
      var available := record.expires.None? || record.expires.value <= now;
      if !available {
        return None;
      }
      var started := if record.started.Some? then record.started else Some(now);
      var claimed := record.(owner := Some(a), expires := Some(Later(now, seconds)), started := started);
      records := records[job := claimed];
      return Some(claimed);
    }

    method Update(job: JobId, requested: JobRecord, now: int) returns (r: Result<(), TransitionError>)
      modifies this`records
      ensures var u := UpdateReference(Find(old(records), job), requested, now);
              && (r.Success? <==> u.Success?) && (r.Failure? ==> u == Failure(r.error))
              && records == Stored(old(records), job, if u.Success? then Some(u.value) else None)
      ensures r.Success? ==>
                && job in old(records) && job in records
                && UpdateForward(old(records)[job], records[job], requested.owner, now)
    {
      if job !in records {
        return Failure(LeaseNotOwned);
      }
      var current, record := records[job], requested;
      if Terminal(current.state) || current.owner != record.owner || current.expires.None? || current.expires.value <= now {
        return Failure(LeaseNotOwned);
      }
      if record.progress < current.progress || !(0 <= record.progress <= 100) {
        return Failure(ProgressNotMonotonic);
      }
      if record.state == Completed && record.progress != 100 {
        return Failure(IncompleteProgress);
      }
      if record.stage != record.state {
        return Failure(StageMismatch);
      }
      if record.state != current.state && !Allowed(current.state, record.state) {
        return Failure(InvalidTransition);
      }
      if Terminal(record.state) {
        record := record.(owner := None, expires := None, completed := Some(now));
      }
      records := records[job := record];
      return Success(());
    }

    method Renew(job: JobId, a: Attempt, seconds: nat, now: int) returns (renewed: bool)
      modifies this`records
      ensures var r := RenewReference(Find(old(records), job), a, seconds, now);
              renewed == r.Some? && records == Stored(old(records), job, r)
      ensures renewed ==>
                && job in old(records) && job in records && LiveLease(old(records)[job], a, now)
                && records[job].(expires := old(records)[job].expires) == old(records)[job]
                && forall b: Attempt, t: int :: LiveLease(records[job], b, t) <==> b == a && t < now + 1000000 * seconds
    {
      if job !in records || Terminal(records[job].state) || records[job].owner != Some(a) || records[job].expires.None?
         || records[job].expires.value <= now {
        return false;
      }
      records := records[job := records[job].(expires := Some(Later(now, seconds)))];
      return true;
    }

    method Release(job: JobId, a: Attempt) returns (released: bool)
      modifies this`records
      ensures var r := ReleaseReference(Find(old(records), job), a);
              released == r.Some? && records == Stored(old(records), job, r)
      ensures released ==> job in records && forall b: Attempt, t: int :: !LiveLease(records[job], b, t)
    {
      if job !in records || Terminal(records[job].state) || records[job].owner != Some(a) {
        return false;
      }
      records := records[job := records[job].(owner := None, expires := None)];
      return true;
    }
  }

  /** The lease statements do exactly what the reference does. */
  lemma LeaseStatementsAgree(row: Row, a: Attempt, seconds: nat, now: int)
    ensures ClaimSql(row, a, seconds, now)
         == (match ClaimReference(Some(row.job), a, seconds, now) case None => None case Some(r) => Some(row.(job := r)))
    ensures RenewSql(row, a, seconds, now)
         == (match RenewReference(Some(row.job), a, seconds, now) case None => None case Some(r) => Some(row.(job := r)))
    ensures ReleaseSql(row, a)
         == (match ReleaseReference(Some(row.job), a) case None => None case Some(r) => Some(row.(job := r)))
  {
  }

  /** The update statement refines the reference: it accepts exactly what the reference accepts
      except a queued job kept queued or cancelled, and it then leaves the same state, stage,
      progress, owner, error and report. Only the expiry differs: the statement keeps the
      row's, the reference stores the caller's. */
  lemma UpdateRefinesReference(row: Row, requested: JobRecord, now: int)
    requires requested.owner.Some?
    ensures UpdateSql(row, requested, now).Some?
       <==> && UpdateReference(Some(row.job), requested, now).Success?
            && !(row.job.state == Queued && requested.state in {Queued, Cancelled})
    ensures UpdateSql(row, requested, now).Some? ==>
              var s, r := UpdateSql(row, requested, now).value.job, UpdateReference(Some(row.job), requested, now).value;
              && s.state == r.state && s.stage == r.stage && s.progress == r.progress && s.owner == r.owner
              && s.error == r.error && s.report == r.report
              && s.started == row.job.started && r.started == requested.started
              && s.completed == (if Terminal(s.state) then Some(now) else row.job.completed)
              && r.completed == (if Terminal(s.state) then Some(now) else requested.completed)
              && s.state == requested.state && s.progress == requested.progress
              && s.error == requested.error && s.report == requested.report
              && s.expires == (if Terminal(s.state) then None else row.job.expires)
              && r.expires == (if Terminal(s.state) then None else requested.expires)
  {
  }

  /** The transition table and the statement's list agree on every move to another state from
      which the worker writes. */
  lemma TransitionsListed(from: State, to: State)
    requires from != to && !(from == Queued && to == Cancelled)
    ensures Allowed(from, to) <==> ListedPair(from, to)
  {
  }
}
