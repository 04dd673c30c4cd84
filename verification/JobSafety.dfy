/** What every step of the job protocol keeps, and so what holds in every reachable state. */
module JobSafety {
  import opened Prelude
  import opened JobRepository
  import opened JobProtocol

  /* ---------------------------------------------------------------------------------------
     The invariant.
     --------------------------------------------------------------------------------------- */

  /** The progress every state but a failed or cancelled one is stored with. */
  function ProgressOf(s: State): int {
    match s
    case Queued => 0
    case Validating => 10
    case Analyzing => 45
    case Rendering => 75
    case Uploading => 90
    case _ => 100
  }

  /** How many stages, taken in order, the returns so far complete. */
  function Passed(returned: seq<State>): nat {
    if returned == [] then 0
    else
      var k := Passed(returned[..|returned| - 1]);
      if k < STAGES && returned[|returned| - 1] == StageState(k) then k + 1 else k
  }

  /** How many handlers must have returned before a job can be in a state. */
  function Needed(s: State): nat {
    match s
    case Analyzing => 1
    case Rendering => 2
    case Uploading => 3
    case Completed => 4
    case _ => 0
  }

  predicate Live(s: System, a: Attempt) {
    s.row.Some? && LiveLease(s.row.value.job, a, s.clock)
  }

  /** Missing or durably terminal. */
  predicate Closed(s: System) {
    s.row.None? || Terminal(s.row.value.job.state)
  }

  predicate Linked(s: System) {
    s.row.Some? ==> s.row.value.output.Some?
  }

  ghost predicate RowInv(s: System) {
    s.row.Some? ==>
      var j := s.row.value.job;
      && j.stage == j.state && 0 <= j.progress <= 100
      && (j.state !in {Failed, Cancelled} ==> j.progress == ProgressOf(j.state))
      && (Terminal(j.state) ==> j.owner.None?)
      && (j.owner.Some? <==> j.expires.Some?)
      && (j.owner.Some? ==> j.owner.value in s.attempts)
      && Passed(s.returned) >= Needed(j.state)
      && (j.state == Completed ==> s.row.value.output.Some?)
      && (j.state in {Completed, Failed} ==> j.report.Some?)
  }

  function Before(i: nat): State {
    if i == 0 then Queued else StageState(i - 1)
  }

  ghost predicate CopyInv(a: Attempt, c: JobRecord) {
    c.owner == Some(a) && c.stage == c.state && c.state !in {Failed, Cancelled} && c.progress == ProgressOf(c.state)
  }

  /** Where the attempt's copy is meant to equal the row. */
  predicate Steady(pc: Pc) {
    pc.Starting? || pc.Mismatched? || pc.Entering? || pc.Writing? || pc.Handling? || pc.Leaving? || pc.Completing?
  }

  ghost predicate PcInv(s: System, st: AttemptState) {
    match st.pc
    case Starting => st.copy.state != Completed && Passed(s.returned) >= Needed(st.copy.state)
    case Mismatched => st.copy.state in {Validating, Analyzing, Rendering, Uploading}
    case Entering(i) =>
      i < STAGES && (st.copy.state == StageState(i) || st.copy.state == Before(i)) && Passed(s.returned) >= i
    case Writing(i) => i < STAGES && st.copy.state == Before(i) && Passed(s.returned) >= i
    case Handling(i) =>
      i < STAGES && st.copy.state == StageState(i) && Passed(s.returned) >= i && (st.linked ==> Linked(s))
    case Leaving(i) =>
      i < STAGES && st.copy.state == StageState(i) && Passed(s.returned) >= i + 1 && (i == 3 ==> Linked(s))
    case Completing => st.copy.state == Uploading && Passed(s.returned) >= 4 && Linked(s)
    case Finished(o) =>
      && (Handled(o) == ACK ==> Closed(s))
      && (o.Escaped? && o.exception.WorkerFailure? ==> o.exception.transient)
    case _ => true
  }

  ghost predicate AttemptInv(s: System, a: Attempt, st: AttemptState) {
    && PcInv(s, st)
    && (Steady(st.pc) || st.pc.Raising? || st.pc.Releasing? ==> CopyInv(a, st.copy))
    && (Steady(st.pc) && Live(s, a) ==> s.row.value.job.state == st.copy.state)
  }

  ghost predicate Inv(s: System) {
    && RowInv(s)
    && (s.acknowledged ==> Closed(s))
    && forall a :: a in s.attempts ==> AttemptInv(s, a, s.attempts[a])
  }

  /* ---------------------------------------------------------------------------------------
     What a step may do to the row, as another attempt sees it.
     --------------------------------------------------------------------------------------- */

  ghost predicate Undisturbed(s: System, t: System, b: Attempt) {
    && (t.row.Some? ==> s.row.Some?)
    && (Closed(s) ==> Closed(t))
    && (Linked(s) ==> Linked(t))
    && Passed(t.returned) >= Passed(s.returned)
    && (Live(t, b) ==> Live(s, b) && t.row.value.job.state == s.row.value.job.state)
  }

  lemma OtherKept(s: System, t: System, b: Attempt, st: AttemptState)
    requires AttemptInv(s, b, st) && Undisturbed(s, t, b)
    ensures AttemptInv(t, b, st)
  {
  }

  /** A step of one attempt keeps the invariant when it keeps the row's part, its own part, and
      disturbs no other attempt. */
  lemma InvByParts(s: System, t: System, a: Attempt)
    requires Inv(s) && RowInv(t) && (t.acknowledged ==> Closed(t))
    requires a in t.attempts && t.attempts == s.attempts[a := t.attempts[a]] && AttemptInv(t, a, t.attempts[a])
    requires forall b :: b in s.attempts && b != a ==> Undisturbed(s, t, b)
    ensures Inv(t)
  {
    hide AttemptInv, RowInv, Undisturbed;
    forall b | b in t.attempts ensures AttemptInv(t, b, t.attempts[b]) {
      if b != a {
        OtherKept(s, t, b, s.attempts[b]);
      }
    }
  }

  lemma PassedGrows(returned: seq<State>, state: State)
    ensures Passed(returned + [state]) >= Passed(returned)
    ensures forall i: nat :: i < STAGES && state == StageState(i) && Passed(returned) >= i ==>
              Passed(returned + [state]) >= i + 1
  {
    assert (returned + [state])[..|returned|] == returned;
  }

  /* Steps that leave the row alone. */

  /** The row, the clock and the history are the same. */
  ghost predicate Quiet(s: System, t: System) {
    s.row == t.row && s.clock == t.clock && s.returned == t.returned
  }

  lemma QuietUndisturbed(s: System, t: System, b: Attempt)
    requires Quiet(s, t)
    ensures Undisturbed(s, t, b)
  {
  }

  lemma QuietKeeps(s: System, t: System, a: Attempt)
    requires Inv(s) && Quiet(s, t) && a in s.attempts && a in t.attempts
    requires t.attempts == s.attempts[a := t.attempts[a]] && AttemptInv(t, a, t.attempts[a])
    requires t.acknowledged ==> Closed(t)
    ensures Inv(t)
  {
    hide AttemptInv, Undisturbed;
    forall b | b in s.attempts && b != a ensures Undisturbed(s, t, b) {
      QuietUndisturbed(s, t, b);
    }
    InvByParts(s, t, a);
  }

  lemma LookUpKeeps(s: System, a: Attempt, db: Database)
    requires Inv(s) && LookUpStep(s, a, db).Some?
    ensures Inv(LookUpStep(s, a, db).value)
  {
    hide Passed;
    assert AttemptInv(s, a, s.attempts[a]);
    QuietKeeps(s, LookUpStep(s, a, db).value, a);
  }

  lemma BeginKeeps(s: System, a: Attempt, mismatch: bool)
    requires Inv(s) && BeginStep(s, a, mismatch).Some?
    ensures Inv(BeginStep(s, a, mismatch).value)
  {
    hide Passed;
    assert AttemptInv(s, a, s.attempts[a]);
    QuietKeeps(s, BeginStep(s, a, mismatch).value, a);
  }

  lemma EnterKeeps(s: System, a: Attempt)
    requires Inv(s) && EnterStep(s, a).Some?
    ensures Inv(EnterStep(s, a).value)
  {
    hide Passed;
    assert AttemptInv(s, a, s.attempts[a]);
    QuietKeeps(s, EnterStep(s, a).value, a);
  }

  lemma RaiseKeeps(s: System, a: Attempt, e: Exception)
    requires Inv(s) && RaiseStep(s, a, e).Some?
    ensures Inv(RaiseStep(s, a, e).value)
  {
    hide Passed;
    assert AttemptInv(s, a, s.attempts[a]);
    QuietKeeps(s, RaiseStep(s, a, e).value, a);
  }

  lemma ProceedKeeps(s: System, a: Attempt)
    requires Inv(s) && ProceedStep(s, a).Some?
    ensures Inv(ProceedStep(s, a).value)
  {
    hide Passed;
    assert AttemptInv(s, a, s.attempts[a]);
    QuietKeeps(s, ProceedStep(s, a).value, a);
  }

  lemma CrashKeeps(s: System, a: Attempt)
    requires Inv(s) && CrashStep(s, a).Some?
    ensures Inv(CrashStep(s, a).value)
  {
    hide Passed;
    assert AttemptInv(s, a, s.attempts[a]);
    QuietKeeps(s, CrashStep(s, a).value, a);
  }

  lemma SettleKeeps(s: System, a: Attempt)
    requires Inv(s) && SettleStep(s, a).Some?
    ensures Inv(SettleStep(s, a).value)
  {
    hide Passed;
    assert AttemptInv(s, a, s.attempts[a]);
    QuietKeeps(s, SettleStep(s, a).value, a);
  }

  lemma ReturnKeeps(s: System, a: Attempt)
    requires Inv(s) && ReturnStep(s, a).Some?
    ensures Inv(ReturnStep(s, a).value)
  {
    hide Passed;
    var t := ReturnStep(s, a).value;
    assert AttemptInv(s, a, s.attempts[a]);
    PassedGrows(s.returned, StageState(s.attempts[a].pc.stage));
    forall b | b in s.attempts && b != a ensures Undisturbed(s, t, b) {
    }
    InvByParts(s, t, a);
  }

  /* Steps on the row. */

  lemma ClaimKeeps(s: System, a: Attempt, seconds: nat, db: Database)
    requires Inv(s) && ClaimStep(s, a, seconds, db).Some?
    ensures Inv(ClaimStep(s, a, seconds, db).value)
  {
    var t := ClaimStep(s, a, seconds, db).value;
    InvByParts(s, t, a);
  }

  lemma RenewKeeps(s: System, a: Attempt, seconds: nat, db: Database)
    requires Inv(s) && RenewStep(s, a, seconds, db).Some?
    ensures Inv(RenewStep(s, a, seconds, db).value)
  {
    assert AttemptInv(s, a, s.attempts[a]);
    InvByParts(s, RenewStep(s, a, seconds, db).value, a);
  }

  lemma ReleaseKeeps(s: System, a: Attempt, db: Database)
    requires Inv(s) && ReleaseStep(s, a, db).Some?
    ensures Inv(ReleaseStep(s, a, db).value)
  {
    assert AttemptInv(s, a, s.attempts[a]);
    InvByParts(s, ReleaseStep(s, a, db).value, a);
  }

  lemma LinkKeeps(s: System, a: Attempt, asset: Option<AssetId>, db: Database)
    requires Inv(s) && LinkStep(s, a, asset, db).Some?
    ensures Inv(LinkStep(s, a, asset, db).value)
  {
    assert AttemptInv(s, a, s.attempts[a]);
    InvByParts(s, LinkStep(s, a, asset, db).value, a);
  }

  /** What is asked for is always a legal record of the attempt's own, and what an accepted
      request leads to is what the next point needs. */
  lemma RequestLegal(s: System, a: Attempt, st: AttemptState, report: nat)
    requires AttemptInv(s, a, st) && RequestOf(st, report).Some? && RequestOf(st, report).value.record.Success?
    ensures var q := RequestOf(st, report).value;
            var record := q.record.value;
            && record.owner == Some(a) && record.stage == record.state && 0 <= record.progress <= 100
            && record.state !in {Queued, Cancelled}
            && (record.state != Failed ==> record.progress == ProgressOf(record.state) && q.keeps)
            && Passed(s.returned) >= Needed(record.state)
            && (record.state == Completed ==> Linked(s))
            && (q.accepted == Finished(ReturnedTrue) <==> Terminal(record.state))
            && (Terminal(record.state) ==> record.report == Some(report))
  {
    hide Passed;
  }

  lemma WriteRow(s: System, t: System, a: Attempt, record: JobRecord, db: Database)
    requires Inv(s) && a in s.attempts && record.owner == Some(a) && record.stage == record.state
    requires record.state !in {Queued, Cancelled}
    requires record.state != Failed ==> record.progress == ProgressOf(record.state)
    requires Passed(s.returned) >= Needed(record.state) && (record.state == Completed ==> Linked(s))
    requires Terminal(record.state) ==> record.report.Some?
    requires t == s.(row := RowAfter(s, Updated(s, record), db), attempts := t.attempts)
    requires t.attempts.Keys == s.attempts.Keys
    ensures RowInv(t) && (t.acknowledged ==> Closed(t))
    ensures forall b :: b in s.attempts && b != a ==> Undisturbed(s, t, b)
    ensures Linked(s) ==> Linked(t)
    ensures Updated(s, record).Some? && db != DidNotRun ==> t.row.Some? && t.row.value.job.state == record.state
  {
    hide Passed, AttemptInv;
  }

  lemma WriteOwn(s: System, t: System, a: Attempt, st: AttemptState, report: nat, db: Database)
    requires Inv(s) && a in s.attempts && st == s.attempts[a] && WriteStep(s, a, report, db) == Some(t)
    requires Linked(s) ==> Linked(t)
    requires RequestOf(st, report).value.record.Success?
    requires var record := RequestOf(st, report).value.record.value;
             Updated(s, record).Some? && db != DidNotRun ==> t.row.Some? && t.row.value.job.state == record.state
    ensures AttemptInv(t, a, t.attempts[a])
  {
    hide Passed, UpdateSql;
    assert AttemptInv(s, a, st);
    RequestLegal(s, a, st, report);
  }

  lemma WriteKeeps(s: System, a: Attempt, report: nat, db: Database)
    requires Inv(s) && WriteStep(s, a, report, db).Some?
    ensures Inv(WriteStep(s, a, report, db).value)
  {
    var st, t := s.attempts[a], WriteStep(s, a, report, db).value;
    assert AttemptInv(s, a, st);
    var q := RequestOf(st, report).value;
    if q.record.Failure? {
      RefusedKeeps(s, a, report, db);
    } else {
      RequestLegal(s, a, st, report);
      hide Inv, RequestOf, UpdateSql, AttemptInv, Undisturbed, RowInv, Passed;
      WriteRow(s, t, a, q.record.value, db);
      WriteOwn(s, t, a, st, report, db);
      InvByParts(s, t, a);
    }
  }

  lemma RefusedKeeps(s: System, a: Attempt, report: nat, db: Database)
    requires Inv(s) && WriteStep(s, a, report, db).Some? && RequestOf(s.attempts[a], report).value.record.Failure?
    ensures Inv(WriteStep(s, a, report, db).value)
  {
    hide Passed;
    assert AttemptInv(s, a, s.attempts[a]);
    QuietKeeps(s, WriteStep(s, a, report, db).value, a);
  }

  lemma EnvironmentKeeps(s: System, e: Event)
    requires Inv(s) && EnvironmentStep(s, e).Some?
    ensures Inv(EnvironmentStep(s, e).value)
  {
    var t := EnvironmentStep(s, e).value;
    forall b | b in t.attempts ensures AttemptInv(t, b, t.attempts[b]) {
      OtherKept(s, t, b, s.attempts[b]);
    }
  }

  /** Every step keeps the invariant. */
  lemma NextKeeps(s: System, e: Event)
    requires Inv(s) && Next(s, e).Some?
    ensures Inv(Next(s, e).value)
  {
    hide Inv;
    match e
    case Claim(a, seconds, db) => ClaimKeeps(s, a, seconds, db);
    case Write(a, report, db) => WriteKeeps(s, a, report, db);
    case Link(a, asset, db) => LinkKeeps(s, a, asset, db);
    case Return(a) => ReturnKeeps(s, a);
    case Renew(a, seconds, db) => RenewKeeps(s, a, seconds, db);
    case Release(a, db) => ReleaseKeeps(s, a, db);
    case Tick(_) => EnvironmentKeeps(s, e);
    case Delete => EnvironmentKeeps(s, e);
    case Cancel => EnvironmentKeeps(s, e);
    case LookUp(a, db) => LookUpKeeps(s, a, db);
    case Begin(a, mismatch) => BeginKeeps(s, a, mismatch);
    case Enter(a) => EnterKeeps(s, a);
    case Raise(a, exception) => RaiseKeeps(s, a, exception);
    case Proceed(a) => ProceedKeeps(s, a);
    case Crash(a) => CrashKeeps(s, a);
    case Settle(a) => SettleKeeps(s, a);
  }

  lemma {:induction false} AfterKeeps(s: System, events: seq<Event>)
    requires Inv(s) && After(s, events).Some?
    ensures Inv(After(s, events).value)
    decreases |events|
  {
    if events != [] {
      hide Inv;
      NextKeeps(s, events[0]);
      AfterKeeps(Next(s, events[0]).value, events[1..]);
    }
  }
}
