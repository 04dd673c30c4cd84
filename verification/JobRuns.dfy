/** What every run of the job protocol guarantees: fencing, completion history, terminal
    absorption and acknowledgement. */
module JobRuns {
  import opened Prelude
  import opened JobRepository
  import opened JobProtocol
  import opened JobSafety

  /** Every state a job reaches from its insertion satisfies the invariant. */
  lemma ReachableInv(clock: int, events: seq<Event>)
    requires After(Initial(clock), events).Some?
    ensures Inv(After(Initial(clock), events).value)
  {
    AfterKeeps(Initial(clock), events);
  }

  /* ---------------------------------------------------------------------------------------
     Fencing.
     --------------------------------------------------------------------------------------- */

  /** The row change a statement of attempt `a` makes at an event. */
  function ChangeOf(s: System, e: Event): Option<Row> {
    if s.row.None? then None
    else
      var row := s.row.value;
      match e
      case Write(a, report, db) =>
        if a in s.attempts && db != DidNotRun && RequestOf(s.attempts[a], report).Some?
           && RequestOf(s.attempts[a], report).value.record.Success?
        then Updated(s, RequestOf(s.attempts[a], report).value.record.value) else None
      case Link(a, asset, db) => if db != DidNotRun then FinalizeSql(row, a, asset, s.clock) else None
      case Renew(a, seconds, db) => if db != DidNotRun then RenewSql(row, a, seconds, s.clock) else None
      case _ => None
  }

  /** An update, finalization or renewal takes effect. */
  predicate Changes(s: System, e: Event, a: Attempt) {
    (e.Write? || e.Link? || e.Renew?) && e.attempt == a && ChangeOf(s, e).Some?
  }

  predicate Claims(s: System, e: Event, a: Attempt) {
    e.Claim? && e.attempt == a && e.db != DidNotRun && s.row.Some? && ClaimSql(s.row.value, a, e.seconds, s.clock).Some?
  }

  /** Only a live lease changes the row. */
  lemma ChangeNeedsLease(s: System, e: Event, a: Attempt)
    requires Inv(s) && Next(s, e).Some? && Changes(s, e, a)
    ensures a in s.attempts && Live(s, a)
  {
    hide Passed, RowInv;
    assert AttemptInv(s, a, s.attempts[a]);
    if e.Write? {
      RequestLegal(s, a, s.attempts[a], e.report);
    }
  }

  /** A started attempt without a live lease gets none by any step. */
  lemma LeaseStaysLost(s: System, e: Event, a: Attempt)
    requires Inv(s) && Next(s, e).Some? && a in s.attempts && !Live(s, a)
    ensures a in Next(s, e).value.attempts && !Live(Next(s, e).value, a)
  {
    hide Passed, RowInv;
    if e.Write? {
      assert AttemptInv(s, e.attempt, s.attempts[e.attempt]);
    }
  }

  /** Fencing: once an attempt's lease is not live it never is again, in any continuation. */
  lemma {:induction false} LostForever(s: System, events: seq<Event>, a: Attempt)
    requires Inv(s) && After(s, events).Some? && a in s.attempts && !Live(s, a)
    ensures a in After(s, events).value.attempts && !Live(After(s, events).value, a)
    decreases |events|
  {
    if events != [] {
      hide Inv, Live, Next;
      NextKeeps(s, events[0]);
      LeaseStaysLost(s, events[0], a);
      LostForever(Next(s, events[0]).value, events[1..], a);
    }
  }

  /** A claim takes the lease away from every attempt that started before. */
  lemma ClaimFences(s: System, e: Event, a: Attempt, b: Attempt)
    requires Inv(s) && Next(s, e).Some? && Claims(s, e, b) && a in s.attempts
    ensures a != b && a in Next(s, e).value.attempts && !Live(Next(s, e).value, a)
  {
    hide Passed, RowInv, AttemptInv;
  }

  lemma {:induction false} AfterSplits(s: System, events: seq<Event>, k: nat)
    requires k <= |events|
    ensures After(s, events) == match After(s, events[..k]) case None => None case Some(t) => After(t, events[k..])
    decreases k
  {
    if k == 0 {
      assert events[..0] == [] && events[0..] == events;
    } else if Next(s, events[0]).Some? {
      var rest := events[1..];
      AfterSplits(Next(s, events[0]).value, rest, k - 1);
      assert events[..k][1..] == rest[..k - 1] && rest[k - 1..] == events[k..];
    }
  }

  /** The state before event `k` of a run. */
  lemma Midway(clock: int, events: seq<Event>, k: nat)
    requires After(Initial(clock), events).Some? && k < |events|
    ensures After(Initial(clock), events[..k]).Some?
    ensures var s := After(Initial(clock), events[..k]).value;
            && Inv(s) && Next(s, events[k]).Some?
            && After(s, events[k..]).Some?
  {
    hide Next, Inv;
    AfterSplits(Initial(clock), events, k);
    ReachableInv(clock, events[..k]);
  }

  lemma Onwards(clock: int, events: seq<Event>, i: nat, k: nat)
    requires After(Initial(clock), events).Some? && i <= k < |events|
    ensures After(Initial(clock), events[..i]).Some? && After(Initial(clock), events[..k]).Some?
    ensures After(After(Initial(clock), events[..i]).value, events[i..k])
         == After(Initial(clock), events[..k])
  {
    hide Next, Inv;
    Midway(clock, events, i);
    Midway(clock, events, k);
    AfterSplits(Initial(clock), events[..k], i);
    SliceOfPrefix(events, i, k);
  }

  lemma SliceOfPrefix(events: seq<Event>, i: nat, k: nat)
    requires i <= k <= |events|
    ensures events[..k][..i] == events[..i] && events[..k][i..] == events[i..k]
  {
  }

  /** The successful writes of different attempts occupy disjoint spans of a run: between two
      changes by one attempt no other attempt changes or claims the job. */
  lemma DisjointSpans(clock: int, events: seq<Event>, i: nat, j: nat, k: nat, a: Attempt, b: Attempt)
    requires After(Initial(clock), events).Some? && i < j < k < |events|
    requires After(Initial(clock), events[..i]).Some? && After(Initial(clock), events[..j]).Some?
    requires After(Initial(clock), events[..k]).Some?
    requires Changes(After(Initial(clock), events[..i]).value, events[i], a)
    requires Changes(After(Initial(clock), events[..k]).value, events[k], a)
    requires var s := After(Initial(clock), events[..j]).value; Changes(s, events[j], b) || Claims(s, events[j], b)
    ensures a == b
  {
    hide Changes, Claims, Live, Inv, Next;
    var s, u := After(Initial(clock), events[..j]).value, After(Initial(clock), events[..k]).value;
    Started(clock, events, i, j, a);
    Midway(clock, events, j);
    Midway(clock, events, k);
    ChangeNeedsLease(u, events[k], a);
    Onwards(clock, events, j, k);
    if !Live(s, a) {
      LostForever(s, events[j..k], a);
      assert false;
    }
    if Claims(s, events[j], b) {
      var t := Next(s, events[j]).value;
      ClaimFences(s, events[j], a, b);
      NextKeeps(s, events[j]);
      assert events[j..k][0] == events[j] && events[j..k][1..] == events[j + 1..k];
      LostForever(t, events[j + 1..k], a);
      assert false;
    }
    ChangeNeedsLease(s, events[j], b);
    OneOwner(s, a, b);
  }

  lemma OneOwner(s: System, a: Attempt, b: Attempt)
    requires Live(s, a) && Live(s, b)
    ensures a == b
  {
  }

  lemma NextStarted(s: System, e: Event, a: Attempt)
    requires Next(s, e).Some? && a in s.attempts
    ensures a in Next(s, e).value.attempts
  {
  }

  lemma {:induction false} StaysStarted(s: System, events: seq<Event>, a: Attempt)
    requires After(s, events).Some? && a in s.attempts
    ensures a in After(s, events).value.attempts
    decreases |events|
  {
    if events != [] {
      hide Next;
      NextStarted(s, events[0], a);
      StaysStarted(Next(s, events[0]).value, events[1..], a);
    }
  }

  lemma Started(clock: int, events: seq<Event>, i: nat, j: nat, a: Attempt)
    requires After(Initial(clock), events).Some? && i <= j < |events|
    requires After(Initial(clock), events[..i]).Some? && After(Initial(clock), events[..j]).Some?
    requires Changes(After(Initial(clock), events[..i]).value, events[i], a)
    ensures a in After(Initial(clock), events[..j]).value.attempts
  {
    Midway(clock, events, i);
    hide Inv, Next, Live, Changes;
    ChangeNeedsLease(After(Initial(clock), events[..i]).value, events[i], a);
    Onwards(clock, events, i, j);
    StaysStarted(After(Initial(clock), events[..i]).value, events[i..j], a);
  }

  /* ---------------------------------------------------------------------------------------
     Completion, absorption, acknowledgement.
     --------------------------------------------------------------------------------------- */

  ghost predicate InOrder(returned: seq<State>, v: nat, a: nat, r: nat, u: nat) {
    && v < a < r < u < |returned|
    && returned[v] == Validating && returned[a] == Analyzing && returned[r] == Rendering && returned[u] == Uploading
  }

  /** Where the last of `k` stages taken in order returned. */
  lemma {:induction false} LastPassed(returned: seq<State>, k: nat) returns (i: nat)
    requires 0 < k <= STAGES && Passed(returned) >= k
    ensures i < |returned| && returned[i] == StageState(k - 1) && Passed(returned[..i]) >= k - 1
    decreases |returned|
  {
    var init := returned[..|returned| - 1];
    if Passed(init) >= k {
      i := LastPassed(init, k);
      assert init[..i] == returned[..i];
    } else {
      i := |returned| - 1;
    }
  }

  lemma FourPassed(returned: seq<State>)
    requires Passed(returned) >= 4
    ensures exists v, a, r, u :: InOrder(returned, v, a, r, u)
  {
    var u := LastPassed(returned, 4);
    var r := LastPassed(returned[..u], 3);
    assert returned[..u][..r] == returned[..r];
    var a := LastPassed(returned[..r], 2);
    assert returned[..r][..a] == returned[..a];
    var v := LastPassed(returned[..a], 1);
    assert InOrder(returned, v, a, r, u);
  }

  /** Completion history: whatever crashed, expired or was claimed again before, a completed job
      has full progress, its own stage, no lease and an output, and all four handlers have
      returned normally in order. */
  lemma CompletionHistory(clock: int, events: seq<Event>)
    requires After(Initial(clock), events).Some?
    requires var s := After(Initial(clock), events).value; s.row.Some? && s.row.value.job.state == Completed
    ensures var s := After(Initial(clock), events).value;
            var j := s.row.value.job;
            && j.progress == 100 && j.stage == Completed && j.owner.None? && j.expires.None?
            && s.row.value.output.Some? && j.report.Some?
            && exists v, a, r, u :: InOrder(s.returned, v, a, r, u)
  {
    ReachableInv(clock, events);
    FourPassed(After(Initial(clock), events).value.returned);
  }

  /** The row only disappears, keeps a terminal row exactly as it is, and never loses progress
      or its output. */
  ghost predicate Forward(s: System, t: System) {
    t.row.Some? ==>
      && s.row.Some?
      && (Terminal(s.row.value.job.state) ==> t.row == s.row)
      && s.row.value.job.progress <= t.row.value.job.progress
      && (s.row.value.output.Some? ==> t.row.value.output.Some?)
  }

  lemma NextForward(s: System, e: Event)
    requires Inv(s) && Next(s, e).Some?
    ensures Forward(s, Next(s, e).value)
  {
    hide Passed, AttemptInv, RequestOf;
  }

  /** No step of any run decreases progress or changes a terminal job. */
  lemma {:induction false} AfterForward(s: System, events: seq<Event>)
    requires Inv(s) && After(s, events).Some?
    ensures Forward(s, After(s, events).value)
    decreases |events|
  {
    if events != [] {
      hide Inv, Next;
      NextKeeps(s, events[0]);
      NextForward(s, events[0]);
      AfterForward(Next(s, events[0]).value, events[1..]);
    }
  }

  /** Nothing is acknowledged early: an acknowledged delivery's job is missing or terminal, and
      stays so in every continuation. */
  lemma AcknowledgedClosed(clock: int, events: seq<Event>, more: seq<Event>)
    requires After(Initial(clock), events).Some? && After(Initial(clock), events).value.acknowledged
    requires After(After(Initial(clock), events).value, more).Some?
    ensures Closed(After(Initial(clock), events).value)
    ensures Closed(After(After(Initial(clock), events).value, more).value)
  {
    ReachableInv(clock, events);
    AfterForward(After(Initial(clock), events).value, more);
  }

  /** An attempt's own checks never raise in a reachable state: the resume lookup finds its
      stage, every transition is allowed, and storing a failure raises only after the update
      that completes the job did. */
  lemma OwnChecksPass(clock: int, events: seq<Event>, a: Attempt, report: nat)
    requires After(Initial(clock), events).Some? && a in After(Initial(clock), events).value.attempts
    ensures var st := After(Initial(clock), events).value.attempts[a];
            && (st.pc.Starting? ==> st.copy.state == Queued || StageIndex(st.copy.state).Some?)
            && (RequestOf(st, report).Some? ==>
                  (RequestOf(st, report).value.record.Failure? <==> st.pc.Raising? && st.copy.state == Completed))
  {
    ReachableInv(clock, events);
    var s := After(Initial(clock), events).value;
    assert AttemptInv(s, a, s.attempts[a]);
  }

  /** No terminal worker failure escapes an attempt, so the queue adapter never acknowledges a
      delivery because of one. */
  lemma TerminalFailuresStored(clock: int, events: seq<Event>, a: Attempt)
    requires After(Initial(clock), events).Some? && a in After(Initial(clock), events).value.attempts
    ensures var pc := After(Initial(clock), events).value.attempts[a].pc;
            pc.Finished? && pc.outcome.Escaped? ==> Handled(pc.outcome) == RETRY
  {
    ReachableInv(clock, events);
    var s := After(Initial(clock), events).value;
    assert AttemptInv(s, a, s.attempts[a]);
  }

  /** A stage update is accepted exactly while the attempt's lease is live: a lost-lease error
      always means a lost lease. */
  lemma AcceptedWhileLive(clock: int, events: seq<Event>, a: Attempt, report: nat)
    requires After(Initial(clock), events).Some? && a in After(Initial(clock), events).value.attempts
    requires var st := After(Initial(clock), events).value.attempts[a];
             Steady(st.pc) && RequestOf(st, report).Some?
    ensures var s := After(Initial(clock), events).value;
            var request := RequestOf(s.attempts[a], report).value;
            request.record.Success? && (Updated(s, request.record.value).Some? <==> Live(s, a))
  {
    ReachableInv(clock, events);
    var s := After(Initial(clock), events).value;
    var st := s.attempts[a];
    assert AttemptInv(s, a, st);
    RequestLegal(s, a, st, report);
  }

  /* ---------------------------------------------------------------------------------------
     Recovery.
     --------------------------------------------------------------------------------------- */

  lemma {:induction false} AfterAppend(s: System, xs: seq<Event>, ys: seq<Event>)
    requires After(s, xs).Some?
    ensures After(s, xs + ys) == After(After(s, xs).value, ys)
    decreases |xs|
  {
    AfterSplits(s, xs + ys, |xs|);
    assert (xs + ys)[..|xs|] == xs && (xs + ys)[|xs|..] == ys;
  }

  lemma AfterOne(s: System, e: Event)
    ensures After(s, [e]) == Next(s, e)
  {
    assert [e][1..] == [];
    if Next(s, e).Some? {
      assert After(Next(s, e).value, []) == Next(s, e);
    }
  }

  /** No delivery is settled meanwhile. */
  ghost predicate Unsettled(events: seq<Event>) {
    forall e :: e in events ==> !e.Settle?
  }

  /** An undisturbed attempt about to take stage `i`, or to complete when `i` is past the last. */
  ghost predicate Ready(s: System, a: Attempt, i: nat) {
    && Inv(s) && a in s.attempts && Live(s, a) && !s.attempts[a].leaseLost
    && s.attempts[a].pc == (if i < STAGES then Entering(i) else Completing)
  }

  /** The handler of stage `i` is running, and the row has its state. */
  ghost predicate Running(s: System, a: Attempt, i: nat) {
    && Inv(s) && a in s.attempts && Live(s, a) && !s.attempts[a].leaseLost && i < STAGES
    && s.attempts[a].pc == Handling(i)
  }

  /** At the top of a stage the attempt either resumes its handler or has the update to write. */
  lemma StageEnters(s: System, a: Attempt, i: nat)
    requires Ready(s, a, i) && i < STAGES
    ensures Next(s, Enter(a)).Some?
    ensures var t := Next(s, Enter(a)).value;
            && Inv(t) && a in t.attempts && Live(t, a) && !t.attempts[a].leaseLost
            && t.attempts[a].pc in {Handling(i), Writing(i)}
  {
    hide Inv, Passed;
    NextKeeps(s, Enter(a));
  }

  lemma StageWrites(s: System, a: Attempt, i: nat)
    requires Inv(s) && a in s.attempts && Live(s, a) && !s.attempts[a].leaseLost
    requires s.attempts[a].pc == Writing(i) && i < STAGES
    ensures Next(s, Write(a, 0, Ran)).Some? && Running(Next(s, Write(a, 0, Ran)).value, a, i)
  {
    assert AttemptInv(s, a, s.attempts[a]);
    hide Inv, Passed, RowInv;
    NextKeeps(s, Write(a, 0, Ran));
  }

  lemma StageStarts(s: System, a: Attempt, i: nat) returns (events: seq<Event>)
    requires Ready(s, a, i) && i < STAGES
    ensures Unsettled(events) && After(s, events).Some? && Running(After(s, events).value, a, i)
  {
    StageEnters(s, a, i);
    AfterOne(s, Enter(a));
    events := [Enter(a)];
    var t := Next(s, Enter(a)).value;
    hide Next, Inv, Live;
    if t.attempts[a].pc.Writing? {
      var e := Write(a, 0, Ran);
      StageWrites(t, a, i);
      AfterOne(t, e);
      AfterAppend(s, events, [e]);
      events := events + [e];
    }
  }

  lemma OutputLinks(s: System, a: Attempt)
    requires Running(s, a, 3)
    ensures Next(s, Link(a, Some(0), Ran)).Some?
    ensures var t := Next(s, Link(a, Some(0), Ran)).value; Running(t, a, 3) && t.attempts[a].linked
  {
    hide Passed;
    assert AttemptInv(s, a, s.attempts[a]);
    NextKeeps(s, Link(a, Some(0), Ran));
  }

  lemma HandlerReturns(s: System, a: Attempt, i: nat)
    requires Running(s, a, i) && (i == 3 ==> s.attempts[a].linked)
    ensures Next(s, Return(a)).Some?
    ensures Next(Next(s, Return(a)).value, Proceed(a)).Some?
    ensures Ready(Next(Next(s, Return(a)).value, Proceed(a)).value, a, i + 1)
  {
    hide Passed, Inv;
    NextKeeps(s, Return(a));
    NextKeeps(Next(s, Return(a)).value, Proceed(a));
  }

  lemma StageEnds(s: System, a: Attempt, i: nat) returns (events: seq<Event>)
    requires Running(s, a, i)
    ensures Unsettled(events) && After(s, events).Some? && Ready(After(s, events).value, a, i + 1)
  {
    if i == 3 {
      OutputLinks(s, a);
    }
    hide Running, Ready, Next;
    var linked: seq<Event> := if i == 3 then [Link(a, Some(0), Ran)] else [];
    AfterOne(s, Link(a, Some(0), Ran));
    assert After(s, linked).Some?;
    var t := After(s, linked).value;
    HandlerReturns(t, a, i);
    AfterOne(t, Return(a));
    AfterOne(Next(t, Return(a)).value, Proceed(a));
    AfterAppend(t, [Return(a)], [Proceed(a)]);
    AfterAppend(s, linked, [Return(a)] + [Proceed(a)]);
    events := linked + ([Return(a)] + [Proceed(a)]);
  }

  lemma {:induction false} StagesRun(s: System, a: Attempt, i: nat) returns (events: seq<Event>)
    requires Ready(s, a, i) && i <= STAGES
    ensures Unsettled(events) && After(s, events).Some? && Ready(After(s, events).value, a, STAGES)
    decreases STAGES - i
  {
    hide Ready, Running, Next;
    if i == STAGES {
      events := [];
      assert After(s, []) == Some(s);
    } else {
      var starts := StageStarts(s, a, i);
      var t := After(s, starts).value;
      var ends := StageEnds(t, a, i);
      var u := After(t, ends).value;
      AfterAppend(s, starts, ends);
      var rest := StagesRun(u, a, i + 1);
      AfterAppend(s, starts + ends, rest);
      events := starts + ends + rest;
    }
  }

  /** From any state that satisfies the invariant with an open job, a fresh attempt can, once the
      present lease is over, resume the job and complete it. */
  lemma Resumable(s: System, a: Attempt) returns (events: seq<Event>)
    requires Inv(s) && !Closed(s) && a !in s.attempts
    ensures Unsettled(events) && After(s, events).Some?
    ensures var t := After(s, events).value;
            && t.row.Some? && t.row.value.job.state == Completed
            && a in t.attempts && t.attempts[a].pc == Finished(ReturnedTrue)
  {
    hide Next, Inv, Ready, Closed;
    var r := Claimed(s, a);
    var t := After(s, r).value;
    var rest := StagesRun(t, a, t.attempts[a].pc.stage);
    AfterAppend(s, r, rest);
    var u := After(t, rest).value;
    var e := Write(a, 0, Ran);
    CompletionAccepted(u, a);
    AfterOne(u, e);
    AfterAppend(s, r + rest, [e]);
    events := r + rest + [e];
  }

  /** No job is ever stuck: from every reachable state with an open job a fresh attempt can,
      once the present lease is over, resume it and complete it. */
  lemma NeverStuck(clock: int, before: seq<Event>, a: Attempt) returns (events: seq<Event>)
    requires After(Initial(clock), before).Some?
    requires var s := After(Initial(clock), before).value; !Closed(s) && a !in s.attempts
    ensures var s := After(Initial(clock), before).value;
            && After(s, events).Some?
            && var t := After(s, events).value;
               t.row.Some? && t.row.value.job.state == Completed
  {
    ReachableInv(clock, before);
    events := Resumable(After(Initial(clock), before).value, a);
  }

  lemma CompletionAccepted(s: System, a: Attempt)
    requires Ready(s, a, STAGES)
    ensures Next(s, Write(a, 0, Ran)).Some?
    ensures var t := Next(s, Write(a, 0, Ran)).value;
            && t.row.Some? && t.row.value.job.state == Completed
            && a in t.attempts && t.attempts[a].pc == Finished(ReturnedTrue)
  {
    hide Passed;
    assert AttemptInv(s, a, s.attempts[a]);
  }

  lemma LeaseWaits(s: System)
    requires Inv(s) && !Closed(s)
    ensures var tick := Tick(if s.row.value.job.expires.Some? && s.row.value.job.expires.value > s.clock
                             then s.row.value.job.expires.value else s.clock);
            && Next(s, tick).Some?
            && var t := Next(s, tick).value;
               && !Closed(t) && t.attempts == s.attempts && t.row == s.row
               && (t.row.value.job.expires.Some? ==> t.row.value.job.expires.value <= t.clock)
  {
  }

  lemma ClaimStarts(t: System, a: Attempt)
    requires Inv(t) && !Closed(t) && a !in t.attempts
    requires t.row.value.job.expires.Some? ==> t.row.value.job.expires.value <= t.clock
    ensures Next(t, Claim(a, 60, Ran)).Some?
    ensures var u := Next(t, Claim(a, 60, Ran)).value;
            a in u.attempts && u.attempts[a].pc == Starting && Live(u, a) && !u.attempts[a].leaseLost
  {
    hide Inv, Passed;
  }

  lemma BeginEnters(u: System, a: Attempt)
    requires Inv(u) && a in u.attempts && u.attempts[a].pc == Starting && Live(u, a) && !u.attempts[a].leaseLost
    ensures Next(u, Begin(a, false)).Some?
    ensures var v := Next(u, Begin(a, false)).value;
            && a in v.attempts && v.attempts[a].pc.Entering? && v.attempts[a].pc.stage < STAGES
            && Ready(v, a, v.attempts[a].pc.stage)
  {
    assert AttemptInv(u, a, u.attempts[a]);
    hide Inv, Passed;
    NextKeeps(u, Begin(a, false));
  }

  /** Waiting out the lease, then claiming and finding the resume point. */
  lemma Claimed(s: System, a: Attempt) returns (events: seq<Event>)
    requires Inv(s) && !Closed(s) && a !in s.attempts
    ensures Unsettled(events) && After(s, events).Some?
    ensures var t := After(s, events).value;
            a in t.attempts && t.attempts[a].pc.Entering? && t.attempts[a].pc.stage < STAGES && Ready(t, a, t.attempts[a].pc.stage)
  {
    LeaseWaits(s);
    var j := s.row.value.job;
    hide Inv, Next, Ready, Closed, Live;
    var tick := Tick(if j.expires.Some? && j.expires.value > s.clock then j.expires.value else s.clock);
    AfterOne(s, tick);
    NextKeeps(s, tick);
    var t := Next(s, tick).value;
    var claim := Claim(a, 60, Ran);
    ClaimStarts(t, a);
    AfterOne(t, claim);
    NextKeeps(t, claim);
    AfterAppend(s, [tick], [claim]);
    var u := Next(t, claim).value;
    var begin := Begin(a, false);
    BeginEnters(u, a);
    AfterOne(u, begin);
    AfterAppend(s, [tick] + [claim], [begin]);
    events := [tick] + [claim] + [begin];
  }
}
