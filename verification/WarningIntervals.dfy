/**
 Review warnings: the intervals shown for each phase of a video, and the checks of
 the service that accepts the manifest they are published in.
 */
module WarningIntervals {
  import opened Prelude
  import opened FrameClock

  datatype Phase = DetectionPhase | FramingPhase | OtherPhase

  /** The warning labels, in the order of their texts. */
  datatype Label =
    | DetectionUnavailable | HeldDetectionUnavailable | HeldTargetOutside
    | PanAccelerationExceeded | PanSpeedExceeded | SourceAspectLimited

  function Rank(l: Label): nat {
    match l
    case DetectionUnavailable => 0
    case HeldDetectionUnavailable => 1
    case HeldTargetOutside => 2
    case PanAccelerationExceeded => 3
    case PanSpeedExceeded => 4
    case SourceAspectLimited => 5
  }

  /** One record of the analysis trace. */
  datatype TraceRecord = TraceRecord(
    timestamp: int, skipped: bool, hasBounds: bool, missed: bool, sourceAspectLimited: bool,
    speedExceeded: bool, accelerationExceeded: bool, heldContained: Option<bool>)

  function Flag(l: Label, raised: bool): set<Label> {
    if raised then {l} else {}
  }

  function Warnings(r: TraceRecord, phase: Phase): set<Label> {
    match phase
    case DetectionPhase => Flag(DetectionUnavailable, !r.skipped && !r.hasBounds)
    case FramingPhase =>
      Flag(HeldDetectionUnavailable, r.missed) + Flag(SourceAspectLimited, r.sourceAspectLimited)
      + Flag(PanSpeedExceeded, r.speedExceeded) + Flag(PanAccelerationExceeded, r.accelerationExceeded)
      + Flag(HeldTargetOutside, r.heldContained == Some(false))
    case OtherPhase => {}
  }

  datatype Warning = Warning(start: int, end: int, name: Label)

  /** Records as the trace loader accepts them: dated by a clock that advances. */
  ghost predicate Ordered(trace: seq<TraceRecord>) {
    forall i, j :: 0 <= i < j < |trace| ==> trace[i].timestamp < trace[j].timestamp
  }

  predicate Carries(trace: seq<TraceRecord>, phase: Phase, l: Label, i: nat)
    requires i < |trace|
  {
    l in Warnings(trace[i], phase)
  }

  /** Frames `i` to `m` all carry the label, and `i` is the first to. */
  ghost predicate RunFrom(trace: seq<TraceRecord>, phase: Phase, l: Label, i: nat, m: nat) {
    && i < m <= |trace|
    && (forall k :: i <= k < m ==> Carries(trace, phase, l, k))
    && (i == 0 || !Carries(trace, phase, l, i - 1))
  }

  /** A maximal run of frames carrying a label. */
  ghost predicate MaximalRun(trace: seq<TraceRecord>, phase: Phase, l: Label, i: nat, j: nat) {
    RunFrom(trace, phase, l, i, j) && (j == |trace| || !Carries(trace, phase, l, j))
  }

  /** A run is shown until the first frame without the label, or the last frame. */
  function RunEnd(trace: seq<TraceRecord>, j: nat): int
    requires 0 < j <= |trace|
  {
    if j < |trace| then trace[j].timestamp else trace[j - 1].timestamp
  }

  function RunWarning(trace: seq<TraceRecord>, l: Label, i: nat, j: nat): Warning
    requires i < j <= |trace|
  {
    Warning(trace[i].timestamp, RunEnd(trace, j), l)
  }

  ghost predicate Distinct(ws: seq<Warning>) {
    forall a, b :: 0 <= a < b < |ws| ==> ws[a] != ws[b]
  }

  ghost predicate IsRun(trace: seq<TraceRecord>, phase: Phase, w: Warning, i: nat, j: nat) {
    MaximalRun(trace, phase, w.name, i, j) && w == RunWarning(trace, w.name, i, j)
  }

  /** The warnings are exactly the maximal runs of frames, each once. */
  ghost predicate Exact(trace: seq<TraceRecord>, phase: Phase, ws: seq<Warning>) {
    && Distinct(ws)
    && (forall w :: w in ws ==> exists i: nat, j: nat :: IsRun(trace, phase, w, i, j))
    && (forall l, i: nat, j: nat :: MaximalRun(trace, phase, l, i, j) ==> RunWarning(trace, l, i, j) in ws)
  }

  /* ---------------------------------------------------------------------------------------
     The loop.
     --------------------------------------------------------------------------------------- */

  /** Ends the active labels that are not current, in any order. */
  method CloseLabels(active: map<Label, int>, current: set<Label>, timestamp: int)
    returns (kept: map<Label, int>, closed: seq<Warning>)
    ensures kept.Keys == active.Keys * current && forall l :: l in kept ==> kept[l] == active[l]
    ensures forall w :: w in closed <==> w.name in active.Keys - current && w == Warning(active[w.name], timestamp, w.name)
    ensures Distinct(closed) && |closed| == |active.Keys - current|
  {
    kept, closed := active, [];
    var todo := active.Keys - current;
    while todo != {}
      invariant todo <= active.Keys - current
      invariant kept.Keys == active.Keys * current + todo && forall l :: l in kept ==> kept[l] == active[l]
      invariant forall w :: w in closed <==>
        w.name in active.Keys - current - todo && w == Warning(active[w.name], timestamp, w.name)
      invariant Distinct(closed) && |closed| + |todo| == |active.Keys - current|
      decreases |todo|
    {
      var l :| l in todo;
      closed := closed + [Warning(active[l], timestamp, l)];
      kept := kept - {l};
      todo := todo - {l};
    }
  }

  /** The labels active after `m` frames, with the frames they started in. */
  ghost predicate ActiveAfter(trace: seq<TraceRecord>, phase: Phase, m: nat, active: map<Label, int>, from: map<Label, nat>)
    requires m <= |trace|
  {
    && active.Keys == from.Keys
    && (forall l :: l in active <==> m > 0 && Carries(trace, phase, l, m - 1))
    && (forall l :: l in active ==> RunFrom(trace, phase, l, from[l], m) && active[l] == trace[from[l]].timestamp)
  }

  /** The starting frames once frame `m` has the current labels. */
  ghost function StartsAfter(from: map<Label, nat>, current: set<Label>, m: nat): map<Label, nat> {
    map l | l in current :: if l in from then from[l] else m
  }

  /** The runs that ended within the first `m` frames, each once. */
  ghost predicate ClosedAfter(trace: seq<TraceRecord>, phase: Phase, m: nat, ws: seq<Warning>)
    requires m <= |trace|
  {
    && Distinct(ws)
    && (forall w :: w in ws ==> exists i: nat, j: nat :: j < m && IsRun(trace, phase, w, i, j))
    && (forall l, i: nat, j: nat :: j < m && MaximalRun(trace, phase, l, i, j) ==> RunWarning(trace, l, i, j) in ws)
  }

  lemma RunUnique(trace: seq<TraceRecord>, phase: Phase, l: Label, i: nat, k: nat, m: nat)
    requires RunFrom(trace, phase, l, i, m) && RunFrom(trace, phase, l, k, m)
    ensures i == k
  {
  }

  /** Runs that end at frame `m` are those of the labels active before it and not current. */
  lemma ClosedGrows(trace: seq<TraceRecord>, phase: Phase, m: nat, ws: seq<Warning>, active: map<Label, int>,
                    from: map<Label, nat>, closed: seq<Warning>)
    requires Ordered(trace) && m < |trace| && ActiveAfter(trace, phase, m, active, from)
    requires ClosedAfter(trace, phase, m, ws) && Distinct(closed)
    requires forall w :: w in closed <==>
      && w.name in active.Keys - Warnings(trace[m], phase)
      && w == Warning(active[w.name], trace[m].timestamp, w.name)
    ensures ClosedAfter(trace, phase, m + 1, ws + closed)
  {
    forall w | w in closed ensures exists i: nat, j: nat :: j < m + 1 && IsRun(trace, phase, w, i, j) {
      assert IsRun(trace, phase, w, from[w.name], m);
    }
    forall l, i: nat | MaximalRun(trace, phase, l, i, m) ensures RunWarning(trace, l, i, m) in closed {
      assert Carries(trace, phase, l, m - 1);
      RunUnique(trace, phase, l, i, from[l], m);
    }
    forall w | w in ws ensures w !in closed {
      var i: nat, j: nat :| j < m && IsRun(trace, phase, w, i, j);
      assert w.end == trace[j].timestamp;
    }
    DistinctAppend(ws, closed);
  }

  lemma DistinctAppend(a: seq<Warning>, b: seq<Warning>)
    requires Distinct(a) && Distinct(b) && forall w :: w in a ==> w !in b
    ensures Distinct(a + b)
  {
    forall x, y | 0 <= x < y < |a + b| ensures (a + b)[x] != (a + b)[y] {
      if x < |a| <= y {
        assert a[x] in a && b[y - |a|] in b;
      }
    }
  }

  /** At the end the runs still open are those of the active labels. */
  lemma OpenEnds(trace: seq<TraceRecord>, phase: Phase, ws: seq<Warning>, active: map<Label, int>, from: map<Label, nat>,
                 closed: seq<Warning>)
    requires Ordered(trace) && trace != [] && ActiveAfter(trace, phase, |trace|, active, from)
    requires ClosedAfter(trace, phase, |trace|, ws) && Distinct(closed)
    requires forall w :: w in closed <==>
      && w.name in active && w == Warning(active[w.name], trace[|trace| - 1].timestamp, w.name)
    ensures Exact(trace, phase, ws + closed)
  {
    var n := |trace|;
    forall w | w in closed ensures exists i: nat, j: nat :: IsRun(trace, phase, w, i, j) {
      assert IsRun(trace, phase, w, from[w.name], n);
    }
    forall l, i: nat | MaximalRun(trace, phase, l, i, n) ensures RunWarning(trace, l, i, n) in closed {
      assert Carries(trace, phase, l, n - 1);
      RunUnique(trace, phase, l, i, from[l], n);
    }
    forall w | w in ws ensures w !in closed {
      var i: nat, j: nat :| j < n && IsRun(trace, phase, w, i, j);
      assert w.end == trace[j].timestamp && !Carries(trace, phase, w.name, j);
    }
    DistinctAppend(ws, closed);
  }

  /** The loop of `_review_warning_intervals`, before sorting: exactly the maximal runs. */
  method CollectWarnings(trace: seq<TraceRecord>, phase: Phase) returns (ws: seq<Warning>)
    requires Ordered(trace)
    ensures Exact(trace, phase, ws)
  {
    hide Warnings, ActiveAfter, ClosedAfter, Exact, Distinct;
    ws := [];
    var active: map<Label, int> := map[];
    ghost var from: map<Label, nat> := map[];
    NothingYet(trace, phase);
    var end := 0;
    for m := 0 to |trace|
      invariant ActiveAfter(trace, phase, m, active, from) && ClosedAfter(trace, phase, m, ws)
      invariant m > 0 ==> end == trace[m - 1].timestamp
    {
      end := trace[m].timestamp;
      var current := Warnings(trace[m], phase);
      var kept, closed := CloseLabels(active, current, end);
      ClosedGrows(trace, phase, m, ws, active, from, closed);
      ActiveGrows(trace, phase, m, active, from, kept);
      ws := ws + closed;
      active := (map l | l in current :: end) + kept;
      from := StartsAfter(from, current, m);
    }
    var _, open := CloseLabels(active, {}, end);
    if trace != [] {
      OpenEnds(trace, phase, ws, active, from, open);
    } else {
      assert active.Keys - {} == active.Keys;
      NothingAtAll(trace, phase, ws, active, from, open);
    }
    ws := ws + open;
  }

  lemma NothingYet(trace: seq<TraceRecord>, phase: Phase)
    ensures ActiveAfter(trace, phase, 0, map[], map[]) && ClosedAfter(trace, phase, 0, [])
  {
  }

  lemma NothingAtAll(trace: seq<TraceRecord>, phase: Phase, ws: seq<Warning>, active: map<Label, int>,
                     from: map<Label, nat>, closed: seq<Warning>)
    requires trace == [] && ActiveAfter(trace, phase, 0, active, from) && ClosedAfter(trace, phase, 0, ws)
    requires |closed| == |active.Keys|
    ensures Exact(trace, phase, ws + closed)
  {
    assert active.Keys == {};
    assert ws + closed == ws;
  }

  lemma ActiveGrows(trace: seq<TraceRecord>, phase: Phase, m: nat, active: map<Label, int>, from: map<Label, nat>,
                    kept: map<Label, int>)
    requires m < |trace| && ActiveAfter(trace, phase, m, active, from)
    requires kept.Keys == active.Keys * Warnings(trace[m], phase) && forall l :: l in kept ==> kept[l] == active[l]
    ensures var current := Warnings(trace[m], phase);
            ActiveAfter(trace, phase, m + 1, (map l | l in current :: trace[m].timestamp) + kept,
                        StartsAfter(from, current, m))
  {
    hide Warnings, RunFrom;
    forall l | l in Warnings(trace[m], phase) ensures RunFrom(trace, phase, l, StartsAfter(from, Warnings(trace[m], phase), m)[l], m + 1) {
      RunGrows(trace, phase, l, if l in from then from[l] else m, m);
    }
  }

  lemma RunGrows(trace: seq<TraceRecord>, phase: Phase, l: Label, i: nat, m: nat)
    requires m < |trace| && Carries(trace, phase, l, m)
    requires RunFrom(trace, phase, l, i, m) || (i == m && (m > 0 ==> !Carries(trace, phase, l, m - 1)))
    ensures RunFrom(trace, phase, l, i, m + 1)
  {
    hide Warnings;
  }

  /* ---------------------------------------------------------------------------------------
     Order and truncation.
     --------------------------------------------------------------------------------------- */

  predicate Precedes(a: Warning, b: Warning) {
    a.start < b.start || (a.start == b.start && Rank(a.name) <= Rank(b.name))
  }

  function Insert(w: Warning, ws: seq<Warning>): seq<Warning> {
    if ws == [] || Precedes(w, ws[0]) then [w] + ws else [ws[0]] + Insert(w, ws[1..])
  }

  function Sort(ws: seq<Warning>): seq<Warning> {
    if ws == [] then [] else Insert(ws[0], Sort(ws[1..]))
  }

  ghost predicate Sorted(ws: seq<Warning>) {
    forall a, b :: 0 <= a < b < |ws| ==> Precedes(ws[a], ws[b])
  }

  lemma {:induction false} InsertKeeps(w: Warning, ws: seq<Warning>)
    ensures multiset(Insert(w, ws)) == multiset(ws) + multiset{w}
    ensures Insert(w, ws) != [] && Insert(w, ws)[0] in {w} + if ws == [] then {} else {ws[0]}
  {
    hide Precedes;
    if ws != [] && !Precedes(w, ws[0]) {
      InsertKeeps(w, ws[1..]);
      assert ws == [ws[0]] + ws[1..];
    }
  }

  /** Order between neighbours is order throughout. */
  ghost predicate Stepwise(ws: seq<Warning>) {
    forall i :: 0 < i < |ws| ==> Precedes(ws[i - 1], ws[i])
  }

  lemma {:induction false} StepwiseSorted(ws: seq<Warning>, a: nat, b: nat)
    requires Stepwise(ws) && a < b < |ws|
    ensures Precedes(ws[a], ws[b])
    decreases b
  {
    if a < b - 1 {
      StepwiseSorted(ws, a, b - 1);
      assert Precedes(ws[b - 1], ws[b]);
    }
  }

  lemma {:induction false} InsertStepwise(w: Warning, ws: seq<Warning>)
    requires Stepwise(ws)
    ensures Stepwise(Insert(w, ws))
  {
    if ws != [] && !Precedes(w, ws[0]) {
      var rest := Insert(w, ws[1..]);
      InsertStepwise(w, ws[1..]);
      InsertKeeps(w, ws[1..]);
      assert Precedes(ws[0], rest[0]);
    }
  }

  lemma {:induction false} SortStepwise(ws: seq<Warning>)
    ensures Stepwise(Sort(ws)) && multiset(Sort(ws)) == multiset(ws)
  {
    if ws != [] {
      hide Stepwise, Insert;
      SortStepwise(ws[1..]);
      InsertStepwise(ws[0], Sort(ws[1..]));
      InsertKeeps(ws[0], Sort(ws[1..]));
      assert ws == [ws[0]] + ws[1..];
    } else {
      assert Stepwise([]);
    }
  }

  lemma SortSorted(ws: seq<Warning>)
    ensures Sorted(Sort(ws)) && multiset(Sort(ws)) == multiset(ws)
  {
    hide Sort, Stepwise, Precedes;
    SortStepwise(ws);
    forall a: nat, b: nat | a < b < |Sort(ws)| ensures Precedes(Sort(ws)[a], Sort(ws)[b]) {
      StepwiseSorted(Sort(ws), a, b);
    }
  }

  lemma DistinctMultiset(ws: seq<Warning>)
    ensures Distinct(ws) <==> forall w :: multiset(ws)[w] <= 1
  {
    if Distinct(ws) {
      forall w ensures multiset(ws)[w] <= 1 {
        CountAtMostOne(ws, w);
      }
    } else {
      var a, b :| 0 <= a < b < |ws| && ws[a] == ws[b];
      var w, before := ws[b], ws[..b];
      assert ws == before + [w] + ws[b + 1..];
      assert multiset(ws) == multiset(before) + multiset{w} + multiset(ws[b + 1..]);
      assert before[a] == w && w in multiset(before);
      assert multiset(ws)[w] >= 2;
    }
  }

  lemma {:induction false} CountAtMostOne(ws: seq<Warning>, w: Warning)
    requires Distinct(ws)
    ensures multiset(ws)[w] <= 1
  {
    if ws != [] {
      CountAtMostOne(ws[1..], w);
      assert ws == [ws[0]] + ws[1..];
      if ws[0] == w {
        assert w !in ws[1..];
      }
    }
  }

  /** Sorting keeps exactness. */
  lemma SortExact(trace: seq<TraceRecord>, phase: Phase, ws: seq<Warning>)
    requires Exact(trace, phase, ws)
    ensures Exact(trace, phase, Sort(ws)) && Sorted(Sort(ws))
  {
    hide IsRun, MaximalRun, Sort, Sorted;
    SortSorted(ws);
    DistinctMultiset(ws);
    DistinctMultiset(Sort(ws));
    assert forall w :: w in ws <==> w in multiset(ws);
    assert forall w :: w in Sort(ws) <==> w in multiset(Sort(ws));
  }

  const MAX_INTERVALS: nat := 100

  /** What is left of `all` by truncation. */
  ghost predicate Truncates(all: seq<Warning>, shown: seq<Warning>) {
    shown == if |all| <= 100 then all else all[..100]
  }

  /** The first hundred of the exact intervals, in order of start and label. */
  ghost predicate ShownOf(trace: seq<TraceRecord>, phase: Phase, shown: seq<Warning>) {
    exists all: seq<Warning> :: Truncates(all, shown) && Exact(trace, phase, all) && Sorted(all)
  }

  /** `_review_warning_intervals`. */
  method ReviewWarnings(trace: seq<TraceRecord>, phase: Phase) returns (shown: seq<Warning>)
    requires Ordered(trace)
    ensures ShownOf(trace, phase, shown)
  {
    hide Exact, Sorted;
    var ws := CollectWarnings(trace, phase);
    SortExact(trace, phase, ws);
    var sorted := Sort(ws);
    shown := if |sorted| <= MAX_INTERVALS then sorted else sorted[..MAX_INTERVALS];
    assert Truncates(sorted, shown);
  }

  /** Intervals of the same label are disjoint: the earlier ends before the later starts. */
  lemma SameLabelDisjoint(trace: seq<TraceRecord>, phase: Phase, ws: seq<Warning>, v: Warning, w: Warning)
    requires Ordered(trace) && Exact(trace, phase, ws) && v in ws && w in ws && v.name == w.name && v.start <= w.start
    ensures v == w || v.end < w.start
  {
    var i: nat, j: nat :| IsRun(trace, phase, v, i, j);
    var k: nat, m: nat :| IsRun(trace, phase, w, k, m);
    hide Warnings;
    RunsDisjoint(trace, phase, v.name, i, j, k, m);
  }

  lemma RunsDisjoint(trace: seq<TraceRecord>, phase: Phase, l: Label, i: nat, j: nat, k: nat, m: nat)
    requires MaximalRun(trace, phase, l, i, j) && MaximalRun(trace, phase, l, k, m)
    ensures (i == k && j == m) || j < k || m < i
  {
    hide Warnings;
  }

  /* ---------------------------------------------------------------------------------------
     The consumer.
     --------------------------------------------------------------------------------------- */

  /** An interval as the manifest carries it. */
  datatype RawInterval = RawInterval(start: Option<int>, end: Option<int>, name: Label)

  predicate RawAccepted(r: RawInterval, duration: int) {
    && r.start.Some? && 0 <= r.start.value <= duration
    && (r.end.Some? ==> r.start.value <= r.end.value <= duration)
  }

  /** `validWarningIntervals`: all intervals within the reported duration, or none. */
  method ValidWarningIntervals(raw: seq<RawInterval>, duration: int) returns (intervals: seq<RawInterval>, ok: bool)
    ensures ok <==> |raw| <= 100 && forall i :: 0 <= i < |raw| ==> RawAccepted(raw[i], duration)
    ensures intervals == if ok then raw else []
  {
    intervals := [];
    if |raw| > MAX_INTERVALS {
      return [], false;
    }
    for i := 0 to |raw|
      invariant intervals == raw[..i]
      invariant forall j :: 0 <= j < i ==> RawAccepted(raw[j], duration)
    {
      var interval := raw[i];
      if interval.start.None? || interval.start.value < 0 || interval.start.value > duration
         || (interval.end.Some? && (interval.end.value < interval.start.value || interval.end.value > duration)) {
        return [], false;
      }
      intervals := intervals + [interval];
    }
    return intervals, true;
  }

  /** A trace aligned with the frame clock, as its loader demands. */
  ghost predicate AlignedTrace(c: Clock, trace: seq<TraceRecord>)
    requires c.rate != 0.0
  {
    && |trace| == ExpectedFrames(c)
    && forall i: nat :: i < |trace| ==> trace[i].timestamp == Timestamp(c.rate, i)
  }

  lemma AlignedOrdered(c: Clock, trace: seq<TraceRecord>)
    requires ValidClock(c) && c.rate <= 1000.0 && AlignedTrace(c, trace)
    ensures Ordered(trace)
  {
    hide Timestamp, ExpectedFrames;
    forall i: nat, j: nat | i < j < |trace| ensures trace[i].timestamp < trace[j].timestamp {
      TimestampsOrdered(c.rate, i, j);
    }
  }

  lemma {:induction false} TimestampsOrdered(rate: real, i: nat, j: nat)
    requires 0.0 < rate <= 1000.0 && i < j
    ensures Timestamp(rate, i) < Timestamp(rate, j)
    decreases j
  {
    hide Timestamp;
    StrictlyIncreasing(rate, j - 1);
    if i < j - 1 {
      TimestampsOrdered(rate, i, j - 1);
    }
  }

  /** Every interval of an aligned trace lies within the reported duration, so the consumer
      accepts whatever is shown of them. */
  lemma ShownAccepted(c: Clock, trace: seq<TraceRecord>, phase: Phase, ws: seq<Warning>, w: Warning)
    requires ValidClock(c) && c.rate <= 1000.0 && AlignedTrace(c, trace) && Exact(trace, phase, ws) && w in ws
    ensures RawAccepted(RawInterval(Some(w.start), Some(w.end), w.name), DurationMs(c))
  {
    hide Timestamp, ExpectedFrames, DurationMs, Carries;
    AlignedOrdered(c, trace);
    var i: nat, j: nat :| IsRun(trace, phase, w, i, j);
    TimestampsWithinDuration(c, i);
    TimestampsWithinDuration(c, if j < |trace| then j else j - 1);
  }

  /** What the worker demands of the timing it publishes, and what the consumer does. */
  predicate TimingPublished(c: Clock) {
    && 0.0 < c.rate <= 1000.0
    && 0 < DurationMs(c) <= 7 * 24 * 60 * 60 * 1000
    && 0 < ExpectedFrames(c) <= 10000000
  }

  /** A whole review phase, published and consumed: of any trace the worker may publish, the
      intervals shown are accepted. */
  method PublishPhase(c: Clock, trace: seq<TraceRecord>, phase: Phase) returns (shown: seq<Warning>, accepted: bool)
    requires ValidClock(c) && TimingPublished(c) && AlignedTrace(c, trace)
    ensures accepted && |shown| <= 100
  {
    hide Timestamp, ExpectedFrames, DurationMs, Exact, AlignedTrace;
    AlignedOrdered(c, trace);
    shown := ReviewWarnings(trace, phase);
    ghost var all :| Truncates(all, shown) && Exact(trace, phase, all) && Sorted(all);
    var raw := seq(|shown|, i requires 0 <= i < |shown| =>
      RawInterval(Some(shown[i].start), Some(shown[i].end), shown[i].name));
    forall i | 0 <= i < |raw| ensures RawAccepted(raw[i], DurationMs(c)) {
      assert all[i] == shown[i];
      ShownAccepted(c, trace, phase, all, shown[i]);
    }
    var _, ok := ValidWarningIntervals(raw, DurationMs(c));
    accepted := ok;
  }
}
