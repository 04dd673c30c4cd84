/**
 Target association (`TargetFrameAnalyzer`): which detection is the selected athlete, how far
 it may have moved, and the bounded evidence kept of the choice.
 */
module Association {
  import opened Prelude
  import opened Geometry
  import opened Motion

  datatype Point = Point(x: real, y: real)

  datatype Detection = Detection(bounds: Rect, confidence: real)

  datatype Outcome =
    | SelectedContainingTap | SelectedNearestTap | AssociatedContaining | AssociatedNearest
    | NoDetections | NoAcceptedCandidate | DetectionSkipped

  datatype Candidate = Candidate(
    originalIndex: nat, detection: Detection, containsReference: bool, centerDistance: real, selected: bool)

  datatype Evidence = Evidence(
    reference: Point, outcome: Outcome, count: nat, candidates: seq<Candidate>, truncated: bool)

  datatype Observation = Observation(
    frame: nat, timestamp: int, detection: Option<Detection>, outcome: Outcome, evidence: Option<Evidence>)

  const MAX_CANDIDATES: nat := 32
  const MAX_DIAGONALS := 1.5

  function CenterPoint(r: Rect): Point {
    Point(r.CenterX(), r.CenterY())
  }

  predicate ContainsPoint(r: Rect, p: Point) {
    r.x <= p.x <= r.Right() && r.y <= p.y <= r.Bottom()
  }

  function Hypot(root: Root, x: real, y: real): real {
    root(x * x + y * y)
  }

  function DistanceSquared(d: Detection, p: Point): real {
    (d.bounds.CenterX() - p.x) * (d.bounds.CenterX() - p.x) + (d.bounds.CenterY() - p.y) * (d.bounds.CenterY() - p.y)
  }

  function CenterDistance(root: Root, d: Detection, p: Point): real {
    Hypot(root, d.bounds.CenterX() - p.x, d.bounds.CenterY() - p.y)
  }

  /** The gate: the center moved by at most 1.5 diagonals of the reference box. */
  predicate WithinGate(root: Root, candidate: Rect, reference: Rect) {
    Hypot(root, candidate.CenterX() - reference.CenterX(), candidate.CenterY() - reference.CenterY())
      <= MAX_DIAGONALS * Hypot(root, reference.width, reference.height)
  }

  lemma SquaresOrdered(r: real, t: real)
    requires r >= 0.0 && t >= 0.0
    ensures r <= t <==> r * r <= t * t
  {
    if r <= t {
      NonNegative(t - r, t + r, t * t - r * r);
    } else {
      Positive(r - t, r + t, r * r - t * t);
    }
  }

  lemma SumOfSquares(x: real, y: real)
    ensures x * x + y * y >= 0.0
  {
    NonNegative(Abs(x), Abs(x), x * x);
    NonNegative(Abs(y), Abs(y), y * y);
  }

  /** In squares: a distance of at most 2.25 times the squared diagonal. */
  lemma GateMeans(root: Root, candidate: Rect, reference: Rect)
    requires IsSqrt(root)
    ensures WithinGate(root, candidate, reference)
       <==> DistanceSquared(Detection(candidate, 0.0), CenterPoint(reference))
            <= 2.25 * (reference.width * reference.width + reference.height * reference.height)
  {
    var dx, dy := candidate.CenterX() - reference.CenterX(), candidate.CenterY() - reference.CenterY();
    SumOfSquares(dx, dy);
    SumOfSquares(reference.width, reference.height);
    var r, t := Hypot(root, dx, dy), Hypot(root, reference.width, reference.height);
    SquaresOrdered(r, 1.5 * t);
    assert (1.5 * t) * (1.5 * t) == 2.25 * (t * t);
  }

  /* ---------------------------------------------------------------------------------------
     Selection.
     --------------------------------------------------------------------------------------- */

  predicate Eligible(ds: seq<Detection>, reference: Point, containing: bool, i: nat)
    requires i < |ds|
  {
    containing ==> ContainsPoint(ds[i].bounds, reference)
  }

  /** The first nearest detection among the first `n`, of those containing the reference only
      where `containing` is set. */
  function Nearest(ds: seq<Detection>, reference: Point, containing: bool, n: nat): Option<nat>
    requires n <= |ds|
    ensures Nearest(ds, reference, containing, n).Some? ==> Nearest(ds, reference, containing, n).value < n
  {
    if n == 0 then None
    else
      var best := Nearest(ds, reference, containing, n - 1);
      if !Eligible(ds, reference, containing, n - 1) then best
      else if best.None? || DistanceSquared(ds[n - 1], reference) < DistanceSquared(ds[best.value], reference)
      then Some(n - 1) else best
  }

  /** `_select`: nearest of the containing detections, of all when none contains. */
  function Select(ds: seq<Detection>, reference: Point): (i: nat)
    requires |ds| > 0
    ensures i < |ds|
  {
    var containing := Nearest(ds, reference, true, |ds|);
    NearestMeans(ds, reference, false, |ds|);
    if containing.Some? then containing.value else Nearest(ds, reference, false, |ds|).value
  }

  lemma {:induction false} NearestMeans(ds: seq<Detection>, reference: Point, containing: bool, n: nat)
    requires n <= |ds|
    ensures Nearest(ds, reference, containing, n).None? <==>
              forall j: nat :: j < n ==> !Eligible(ds, reference, containing, j)
    ensures Nearest(ds, reference, containing, n).Some? ==>
              var i := Nearest(ds, reference, containing, n).value;
              && i < n && Eligible(ds, reference, containing, i)
              && forall j: nat :: j < n && Eligible(ds, reference, containing, j) ==>
                   && DistanceSquared(ds[i], reference) <= DistanceSquared(ds[j], reference)
                   && (j < i ==> DistanceSquared(ds[i], reference) < DistanceSquared(ds[j], reference))
  {
    if n > 0 {
      hide DistanceSquared, ContainsPoint;
      NearestMeans(ds, reference, containing, n - 1);
    }
  }

  /** The selection prefers detections containing the reference, then the nearest center, then
      the earliest. */
  lemma SelectMeans(ds: seq<Detection>, reference: Point)
    requires |ds| > 0
    ensures var i := Select(ds, reference);
            var contains := ContainsPoint(ds[i].bounds, reference);
            && (contains <==> exists j: nat :: j < |ds| && ContainsPoint(ds[j].bounds, reference))
            && forall j: nat :: j < |ds| && (contains ==> ContainsPoint(ds[j].bounds, reference)) ==>
                 && DistanceSquared(ds[i], reference) <= DistanceSquared(ds[j], reference)
                 && (j < i ==> DistanceSquared(ds[i], reference) < DistanceSquared(ds[j], reference))
  {
    hide DistanceSquared, ContainsPoint;
    NearestMeans(ds, reference, true, |ds|);
    NearestMeans(ds, reference, false, |ds|);
    var i := Select(ds, reference);
    assert forall j: nat :: j < |ds| ==>
      Eligible(ds, reference, false, j) && (Eligible(ds, reference, true, j) <==> ContainsPoint(ds[j].bounds, reference));
  }

  /* ---------------------------------------------------------------------------------------
     Evidence.
     --------------------------------------------------------------------------------------- */

  /** One candidate per detection; `selected` marks one of them, or none. */
  function Candidates(root: Root, ds: seq<Detection>, reference: Point, selected: Option<nat>): seq<Candidate> {
    seq(|ds|, i requires 0 <= i < |ds| =>
      Candidate(i, ds[i], ContainsPoint(ds[i].bounds, reference), CenterDistance(root, ds[i], reference), selected == Some(i)))
  }

  /** The indexes kept of a long list: the first ones, the last of them giving way to a selected
      one beyond. */
  function RetainedIndexes(selected: nat): set<nat> {
    var all := Upto(MAX_CANDIDATES) + {selected};
    if |all| > MAX_CANDIDATES then all - {MAX_CANDIDATES - 1} else all
  }

  function Upto(n: nat): (s: set<nat>)
    ensures forall i: nat :: i in s <==> i < n
    ensures |s| == n
  {
    if n == 0 then {} else Upto(n - 1) + {n - 1}
  }

  function Filtered(cs: seq<Candidate>, keep: set<nat>): seq<Candidate> {
    if cs == [] then []
    else
      var rest := Filtered(cs[..|cs| - 1], keep);
      var last := cs[|cs| - 1];
      if last.originalIndex in keep then rest + [last] else rest
  }

  /** `_retained_candidates`. */
  function Retained(cs: seq<Candidate>, selected: nat): seq<Candidate> {
    if |cs| <= MAX_CANDIDATES then cs else Filtered(cs, RetainedIndexes(selected))
  }

  function EvidenceOf(root: Root, ds: seq<Detection>, reference: Point, outcome: Outcome, selected: Option<nat>): Evidence {
    var cs := Candidates(root, ds, reference, selected);
    var kept := Retained(cs, if selected.Some? then selected.value else 0);
    Evidence(reference, outcome, |cs|, kept, |kept| < |cs|)
  }

  function SelectedCount(cs: seq<Candidate>): nat {
    if cs == [] then 0 else SelectedCount(cs[..|cs| - 1]) + if cs[|cs| - 1].selected then 1 else 0
  }

  /** What constructing a candidate and the evidence checks. */
  ghost predicate SoundEvidence(e: Evidence) {
    && (forall i :: 0 <= i < |e.candidates| ==> e.candidates[i].centerDistance >= 0.0)
    && |e.candidates| <= MAX_CANDIDATES
    && e.count >= |e.candidates|
    && (e.truncated <==> e.count > |e.candidates|)
    && (forall i, j :: 0 <= i < j < |e.candidates| ==> e.candidates[i].originalIndex < e.candidates[j].originalIndex)
    && (match e.outcome
        case NoDetections => e.count == 0 && SelectedCount(e.candidates) == 0
        case NoAcceptedCandidate => SelectedCount(e.candidates) == 0
        case _ => SelectedCount(e.candidates) == 1)
  }

  /** What constructing an observation checks. */
  ghost predicate SoundObservation(o: Observation) {
    && o.timestamp >= 0
    && (o.outcome == DetectionSkipped ==> o.detection.None? && o.evidence.None?)
    && (o.evidence.Some? ==>
          var cs := o.evidence.value.candidates;
          && SoundEvidence(o.evidence.value) && o.evidence.value.outcome == o.outcome
          && (match o.detection
              case None => forall i :: 0 <= i < |cs| ==> !cs[i].selected
              case Some(d) => exists i :: 0 <= i < |cs| && cs[i].selected && cs[i].detection == d))
  }

  /** A list of candidates in index order, of which at most `selected` is marked. */
  ghost predicate Listed(cs: seq<Candidate>, bound: nat, selected: Option<nat>) {
    && (forall i :: 0 <= i < |cs| ==> cs[i].originalIndex < bound && cs[i].centerDistance >= 0.0)
    && (forall i, j :: 0 <= i < j < |cs| ==> cs[i].originalIndex < cs[j].originalIndex)
    && (forall i :: 0 <= i < |cs| ==> (cs[i].selected <==> selected == Some(cs[i].originalIndex)))
  }

  lemma ListedInit(cs: seq<Candidate>, bound: nat, selected: Option<nat>)
    requires Listed(cs, bound, selected) && cs != []
    requires forall i :: 0 <= i < |cs| ==> cs[i].originalIndex == i
    ensures Listed(cs[..|cs| - 1], |cs| - 1, selected)
  {
  }

  lemma ListedAppend(cs: seq<Candidate>, c: Candidate, selected: Option<nat>)
    requires Listed(cs, c.originalIndex, selected) && c.centerDistance >= 0.0
    requires c.selected <==> selected == Some(c.originalIndex)
    ensures Listed(cs, c.originalIndex + 1, selected) && Listed(cs + [c], c.originalIndex + 1, selected)
  {
  }

  lemma {:induction false} FilteredListed(cs: seq<Candidate>, keep: set<nat>, selected: Option<nat>)
    requires Listed(cs, |cs|, selected) && forall i :: 0 <= i < |cs| ==> cs[i].originalIndex == i
    ensures Listed(Filtered(cs, keep), |cs|, selected)
  {
    if cs != [] {
      var init, last := cs[..|cs| - 1], cs[|cs| - 1];
      ListedInit(cs, |cs|, selected);
      assert last.centerDistance >= 0.0 && (last.selected <==> selected == Some(last.originalIndex));
      hide Listed;
      FilteredListed(init, keep, selected);
      ListedAppend(Filtered(init, keep), last, selected);
    }
  }

  lemma {:induction false} FilteredKeeps(cs: seq<Candidate>, keep: set<nat>, i: nat)
    requires i < |cs| && cs[i].originalIndex in keep
    ensures cs[i] in Filtered(cs, keep)
  {
    if i < |cs| - 1 {
      FilteredKeeps(cs[..|cs| - 1], keep, i);
    }
  }

  lemma {:induction false} FilteredSize(cs: seq<Candidate>, keep: set<nat>)
    requires forall i :: 0 <= i < |cs| ==> cs[i].originalIndex == i
    ensures |Filtered(cs, keep)| <= |Upto(|cs|) * keep|
  {
    if cs != [] {
      var n := |cs| - 1;
      FilteredSize(cs[..n], keep);
      assert Upto(|cs|) * keep == Upto(n) * keep + {n} * keep;
      assert (Upto(n) * keep) !! ({n} * keep);
      if n in keep {
        assert {n} * keep == {n};
      }
    }
  }

  lemma {:induction false} MarkedCount(cs: seq<Candidate>, bound: nat, selected: Option<nat>)
    requires Listed(cs, bound, selected)
    ensures SelectedCount(cs) == if exists i :: 0 <= i < |cs| && cs[i].selected then 1 else 0
  {
    if cs != [] {
      var init, last := cs[..|cs| - 1], cs[|cs| - 1];
      MarkedCount(init, bound, selected);
      assert cs == init + [last];
      if last.selected {
        assert forall i :: 0 <= i < |init| ==> !init[i].selected;
      }
    }
  }

  lemma RetainedBounded(selected: nat)
    ensures |RetainedIndexes(selected)| <= MAX_CANDIDATES
    ensures selected in RetainedIndexes(selected)
  {
    hide Upto;
    var first := Upto(MAX_CANDIDATES);
    var all := first + {selected};
    if selected < MAX_CANDIDATES {
      assert all == first;
    } else {
      assert MAX_CANDIDATES - 1 in all;
      assert |all| == MAX_CANDIDATES + 1;
      assert |all - {MAX_CANDIDATES - 1}| == MAX_CANDIDATES;
    }
  }

  lemma FilteredRetained(cs: seq<Candidate>, index: nat, selected: Option<nat>)
    requires Listed(cs, |cs|, selected) && forall i :: 0 <= i < |cs| ==> cs[i].originalIndex == i
    ensures var kept := Filtered(cs, RetainedIndexes(index));
            && Listed(kept, |cs|, selected) && |kept| <= MAX_CANDIDATES
            && (index < |cs| ==> cs[index] in kept)
  {
    hide RetainedIndexes, Upto, Listed, Filtered;
    RetainedBounded(index);
    FilteredSize(cs, RetainedIndexes(index));
    FilteredListed(cs, RetainedIndexes(index), selected);
    SubsetSmaller(Upto(|cs|) * RetainedIndexes(index), RetainedIndexes(index));
    if index < |cs| {
      FilteredKeeps(cs, RetainedIndexes(index), index);
    }
  }

  /** Retaining keeps order, bounds the list, and keeps the selected candidate. */
  lemma RetainedListed(cs: seq<Candidate>, index: nat, selected: Option<nat>)
    requires Listed(cs, |cs|, selected) && forall i :: 0 <= i < |cs| ==> cs[i].originalIndex == i
    ensures var kept := Retained(cs, index);
            && Listed(kept, |cs|, selected) && |kept| <= MAX_CANDIDATES && |kept| <= |cs|
            && (index < |cs| ==> cs[index] in kept)
  {
    hide Listed, Filtered, RetainedIndexes;
    FilteredRetained(cs, index, selected);
  }

  lemma CandidatesListed(root: Root, ds: seq<Detection>, reference: Point, selected: Option<nat>)
    requires IsSqrt(root)
    ensures var cs := Candidates(root, ds, reference, selected);
            |cs| == |ds| && Listed(cs, |ds|, selected) && forall i :: 0 <= i < |cs| ==> cs[i].originalIndex == i
  {
    var cs := Candidates(root, ds, reference, selected);
    forall i | 0 <= i < |cs| ensures cs[i].centerDistance >= 0.0 {
      SumOfSquares(ds[i].bounds.CenterX() - reference.x, ds[i].bounds.CenterY() - reference.y);
    }
  }

  lemma SubsetSmaller(a: set<nat>, b: set<nat>)
    requires a <= b
    ensures |a| <= |b|
  {
    assert b == a + (b - a);
  }

  /** Evidence over a listed selection of candidates passes every check. */
  lemma ListedSound(kept: seq<Candidate>, count: nat, reference: Point, outcome: Outcome, selected: Option<nat>)
    requires Listed(kept, count, selected) && |kept| <= MAX_CANDIDATES && |kept| <= count
    requires selected.None? <==> outcome in {NoDetections, NoAcceptedCandidate}
    requires outcome == NoDetections ==> count == 0
    requires selected.Some? ==> exists i :: 0 <= i < |kept| && kept[i].selected
    ensures SoundEvidence(Evidence(reference, outcome, count, kept, |kept| < count))
  {
    hide Listed, SelectedCount;
    KeptSound(kept, count, selected);
    MarkedCount(kept, count, selected);
  }

  /** Building evidence never fails its own checks. */
  lemma EvidenceSound(root: Root, ds: seq<Detection>, reference: Point, outcome: Outcome, selected: Option<nat>)
    requires IsSqrt(root) && (selected.Some? ==> selected.value < |ds|)
    requires selected.None? <==> outcome in {NoDetections, NoAcceptedCandidate}
    requires outcome == NoDetections ==> ds == []
    ensures var e := EvidenceOf(root, ds, reference, outcome, selected);
            && SoundEvidence(e) && e.outcome == outcome
            && (selected.None? ==> forall i :: 0 <= i < |e.candidates| ==> !e.candidates[i].selected)
            && (selected.Some? ==>
                  exists i :: 0 <= i < |e.candidates| && e.candidates[i].selected && e.candidates[i].detection == ds[selected.value])
  {
    var cs := Candidates(root, ds, reference, selected);
    var index := if selected.Some? then selected.value else 0;
    CandidatesListed(root, ds, reference, selected);
    assert selected.Some? ==> cs[index].selected && cs[index].detection == ds[index];
    hide Retained, Candidates, Listed, IsSqrt, SoundEvidence;
    RetainedListed(cs, index, selected);
    var kept := Retained(cs, index);
    KeptSound(kept, |cs|, selected);
    if selected.Some? {
      var i :| 0 <= i < |kept| && kept[i] == cs[index];
    }
    ListedSound(kept, |cs|, reference, outcome, selected);
  }

  /** The indexes kept: all of a list of up to 32, of a longer one the first 32, with the last of
      them giving way to a selected one beyond. */
  predicate Keeps(count: nat, selected: Option<nat>, i: nat) {
    && i < count
    && (count <= 32 || (if selected.Some? && selected.value >= 32 then i < 31 || i == selected.value else i < 32))
  }

  lemma {:induction false} FilteredMeans(cs: seq<Candidate>, keep: set<nat>)
    ensures forall c :: c in Filtered(cs, keep) <==> c in cs && c.originalIndex in keep
  {
    if cs != [] {
      FilteredMeans(cs[..|cs| - 1], keep);
      assert cs == cs[..|cs| - 1] + [cs[|cs| - 1]];
    }
  }

  lemma RetainedMeans(index: nat)
    ensures forall i: nat :: i in RetainedIndexes(index) <==> if index >= 32 then i < 31 || i == index else i < 32
  {
    hide Upto;
    var first := Upto(MAX_CANDIDATES);
    var all := first + {index};
    if index < MAX_CANDIDATES {
      assert all == first;
    } else {
      assert |all| == MAX_CANDIDATES + 1;
    }
  }

  lemma CandidateAt(root: Root, ds: seq<Detection>, reference: Point, selected: Option<nat>, i: nat)
    requires IsSqrt(root) && i < |ds|
    ensures var cs := Candidates(root, ds, reference, selected);
            && |cs| == |ds| && cs[i].originalIndex == i && CandidateMeans(ds, reference, selected, cs[i])
  {
    SumOfSquares(ds[i].bounds.CenterX() - reference.x, ds[i].bounds.CenterY() - reference.y);
  }

  /** A candidate tells whether its detection contains the reference, how far it is from it, and
      whether it was selected. */
  ghost predicate CandidateMeans(ds: seq<Detection>, reference: Point, selected: Option<nat>, c: Candidate) {
    && c.originalIndex < |ds| && c.detection == ds[c.originalIndex]
    && (c.containsReference <==> ContainsPoint(c.detection.bounds, reference))
    && c.centerDistance >= 0.0 && c.centerDistance * c.centerDistance == DistanceSquared(c.detection, reference)
    && (c.selected <==> selected == Some(c.originalIndex))
  }

  lemma RetainedAre(cs: seq<Candidate>, count: nat, selected: Option<nat>)
    requires |cs| == count && forall i :: 0 <= i < |cs| ==> cs[i].originalIndex == i
    ensures var kept := Retained(cs, if selected.Some? then selected.value else 0);
            forall c :: c in kept <==> c in cs && Keeps(count, selected, c.originalIndex)
  {
    hide Filtered, RetainedIndexes;
    var index := if selected.Some? then selected.value else 0;
    FilteredMeans(cs, RetainedIndexes(index));
    RetainedMeans(index);
  }

  /** What the evidence holds: the candidates at exactly the kept indexes. */
  lemma EvidenceMeans(root: Root, ds: seq<Detection>, reference: Point, outcome: Outcome, selected: Option<nat>)
    requires IsSqrt(root) && (selected.Some? ==> selected.value < |ds|)
    ensures var e := EvidenceOf(root, ds, reference, outcome, selected);
            && e.reference == reference && e.count == |ds|
            && (forall c :: c in e.candidates ==>
                  CandidateMeans(ds, reference, selected, c) && Keeps(|ds|, selected, c.originalIndex))
            && forall i: nat :: Keeps(|ds|, selected, i) ==> exists c :: c in e.candidates && c.originalIndex == i
  {
    hide Candidates, CandidateMeans, Retained, IsSqrt;
    var cs := Candidates(root, ds, reference, selected);
    if ds != [] {
      CandidateAt(root, ds, reference, selected, 0);
    } else {
      NoCandidates(root, reference, selected);
    }
    forall i: nat | i < |ds| ensures cs[i].originalIndex == i && CandidateMeans(ds, reference, selected, cs[i]) {
      CandidateAt(root, ds, reference, selected, i);
    }
    RetainedAre(cs, |ds|, selected);
    var kept := Retained(cs, if selected.Some? then selected.value else 0);
    forall c | c in kept ensures CandidateMeans(ds, reference, selected, c) && Keeps(|ds|, selected, c.originalIndex) {
      assert c in cs;
      var i: nat :| i < |cs| && cs[i] == c;
    }
    forall i: nat | Keeps(|ds|, selected, i)
      ensures exists c :: c in kept && c.originalIndex == i
    {
      assert cs[i] in cs;
    }
  }

  lemma NoCandidates(root: Root, reference: Point, selected: Option<nat>)
    ensures Candidates(root, [], reference, selected) == []
  {
  }

  lemma KeptSound(kept: seq<Candidate>, bound: nat, selected: Option<nat>)
    requires Listed(kept, bound, selected)
    ensures forall i :: 0 <= i < |kept| ==> kept[i].centerDistance >= 0.0
    ensures forall i, j :: 0 <= i < j < |kept| ==> kept[i].originalIndex < kept[j].originalIndex
    ensures selected.None? ==> forall i :: 0 <= i < |kept| ==> !kept[i].selected
  {
  }

  /* ---------------------------------------------------------------------------------------
     Observations.
     --------------------------------------------------------------------------------------- */

  function Gated(root: Root, ds: seq<Detection>, reference: Rect): seq<Detection> {
    if ds == [] then []
    else
      var rest := Gated(root, ds[..|ds| - 1], reference);
      var last := ds[|ds| - 1];
      if WithinGate(root, last.bounds, reference) then rest + [last] else rest
  }

  lemma {:induction false} GatedMeans(root: Root, ds: seq<Detection>, reference: Rect)
    ensures forall d :: d in Gated(root, ds, reference) <==> d in ds && WithinGate(root, d.bounds, reference)
  {
    if ds != [] {
      hide WithinGate;
      GatedMeans(root, ds[..|ds| - 1], reference);
      assert ds == ds[..|ds| - 1] + [ds[|ds| - 1]];
    }
  }

  datatype AnalysisError = NoSelectedAthlete

  /** `select_selected`: the detection tapped in the selected frame. */
  function SelectTapped(root: Root, ds: seq<Detection>, frame: nat, timestamp: int, tap: Point, capture: bool)
    : Result<Observation, AnalysisError>
  {
    if ds == [] then Failure(NoSelectedAthlete)
    else
      var i := Select(ds, tap);
      var outcome := if ContainsPoint(ds[i].bounds, tap) then SelectedContainingTap else SelectedNearestTap;
      Success(Observation(frame, timestamp, Some(ds[i]), outcome,
                          if capture then Some(EvidenceOf(root, ds, tap, outcome, Some(i))) else None))
  }

  /** `associate`, with the center of the reference box as the reference. */
  function Associate(root: Root, ds: seq<Detection>, frame: nat, timestamp: int, reference: Rect, capture: bool): Observation {
    var point := CenterPoint(reference);
    var accepted := Gated(root, ds, reference);
    if ds != [] && accepted == [] then
      Observation(frame, timestamp, None, NoAcceptedCandidate,
                  if capture then Some(EvidenceOf(root, ds, point, NoAcceptedCandidate, None)) else None)
    else if accepted == [] then
      Observation(frame, timestamp, None, NoDetections,
                  if capture then Some(EvidenceOf(root, [], point, NoDetections, None)) else None)
    else
      var i := Select(accepted, point);
      var outcome := if ContainsPoint(accepted[i].bounds, point) then AssociatedContaining else AssociatedNearest;
      Observation(frame, timestamp, Some(accepted[i]), outcome,
                  if capture then Some(EvidenceOf(root, accepted, point, outcome, Some(i))) else None)
  }

  /** Among the detections within the gate, the one taken contains the reference center whenever
      one does, and is then the nearest of those. */
  ghost predicate BestWithinGate(root: Root, ds: seq<Detection>, reference: Rect, d: Detection) {
    var point := CenterPoint(reference);
    && d in ds && WithinGate(root, d.bounds, reference)
    && forall other :: other in ds && WithinGate(root, other.bounds, reference) ==>
         && (ContainsPoint(other.bounds, point) ==> ContainsPoint(d.bounds, point))
         && ((ContainsPoint(d.bounds, point) ==> ContainsPoint(other.bounds, point)) ==>
               DistanceSquared(d, point) <= DistanceSquared(other, point))
  }

  /** What one association decides. */
  lemma AssociateMeans(root: Root, ds: seq<Detection>, frame: nat, timestamp: int, reference: Rect, capture: bool)
    requires IsSqrt(root) && timestamp >= 0
    ensures var o := Associate(root, ds, frame, timestamp, reference, capture);
            && SoundObservation(o) && o.outcome != DetectionSkipped && o.frame == frame && o.timestamp == timestamp
            && (o.detection.None? <==> forall d :: d in ds ==> !WithinGate(root, d.bounds, reference))
            && (o.detection.Some? ==> BestWithinGate(root, ds, reference, o.detection.value))
            && (o.detection.Some? ==>
                  o.outcome == if ContainsPoint(o.detection.value.bounds, CenterPoint(reference))
                               then AssociatedContaining else AssociatedNearest)
            && (o.outcome == NoDetections <==> ds == [])
            && (o.outcome == NoAcceptedCandidate <==> ds != [] && o.detection.None?)
  {
    hide EvidenceOf, WithinGate, DistanceSquared, ContainsPoint, Gated, Select, SoundEvidence;
    var point, accepted := CenterPoint(reference), Gated(root, ds, reference);
    GatedMeans(root, ds, reference);
    if accepted == [] {
      assert forall d :: d !in accepted;
      EvidenceSound(root, ds, point, if ds == [] then NoDetections else NoAcceptedCandidate, None);
    } else {
      assert accepted[0] in accepted;
      SelectMeans(accepted, point);
      var i := Select(accepted, point);
      EvidenceSound(root, accepted, point,
                    if ContainsPoint(accepted[i].bounds, point) then AssociatedContaining else AssociatedNearest, Some(i));
      BestOf(root, ds, reference, accepted);
    }
  }

  lemma BestOf(root: Root, ds: seq<Detection>, reference: Rect, accepted: seq<Detection>)
    requires accepted != [] && accepted == Gated(root, ds, reference)
    ensures BestWithinGate(root, ds, reference, accepted[Select(accepted, CenterPoint(reference))])
  {
    hide WithinGate, DistanceSquared, ContainsPoint, Gated, Select;
    GatedMeans(root, ds, reference);
    SelectMeans(accepted, CenterPoint(reference));
    assert accepted[Select(accepted, CenterPoint(reference))] in accepted;
    forall other | other in ds && WithinGate(root, other.bounds, reference)
      ensures exists j: nat :: j < |accepted| && accepted[j] == other
    {
      assert other in accepted;
    }
  }
}
