/**
 * The build walk shared by the trend-graph handlers of
 * PerformanceProjectAction: a position counter starts at the number of
 * builds, the window test is made against it, the step test against the
 * build number, and each build holding the chosen report adds its points
 * (value, series, build-number label) to the graph's data set.
 */
module TrendSeries {
  import opened Wrappers
  import opened Builds
  import opened BuildWindow

  // Series names: the Messages.ProjectAction_* keys (localisation is not modelled).
  const ErrorsSeries: string := "Errors"
  const MedianSeries: string := "Median"
  const AverageSeries: string := "Average"
  const Line90Series: string := "Line90"
  const MinimumSeries: string := "Minimum"
  const MaximumSeries: string := "Maximum"
  const PercentageOfErrorsSeries: string := "PercentageOfErrors"
  const ThroughputSeries: string := "Throughput"
  const BytesTransferredSeries: string := "BytesTransferred"

  /** The three data sets `doSummarizerGraph` fills; one of them is drawn. */
  datatype SummarizerKind = ResponseTimes | SummarizerThroughput | ErrorPercent

  /** The data set a handler builds. */
  datatype Chart =
    | Errors
    | RespondingTime
    | RespondingTimePerTestCase
    | Throughput
    | BytesTransferred
    | BytesTransferredPerTestCase
    | Summarizer(kind: SummarizerKind)
    | TrendReport

  /** One `DataSetBuilder.add(value, series, label)`; the label is the build number. */
  datatype Point = Point(value: real, series: string, buildLabel: int)

  /** `doSummarizerGraph` and `getTrendReportData` make no step test. */
  predicate UsesStepFilter(c: Chart) {
    !c.Summarizer? && !c.TrendReport?
  }

  /** Math.round on a double: the nearest integer, halves rounded up. */
  function RoundHalfUp(x: real): (r: int)
    ensures r as real - 0.5 <= x < r as real + 0.5
  {
    (x + 0.5).Floor
  }

  /** Per-test-case response times: a failed sample is plotted as 0. */
  function SamplePoints(samples: seq<SampleStat>, buildLabel: int): (r: seq<Point>)
    ensures |r| == |samples|
    ensures forall i :: 0 <= i < |r| ==> r[i].series == samples[i].uri && r[i].buildLabel == buildLabel
    ensures forall i :: 0 <= i < |r| && samples[i].hasError ==> r[i].value == 0.0
    ensures forall i :: 0 <= i < |r| && !samples[i].hasError ==> r[i].value == samples[i].duration as real
    decreases |samples|
  {
    if samples == [] then []
    else
      var s := samples[0];
      [Point(if s.hasError then 0.0 else s.duration as real, s.uri, buildLabel)] + SamplePoints(samples[1..], buildLabel)
  }

  /** Per-test-case bytes: each uri's average in kilobytes, under the uri. */
  function UriBytesPoints(uris: seq<UriStats>, buildLabel: int): (r: seq<Point>)
    ensures |r| == |uris|
    ensures forall i :: 0 <= i < |r| ==> r[i] == Point(uris[i].averageBytes / 1024.0, uris[i].uri, buildLabel)
    decreases |uris|
  {
    if uris == [] then []
    else [Point(uris[0].averageBytes / 1024.0, uris[0].uri, buildLabel)] + UriBytesPoints(uris[1..], buildLabel)
  }

  function PointsPerUri(kind: SummarizerKind): nat {
    if kind.ResponseTimes? then 3 else 1
  }

  /** The series names of the chosen summarizer data set. */
  function SummarizerSeries(kind: SummarizerKind): set<string> {
    match kind
    case ResponseTimes => {"Avg", "Min", "Max"}
    case SummarizerThroughput => {"Throughput"}
    case ErrorPercent => {"%" + ErrorsSeries}
  }

  /**
   * The points one uri report adds to the chosen summarizer data set: its
   * average, minimum and maximum under "Avg", "Min" and "Max"; its
   * throughput under "Throughput"; or its error percentage under "%Errors".
   */
  function SummarizerUriPoints(kind: SummarizerKind, u: UriStats, buildLabel: int): (r: seq<Point>)
    ensures |r| == PointsPerUri(kind)
    ensures forall i :: 0 <= i < |r| ==> r[i].buildLabel == buildLabel && r[i].series in SummarizerSeries(kind)
    ensures kind.ResponseTimes? ==>
      && r[0].series == "Avg" && r[0].value == u.average as real
      && r[1].series == "Min" && r[1].value == u.summarizerMin as real
      && r[2].series == "Max" && r[2].value == u.summarizerMax as real
    ensures kind.SummarizerThroughput? ==> r[0].series == "Throughput" && r[0].value == u.throughput
    ensures kind.ErrorPercent? ==> r[0].series == "%" + ErrorsSeries && r[0].value == u.summarizerErrors
  {
    match kind
    case ResponseTimes =>
      [Point(u.average as real, "Avg", buildLabel), Point(u.summarizerMin as real, "Min", buildLabel),
       Point(u.summarizerMax as real, "Max", buildLabel)]
    case SummarizerThroughput => [Point(u.throughput, "Throughput", buildLabel)]
    case ErrorPercent => [Point(u.summarizerErrors, "%" + ErrorsSeries, buildLabel)]
  }

  /** The summarizer points of every uri report, uri by uri. */
  function SummarizerPoints(kind: SummarizerKind, uris: seq<UriStats>, buildLabel: int): (r: seq<Point>)
    ensures |r| == |uris| * PointsPerUri(kind)
    ensures forall i :: 0 <= i < |r| ==> r[i].buildLabel == buildLabel && r[i].series in SummarizerSeries(kind)
    decreases |uris|
  {
    if uris == [] then []
    else SummarizerUriPoints(kind, uris[0], buildLabel) + SummarizerPoints(kind, uris[1..], buildLabel)
  }

  /** The points of two runs of uri reports are those of the first run followed by those of the second. */
  lemma {:induction false} SummarizerPointsAppend(kind: SummarizerKind, a: seq<UriStats>, b: seq<UriStats>, buildLabel: int)
    ensures SummarizerPoints(kind, a + b, buildLabel)
         == SummarizerPoints(kind, a, buildLabel) + SummarizerPoints(kind, b, buildLabel)
    decreases |a|
  {
    if a == [] {
      assert a + b == b;
    } else {
      assert (a + b)[1..] == a[1..] + b;
      SummarizerPointsAppend(kind, a[1..], b, buildLabel);
    }
  }

  /** The points of the uri report at index `j` sit, as one block, after those of every earlier uri report. */
  lemma SummarizerPointsBlock(kind: SummarizerKind, uris: seq<UriStats>, j: nat, buildLabel: int)
    requires j < |uris|
    ensures SummarizerPoints(kind, uris, buildLabel)
         == SummarizerPoints(kind, uris[..j], buildLabel) + SummarizerUriPoints(kind, uris[j], buildLabel)
            + SummarizerPoints(kind, uris[j + 1..], buildLabel)
  {
    assert uris == uris[..j] + uris[j..];
    SummarizerPointsAppend(kind, uris[..j], uris[j..], buildLabel);
    assert uris[j..][1..] == uris[j + 1..];
    assert SummarizerPoints(kind, uris[j..], buildLabel)
        == SummarizerUriPoints(kind, uris[j], buildLabel) + SummarizerPoints(kind, uris[j + 1..], buildLabel);
  }

  /** The seven statistics of the trend report, in the order they are added. */
  function TrendStats(rep: PerfReport): seq<real> {
    [rep.average, rep.median, rep.line90, rep.min, rep.max, rep.errorPercent, rep.countErrors]
  }

  function TrendSeriesNames(): seq<string> {
    [AverageSeries, MedianSeries, Line90Series, MinimumSeries, MaximumSeries, PercentageOfErrorsSeries, ErrorsSeries]
  }

  /** The points one build's report adds to the data set of chart `c`. */
  function Emit(c: Chart, rep: PerfReport, buildLabel: int): (r: seq<Point>)
    ensures forall i :: 0 <= i < |r| ==> r[i].buildLabel == buildLabel
  {
    match c
    case Errors => [Point(rep.errorPercent, ErrorsSeries, buildLabel)]
    case RespondingTime =>
      [Point(rep.median, MedianSeries, buildLabel), Point(rep.average, AverageSeries, buildLabel),
       Point(rep.line90, Line90Series, buildLabel)]
    case RespondingTimePerTestCase => SamplePoints(rep.samples, buildLabel)
    case Throughput => [Point(rep.throughput, ThroughputSeries, buildLabel)]
    case BytesTransferred => [Point(rep.averageBytes / 1024.0, BytesTransferredSeries, buildLabel)]
    case BytesTransferredPerTestCase => UriBytesPoints(rep.uris, buildLabel)
    case Summarizer(kind) => SummarizerPoints(kind, rep.uris, buildLabel)
    case TrendReport =>
      [Point(RoundHalfUp(rep.average) as real, AverageSeries, buildLabel),
       Point(RoundHalfUp(rep.median) as real, MedianSeries, buildLabel),
       Point(RoundHalfUp(rep.line90) as real, Line90Series, buildLabel),
       Point(RoundHalfUp(rep.min) as real, MinimumSeries, buildLabel),
       Point(RoundHalfUp(rep.max) as real, MaximumSeries, buildLabel),
       Point(RoundHalfUp(rep.errorPercent) as real, PercentageOfErrorsSeries, buildLabel),
       Point(RoundHalfUp(rep.countErrors) as real, ErrorsSeries, buildLabel)]
  }

  /**
   * What each chart adds for one build: the trend report its seven
   * statistics, in order and under their series names, each rounded to
   * within a half; every other chart its own number of points.
   */
  lemma EmitShape(c: Chart, rep: PerfReport, buildLabel: int)
    ensures var r := Emit(c, rep, buildLabel);
      && (c.TrendReport? ==> |r| == 7 && forall i :: 0 <= i < 7 ==>
            r[i].series == TrendSeriesNames()[i] && r[i].value - 0.5 <= TrendStats(rep)[i] < r[i].value + 0.5)
      && (c == RespondingTime ==> |r| == 3)
      && (c in {Errors, Throughput, BytesTransferred} ==> |r| == 1)
      && (c == RespondingTimePerTestCase ==> |r| == |rep.samples|)
      && (c == BytesTransferredPerTestCase ==> |r| == |rep.uris|)
      && (c.Summarizer? ==> |r| == |rep.uris| * PointsPerUri(c.kind))
      && (c.Summarizer? ==> forall i :: 0 <= i < |r| ==> r[i].series in SummarizerSeries(c.kind))
      && (c.Summarizer? ==> forall j :: 0 <= j < |rep.uris| ==>
            r == SummarizerPoints(c.kind, rep.uris[..j], buildLabel) + SummarizerUriPoints(c.kind, rep.uris[j], buildLabel)
                 + SummarizerPoints(c.kind, rep.uris[j + 1..], buildLabel))
  {
    if c.Summarizer? {
      forall j | 0 <= j < |rep.uris|
        ensures Emit(c, rep, buildLabel)
             == SummarizerPoints(c.kind, rep.uris[..j], buildLabel) + SummarizerUriPoints(c.kind, rep.uris[j], buildLabel)
                + SummarizerPoints(c.kind, rep.uris[j + 1..], buildLabel)
      {
        SummarizerPointsBlock(c.kind, rep.uris, j, buildLabel);
      }
    }
  }

  /** What one iteration does: the points added, and whether the counter is decremented. */
  datatype Visit = Visit(points: seq<Point>, consumed: bool)

  /**
   * One iteration for build `b` at position `pos`: outside the window the
   * counter just moves on; inside it, a build failing the step test or
   * lacking the build action is skipped with the counter left as it is, a
   * build without the named report moves the counter on without points, and
   * any other build adds its points and moves the counter on.
   */
  function VisitBuild(c: Chart, w: Range, name: string, b: Build, pos: int): (v: Visit)
    requires w.step != 0
    ensures v.points != [] ==> w.In(pos) && HasReport(b, name)
    ensures !v.consumed ==> v.points == [] && w.In(pos)
    ensures !w.In(pos) ==> v.consumed
    ensures w.In(pos) && b.action.None? ==> !v.consumed
    ensures w.In(pos) && UsesStepFilter(c) && !w.IncludedByStep(b.number) ==> !v.consumed
  {
    if !w.In(pos) then Visit([], true)
    else if UsesStepFilter(c) && !w.IncludedByStep(b.number) then Visit([], false)
    else if b.action.None? then Visit([], false)
    else if name !in b.action.value.reports then Visit([], true)
    else Visit(Emit(c, b.action.value.reports[name], b.number), true)
  }

  /** The data set so far and the position counter (`nbBuildsToAnalyze`). */
  datatype WalkState = WalkState(points: seq<Point>, counter: int)

  /** The loop over `builds` from state `st`. */
  function WalkFrom(c: Chart, w: Range, name: string, builds: seq<Build>, st: WalkState): (r: WalkState)
    requires w.step != 0
    ensures st.counter - |builds| <= r.counter <= st.counter
    ensures |st.points| <= |r.points|
    decreases |builds|
  {
    if builds == [] then st
    else
      var v := VisitBuild(c, w, name, builds[0], st.counter);
      WalkFrom(c, w, name, builds[1..],
        WalkState(st.points + v.points, if v.consumed then st.counter - 1 else st.counter))
  }

  /** The handler loop, with the counter starting at the number of builds. */
  method Walk(c: Chart, w: Range, name: string, builds: seq<Build>) returns (points: seq<Point>)
    requires w.step != 0
    ensures points == WalkFrom(c, w, name, builds, WalkState([], |builds|)).points
  {
    hide Emit;
    points := [];
    var nbBuildsToAnalyze := |builds|;
    var i := 0;
    assert builds[0..] == builds;
    while i < |builds|
      invariant 0 <= i <= |builds|
      invariant WalkFrom(c, w, name, builds[i..], WalkState(points, nbBuildsToAnalyze))
        == WalkFrom(c, w, name, builds, WalkState([], |builds|))
    {
      var build := builds[i];
      assert builds[i..][0] == build && builds[i..][1..] == builds[i + 1..];
      assert points + [] == points;
      i := i + 1;
      if w.In(nbBuildsToAnalyze) {
        if UsesStepFilter(c) && !w.IncludedByStep(build.number) {
          continue;
        }
        if build.action.None? {
          continue;
        }
        if name !in build.action.value.reports {
          nbBuildsToAnalyze := nbBuildsToAnalyze - 1;
          continue;
        }
        points := points + Emit(c, build.action.value.reports[name], build.number);
      }
      nbBuildsToAnalyze := nbBuildsToAnalyze - 1;
    }
  }

  /** Walking `a + b` is walking `a`, then `b` from where `a` left off. */
  lemma {:induction false} WalkAppend(c: Chart, w: Range, name: string, a: seq<Build>, b: seq<Build>, st: WalkState)
    requires w.step != 0
    ensures WalkFrom(c, w, name, a + b, st) == WalkFrom(c, w, name, b, WalkFrom(c, w, name, a, st))
    decreases |a|
  {
    if a == [] {
      assert a + b == b;
    } else {
      assert (a + b)[0] == a[0] && (a + b)[1..] == a[1..] + b;
      var v := VisitBuild(c, w, name, a[0], st.counter);
      WalkAppend(c, w, name, a[1..], b,
        WalkState(st.points + v.points, if v.consumed then st.counter - 1 else st.counter));
    }
  }

  /** The numbers of the builds that hold a report under `name`. */
  function ReportingNumbers(builds: seq<Build>, name: string): set<int>
    decreases |builds|
  {
    if builds == [] then {}
    else (if HasReport(builds[0], name) then {builds[0].number} else {}) + ReportingNumbers(builds[1..], name)
  }

  /** The walk only appends: the points it starts from stay in front. */
  lemma {:induction false} WalkKeepsEarlierPoints(c: Chart, w: Range, name: string, builds: seq<Build>, st: WalkState)
    requires w.step != 0
    ensures WalkFrom(c, w, name, builds, st).points[..|st.points|] == st.points
    decreases |builds|
  {
    if builds != [] {
      var v := VisitBuild(c, w, name, builds[0], st.counter);
      var st' := WalkState(st.points + v.points, if v.consumed then st.counter - 1 else st.counter);
      WalkKeepsEarlierPoints(c, w, name, builds[1..], st');
      var ps := WalkFrom(c, w, name, builds[1..], st').points;
      assert ps[..|st.points|] == ps[..|st'.points|][..|st.points|];
    }
  }

  /** Every point the walk adds is labelled with the number of a build that holds the report. */
  lemma {:induction false} WalkLabelsComeFromReportingBuilds(c: Chart, w: Range, name: string, builds: seq<Build>, st: WalkState)
    requires w.step != 0
    ensures forall i :: |st.points| <= i < |WalkFrom(c, w, name, builds, st).points| ==>
      WalkFrom(c, w, name, builds, st).points[i].buildLabel in ReportingNumbers(builds, name)
    decreases |builds|
  {
    hide Emit;
    if builds != [] {
      var v := VisitBuild(c, w, name, builds[0], st.counter);
      var st' := WalkState(st.points + v.points, if v.consumed then st.counter - 1 else st.counter);
      WalkLabelsComeFromReportingBuilds(c, w, name, builds[1..], st');
      WalkKeepsEarlierPoints(c, w, name, builds[1..], st');
      var ps := WalkFrom(c, w, name, builds, st).points;
      assert ps == WalkFrom(c, w, name, builds[1..], st').points;
      forall i | |st.points| <= i < |ps| ensures ps[i].buildLabel in ReportingNumbers(builds, name) {
        if i < |st'.points| {
          assert ps[i] == ps[..|st'.points|][i] == st'.points[i] == v.points[i - |st.points|];
        }
      }
    }
  }

  /** A build the walk never holds back: it has the action and passes the step test when one is made. */
  predicate NeverHeld(c: Chart, w: Range, b: Build)
    requires w.step != 0
  {
    b.action.Some? && (UsesStepFilter(c) ==> w.IncludedByStep(b.number))
  }

  /** The points a build at position `pos` contributes when it is in the window and holds the report. */
  function OwnPoints(c: Chart, w: Range, name: string, b: Build, pos: int): seq<Point> {
    if w.In(pos) && HasReport(b, name) then Emit(c, b.action.value.reports[name], b.number) else []
  }

  /**
   * The reference walk: the build at index `i` sits at position `pos - i`,
   * and adds its points when that position is in the window and it holds
   * the report.
   */
  function PositionalPoints(c: Chart, w: Range, name: string, builds: seq<Build>, pos: int): (r: seq<Point>)
    ensures forall i :: 0 <= i < |r| ==> r[i].buildLabel in ReportingNumbers(builds, name)
    decreases |builds|
  {
    if builds == [] then []
    else OwnPoints(c, w, name, builds[0], pos) + PositionalPoints(c, w, name, builds[1..], pos - 1)
  }

  /** Every point of the reference walk comes from a build whose position is in the window and that holds the report. */
  lemma {:induction false} PositionalPointsInWindow(c: Chart, w: Range, name: string, builds: seq<Build>, pos: int)
    ensures var r := PositionalPoints(c, w, name, builds, pos);
      forall i :: 0 <= i < |r| ==>
        exists j :: 0 <= j < |builds| && w.In(pos - j) && HasReport(builds[j], name) && r[i].buildLabel == builds[j].number
    decreases |builds|
  {
    if builds != [] {
      hide Emit;
      var own := OwnPoints(c, w, name, builds[0], pos);
      var tail := builds[1..];
      var rest := PositionalPoints(c, w, name, tail, pos - 1);
      PositionalCons(c, w, name, builds, pos, pos - 1);
      PositionalPointsInWindow(c, w, name, tail, pos - 1);
      var r := own + rest;
      forall i | 0 <= i < |r|
        ensures exists j :: 0 <= j < |builds| && w.In(pos - j) && HasReport(builds[j], name) && r[i].buildLabel == builds[j].number
      {
        if i < |own| {
          assert r[i] == own[i];
          assert w.In(pos - 0) && HasReport(builds[0], name) && r[i].buildLabel == builds[0].number;
        } else {
          assert r[i] == rest[i - |own|];
          var j :| 0 <= j < |tail| && w.In(pos - 1 - j) && HasReport(tail[j], name) && rest[i - |own|].buildLabel == tail[j].number;
          assert builds[j + 1] == tail[j] && pos - (j + 1) == pos - 1 - j;
        }
      }
    }
  }

  /** A build that is never held back always moves the counter on, adding its points when it is in the window and holds the report. */
  lemma VisitOfNeverHeld(c: Chart, w: Range, name: string, b: Build, pos: int)
    requires w.step != 0 && NeverHeld(c, w, b)
    ensures VisitBuild(c, w, name, b, pos) == Visit(OwnPoints(c, w, name, b, pos), true)
  {
  }

  /** One step of the walk over a build that is never held back. */
  lemma WalkStepNeverHeld(c: Chart, w: Range, name: string, builds: seq<Build>, st: WalkState)
    requires w.step != 0 && builds != [] && NeverHeld(c, w, builds[0])
    ensures WalkFrom(c, w, name, builds, st)
      == WalkFrom(c, w, name, builds[1..], WalkState(st.points + OwnPoints(c, w, name, builds[0], st.counter), st.counter - 1))
  {
    VisitOfNeverHeld(c, w, name, builds[0], st.counter);
  }

  /** The induction step of WalkIsPositional: a never-held first build, then the rest as the reference walk says. */
  lemma WalkPositionalCons(c: Chart, w: Range, name: string, builds: seq<Build>, st: WalkState,
                           tail: seq<Build>, next: int, st1: WalkState)
    requires w.step != 0 && builds != [] && NeverHeld(c, w, builds[0])
    requires tail == builds[1..] && next == st.counter - 1
    requires st1 == WalkState(st.points + OwnPoints(c, w, name, builds[0], st.counter), next)
    requires WalkFrom(c, w, name, tail, st1)
      == WalkState(st1.points + PositionalPoints(c, w, name, tail, next), next - |tail|)
    ensures WalkFrom(c, w, name, builds, st)
      == WalkState(st.points + PositionalPoints(c, w, name, builds, st.counter), st.counter - |builds|)
  {
    hide Emit;
    var own := OwnPoints(c, w, name, builds[0], st.counter);
    WalkStepNeverHeld(c, w, name, builds, st);
    PositionalCons(c, w, name, builds, st.counter, next);
    WalkGlue(WalkFrom(c, w, name, builds, st), WalkFrom(c, w, name, tail, st1), st.points, own,
      PositionalPoints(c, w, name, tail, next), PositionalPoints(c, w, name, builds, st.counter), st1, st.counter - |builds|);
  }

  /** The equational glue of the induction step, free of the walk's own functions. */
  lemma WalkGlue(whole: WalkState, after: WalkState, before: seq<Point>, own: seq<Point>, rest: seq<Point>,
                 all: seq<Point>, st1: WalkState, counter: int)
    requires whole == after && st1.points == before + own && all == own + rest
    requires after == WalkState(st1.points + rest, counter)
    ensures whole == WalkState(before + all, counter)
  {
    assert (before + own) + rest == before + (own + rest);
  }

  /** The reference walk on a non-empty list: the first build's points, then the rest one position lower. */
  lemma PositionalCons(c: Chart, w: Range, name: string, builds: seq<Build>, pos: int, next: int)
    requires builds != [] && next == pos - 1
    ensures PositionalPoints(c, w, name, builds, pos)
      == OwnPoints(c, w, name, builds[0], pos) + PositionalPoints(c, w, name, builds[1..], next)
  {
  }

  /** No build of the list is ever held back. */
  predicate NoneHeld(c: Chart, w: Range, builds: seq<Build>)
    requires w.step != 0
    decreases |builds|
  {
    builds == [] || (NeverHeld(c, w, builds[0]) && NoneHeld(c, w, builds[1..]))
  }

  lemma {:induction false} NoneHeldOfEach(c: Chart, w: Range, builds: seq<Build>)
    requires w.step != 0
    requires forall i :: 0 <= i < |builds| ==> NeverHeld(c, w, builds[i])
    ensures NoneHeld(c, w, builds)
    decreases |builds|
  {
    if builds != [] {
      var tail := builds[1..];
      assert forall i :: 0 <= i < |tail| ==> tail[i] == builds[i + 1];
      NoneHeldOfEach(c, w, tail);
    }
  }

  /** The walk over builds none of which is held back, by induction on the list. */
  lemma {:induction false} WalkIsPositional(c: Chart, w: Range, name: string, builds: seq<Build>, st: WalkState)
    requires w.step != 0 && NoneHeld(c, w, builds)
    ensures WalkFrom(c, w, name, builds, st)
      == WalkState(st.points + PositionalPoints(c, w, name, builds, st.counter), st.counter - |builds|)
    decreases |builds|
  {
    if builds == [] {
      assert st.points + [] == st.points;
    } else {
      var tail, next := builds[1..], st.counter - 1;
      var st1 := WalkState(st.points + OwnPoints(c, w, name, builds[0], st.counter), next);
      WalkIsPositional(c, w, name, tail, st1);
      WalkPositionalCons(c, w, name, builds, st, tail, next, st1);
    }
  }

  /**
   * When no build is held back, the counter drops by exactly one per build
   * and the points are those of the builds whose own position is in the
   * window and that hold the report, in iteration order.
   */
  lemma WalkIsPositionalWhenNoneHeld(c: Chart, w: Range, name: string, builds: seq<Build>, st: WalkState)
    requires w.step != 0
    requires forall i :: 0 <= i < |builds| ==> NeverHeld(c, w, builds[i])
    ensures WalkFrom(c, w, name, builds, st)
      == WalkState(st.points + PositionalPoints(c, w, name, builds, st.counter), st.counter - |builds|)
  {
    NoneHeldOfEach(c, w, builds);
    WalkIsPositional(c, w, name, builds, st);
  }

  /**
   * A build inside the window that is held back leaves the counter where it
   * is, so the next build is tested against the same position.
   */
  lemma HeldBuildKeepsPosition(c: Chart, w: Range, name: string, held: Build, rest: seq<Build>, st: WalkState)
    requires w.step != 0 && w.In(st.counter) && !NeverHeld(c, w, held)
    ensures WalkFrom(c, w, name, [held] + rest, st) == WalkFrom(c, w, name, rest, st)
  {
    hide Emit;
    assert ([held] + rest)[0] == held && ([held] + rest)[1..] == rest;
    assert st.points + [] == st.points;
  }

  /** A build in the window whose action lacks the named report adds nothing but uses up its position. */
  lemma MissingReportUsesPosition(c: Chart, w: Range, name: string, b: Build, rest: seq<Build>, st: WalkState)
    requires w.step != 0 && w.In(st.counter) && NeverHeld(c, w, b) && !HasReport(b, name)
    ensures WalkFrom(c, w, name, [b] + rest, st) == WalkFrom(c, w, name, rest, WalkState(st.points, st.counter - 1))
  {
    hide Emit;
    var bs := [b] + rest;
    assert bs[0] == b && bs[1..] == rest;
    WalkStepNeverHeld(c, w, name, bs, st);
    assert OwnPoints(c, w, name, b, st.counter) == [];
    assert st.points + [] == st.points;
  }

  // ---------------------------------------------------------------------
  // Handler entry: report name, window, walk.
  // ---------------------------------------------------------------------

  /** The report a handler draws: the requested one, or else the only one there is. */
  function ResolveReportName(requested: Option<string>, names: seq<string>): (r: Option<string>)
    ensures requested.Some? ==> r == requested
    ensures requested.None? ==> (r.Some? <==> |names| == 1)
    ensures requested.None? && r.Some? ==> r.value == names[0]
  {
    if requested.Some? then requested
    else if |names| == 1 then Some(names[0])
    else None
  }

  /** `isTrendVisibleOnProjectDashboard`: exactly when the unnamed request has a default report. */
  function TrendVisibleOnDashboard(names: seq<string>): (visible: bool)
    ensures visible <==> ResolveReportName(None, names).Some?
  {
    |names| == 1
  }

  /** The ASCII part of Java's case folding. */
  function LowerAscii(c: char): (r: char)
    ensures !('A' <= r <= 'Z')
    ensures !('A' <= c <= 'Z') ==> r == c
    ensures 'A' <= c <= 'Z' ==> 'a' <= r <= 'z' && r as int - 'a' as int == c as int - 'A' as int
  {
    if 'A' <= c <= 'Z' then (c as int + 32) as char else c
  }

  /** `String.equalsIgnoreCase` restricted to ASCII letters: same length, same letters up to case. */
  predicate EqualsIgnoreCase(a: string, b: string)
    ensures EqualsIgnoreCase(a, b) ==> |a| == |b|
    ensures a == b ==> EqualsIgnoreCase(a, b)
  {
    |a| == |b| && forall i :: 0 <= i < |a| ==> LowerAscii(a[i]) == LowerAscii(b[i])
  }

  /** The summarizer data set drawn for the requested report type. */
  function SummarizerKindFor(reportType: string): (k: SummarizerKind)
    ensures k == ErrorPercent <==> EqualsIgnoreCase(reportType, "error")
    ensures k == SummarizerThroughput <==> EqualsIgnoreCase(reportType, "throughput")
    ensures k == ResponseTimes <==>
      !EqualsIgnoreCase(reportType, "error") && !EqualsIgnoreCase(reportType, "throughput")
  {
    if EqualsIgnoreCase(reportType, "error") then ErrorPercent
    else if EqualsIgnoreCase(reportType, "throughput") then SummarizerThroughput
    else ResponseTimes
  }

  /**
   * What a graph handler draws: nothing when no report name can be chosen,
   * the configuration error for an unsupported mode, otherwise the walk's
   * points over the configured window.
   */
  function GraphSpec(c: Chart, requested: Option<string>, names: seq<string>, conf: GraphConfig, builds: seq<Build>)
    : (r: Result<Option<seq<Point>>, ConfigError>)
    ensures ResolveReportName(requested, names).None? ==> r == Ok(None)
    ensures r.Err? <==> ResolveReportName(requested, names).Some? && conf.Unsupported?
    ensures r.Ok? && r.value.Some? ==> forall i :: 0 <= i < |r.value.value| ==>
      r.value.value[i].buildLabel in ReportingNumbers(builds, ResolveReportName(requested, names).value)
  {
    match ResolveReportName(requested, names)
    case None => Ok(None)
    case Some(name) =>
      match WindowFor(conf, Timestamps(builds))
      case Err(e) => Err(e)
      case Ok(w) =>
        var points := WalkFrom(c, w, name, builds, WalkState([], |builds|)).points;
        WalkLabelsComeFromReportingBuilds(c, w, name, builds, WalkState([], |builds|));
        assert forall i :: 0 <= i < |points| ==> points[i].buildLabel in ReportingNumbers(builds, name);
        Ok(Some(points))
  }

  /** A `do*Graph` handler, from request to data set. */
  method GraphData(c: Chart, requested: Option<string>, names: seq<string>, conf: GraphConfig, builds: seq<Build>)
    returns (r: Result<Option<seq<Point>>, ConfigError>)
    ensures r == GraphSpec(c, requested, names, conf, builds)
  {
    var name := ResolveReportName(requested, names);
    if name.None? {
      return Ok(None);
    }
    var window := FirstAndLastBuild(conf, Timestamps(builds));
    if window.Err? {
      return Err(window.error);
    }
    var points := Walk(c, window.value, name.value, builds);
    return Ok(Some(points));
  }

  /** `getTrendReportData`: the seven-statistic walk for the named report. */
  method TrendReportData(name: string, conf: GraphConfig, builds: seq<Build>)
    returns (r: Result<seq<Point>, ConfigError>)
    ensures r.Err? <==> conf.Unsupported?
    ensures r.Ok? ==> r == Ok(WalkFrom(TrendReport, WindowFor(conf, Timestamps(builds)).value, name, builds,
      WalkState([], |builds|)).points)
  {
    var window := FirstAndLastBuild(conf, Timestamps(builds));
    if window.Err? {
      return Err(window.error);
    }
    var points := Walk(TrendReport, window.value, name, builds);
    return Ok(points);
  }
}
