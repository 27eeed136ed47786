/**
 * The build records the trend graphs walk. The statistics a
 * PerformanceReport or UriReport computes from its samples are carried here
 * as plain values: their computation is not part of this model.
 */
module Builds {
  import opened Wrappers

  /** One HttpSample as the per-test-case chart reads it. */
  datatype SampleStat = SampleStat(uri: string, duration: int, hasError: bool)

  /**
   * One UriReport: its uri, its statistics, and the summarizer figures of
   * its first sample (a UriReport always holds at least one sample).
   */
  datatype UriStats = UriStats(
    uri: string,
    average: int,
    averageBytes: real,
    summarizerMin: int,
    summarizerMax: int,
    throughput: real,
    summarizerErrors: real)

  /**
   * One PerformanceReport: its statistics, its uri reports in the map's
   * iteration order, and all its samples in sorted order.
   */
  datatype PerfReport = PerfReport(
    average: real,
    median: real,
    line90: real,
    min: real,
    max: real,
    errorPercent: real,
    countErrors: real,
    throughput: real,
    averageBytes: real,
    uris: seq<UriStats>,
    samples: seq<SampleStat>)

  /** PerformanceBuildAction: the build's reports by file name. */
  datatype BuildAction = BuildAction(reports: map<string, PerfReport>)

  /** A build as the graphs see it: number, timestamp, and the action if the build has one. */
  datatype Build = Build(number: int, timestamp: int, action: Option<BuildAction>)

  /** The timestamps of the builds, in iteration order. */
  function Timestamps(builds: seq<Build>): (r: seq<int>)
    ensures |r| == |builds|
    ensures forall i :: 0 <= i < |builds| ==> r[i] == builds[i].timestamp
  {
    if builds == [] then [] else [builds[0].timestamp] + Timestamps(builds[1..])
  }

  /** The build has an action holding a report under `name`. */
  predicate HasReport(b: Build, name: string) {
    b.action.Some? && name in b.action.value.reports
  }
}
