/** The figures the summary report derives from one timing path: data
    latency, clock skew, the datapath level, the lengths of the launch and
    capture clock segments, and the network part of each clock latency.
    The report holds its times as exact decimals; they are `real` here. */
module Summary {
  import opened Wrappers

  /** The fields of a parsed timing path that the derived figures read.
      `lpath` is the launch path (clock network, then data network) and
      `cpath` the capture clock path; `spin` is the index of the
      startpoint clock pin in `lpath`, `sgpi`/`egpi` the index of the pin
      where the launch/capture clock segment leaves its source. */
  datatype TimePath<P> = TimePath(
    lpath: seq<P>, cpath: seq<P>, spin: nat,
    sgpi: Option<nat>, egpi: Option<nat>,
    arr: real, idly: real, sev: real,
    llat: real, clat: real, crpr: real,
    sllat: real, sclat: real)

  /** The indices a parsed path keeps within bounds: the startpoint pin is
      on the launch path, the launch source index does not pass it, and the
      capture source index is on the capture path. */
  predicate Indexed<P>(path: TimePath<P>) {
    && path.spin < |path.lpath|
    && (path.sgpi.Some? ==> path.sgpi.value <= path.spin)
    && (path.egpi.Some? ==> path.egpi.value < |path.cpath|)
  }

  /** Data latency: the arrival time less the input delay, the launch
      clock latency and the launch edge. */
  function DataLatency<P>(path: TimePath<P>): (dlat: real)
    ensures path.sev + path.llat + path.idly + dlat == path.arr
  {
    path.arr - path.idly - path.llat - path.sev
  }

  /** Clock skew: launch clock latency less capture clock latency, with the
      reconvergence pessimism removed. */
  function Skew<P>(path: TimePath<P>): (skew: real)
    ensures path.clat + path.crpr + skew == path.llat
    ensures skew > 0.0 <==> path.llat > path.clat + path.crpr
  {
    path.llat - path.clat - path.crpr
  }

  /** The datapath level: the pins of the launch path after the startpoint
      clock pin. */
  function DatapathLevel<P>(path: TimePath<P>): (level: int)
    ensures level + path.spin + 1 == |path.lpath|
    ensures path.spin < |path.lpath| ==> level == |path.lpath[path.spin + 1..]|
  {
    |path.lpath| - path.spin - 1
  }

  /** The launch clock segment's length: the pins up to and including the
      startpoint clock pin, counted from the launch source index on when
      there is one. */
  function LaunchSegmentLength<P>(path: TimePath<P>): (n: int)
    ensures Indexed(path) && path.sgpi.None? ==> n == |path.lpath[..path.spin + 1]|
    ensures Indexed(path) && path.sgpi.Some? ==> n == |path.lpath[path.sgpi.value + 1..path.spin + 1]|
  {
    if path.sgpi.None? then path.spin + 1 else path.spin - path.sgpi.value
  }

  /** The capture clock segment's length: the whole capture path, or the
      pins after the capture source index when there is one. */
  function CaptureSegmentLength<P>(path: TimePath<P>): (n: int)
    ensures path.egpi.None? ==> n == |path.cpath|
    ensures Indexed(path) && path.egpi.Some? ==> n == |path.cpath[path.egpi.value + 1..]|
  {
    if path.egpi.None? then |path.cpath| else |path.cpath| - path.egpi.value - 1
  }

  /** The launch clock latency beyond the source latency. */
  function LaunchNetworkLatency<P>(path: TimePath<P>): (bllat: real)
    ensures path.sllat + bllat == path.llat
  {
    path.llat - path.sllat
  }

  /** The capture clock latency beyond the source latency. */
  function CaptureNetworkLatency<P>(path: TimePath<P>): (bclat: real)
    ensures path.sclat + bclat == path.clat
  {
    path.clat - path.sclat
  }

  /** The capture source latency the report shows: with the reconvergence
      pessimism added when the configuration asks for it. */
  function CaptureSourceLatency<P>(path: TimePath<P>, incCrpr: bool): (sclat: real)
    ensures incCrpr ==> sclat - path.crpr == path.sclat
    ensures !incCrpr ==> sclat == path.sclat
  {
    if incCrpr then path.sclat + path.crpr else path.sclat
  }

  // -------------------------------------------------------------- lemmas

  /** The launch path splits into the pins before the launch segment, the
      launch segment, and the data pins: their lengths add up to the whole
      path. */
  lemma LaunchPartition<P>(path: TimePath<P>)
    requires Indexed(path)
    ensures var before := if path.sgpi.Some? then path.sgpi.value + 1 else 0;
      && 0 <= LaunchSegmentLength(path)
      && before + LaunchSegmentLength(path) + DatapathLevel(path) == |path.lpath|
      && path.lpath == path.lpath[..before]
                       + path.lpath[before..path.spin + 1]
                       + path.lpath[path.spin + 1..]
  {
    var before := if path.sgpi.Some? then path.sgpi.value + 1 else 0;
    assert path.lpath[..before] + path.lpath[before..path.spin + 1] == path.lpath[..path.spin + 1];
  }

  /** The capture segment is never longer than the capture path and never
      negative. */
  lemma CapturePartition<P>(path: TimePath<P>)
    requires Indexed(path)
    ensures 0 <= CaptureSegmentLength(path) <= |path.cpath|
    ensures path.egpi.Some? ==>
      path.cpath == path.cpath[..path.egpi.value + 1] + path.cpath[path.egpi.value + 1..]
  {
  }

  /** Skew splits into the difference of the source latencies, the
      difference of the network latencies, and the pessimism removal. */
  lemma SkewSplit<P>(path: TimePath<P>)
    ensures Skew(path)
         == (path.sllat - path.sclat)
            + (LaunchNetworkLatency(path) - CaptureNetworkLatency(path))
            - path.crpr
  {
  }

  /** Launch latency 2.0, capture latency 1.2 and pessimism removal 0.3 give
      a skew of 0.5. */
  lemma SkewExample<P>(path: TimePath<P>)
    requires path.llat == 2.0 && path.clat == 1.2 && path.crpr == 0.3
    ensures Skew(path) == 0.5
  {
  }
}
