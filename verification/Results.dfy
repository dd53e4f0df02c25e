/** What the parsers report, read off the finished records. */
module Results {
  import opened Wrappers
  import opened AuditLog
  import opened Replay
  import opened BoundJoin
  import opened Reports
  import opened Parsers
  import opened Refinement

  /** d is the time from t to u in whole microseconds, rounded toward zero. */
  predicate Micros(d: int, t: int, u: int) {
    if t <= u then 1000 * d <= u - t < 1000 * d + 1000 else 1000 * d - 1000 < u - t <= 1000 * d
  }

  /** Times are in nanoseconds; differences beyond 64 bits are cut to 64 bits. */
  lemma DiffIsMicros(t: int, u: int)
    ensures -0x8000_0000_0000_0000 <= u - t <= 0x7FFF_FFFF_FFFF_FFFF ==> Micros(TimeDiff(t, u), t, u)
    ensures u - t > 0x7FFF_FFFF_FFFF_FFFF ==> TimeDiff(t, u) == 9223372036854775
    ensures u - t < -0x8000_0000_0000_0000 ==> TimeDiff(t, u) == -9223372036854775
  {
  }

  predicate Close(t: int, u: int) {
    -0x8000_0000_0000_0000 <= u - t <= 0x7FFF_FFFF_FFFF_FFFF
  }

  /** The report is about this record: its duration is the time from its start to its end,
      and its resource is named as users know it. */
  predicate IsReportOf(p: Report, r: Record) {
    && p.action == r.action && p.name == r.id.name && p.namespace == r.id.namespace && p.labels == r.labels
    && p.goals == r.goals && p.unfinished == r.unfinished
    && r.endTime.Some? && (Close(r.startTime, r.endTime.value) ==> Micros(p.duration, r.startTime, r.endTime.value))
    && p.resource == match r.id.resource
                     case Deployments => "Deployment"
                     case Jobs => "Job"
                     case PersistentVolumeClaims => "PersistentVolumeClaim"
                     case PersistentVolumes => "PersistentVolume"
                     case Pods => "Pod"
                     case ReplicaSets => "ReplicaSet"
                     case StatefulSets => "StatefulSet"
                     case Events => "events"
                     case Other(text) => text
  }

  /** The times between start, binding, attachment, container creation and end. */
  predicate AreStagesOf(d: Deltas, start: int, bound: int, attach: int, container: int, end: int) {
    && (Close(start, bound) ==> Micros(d.d12, start, bound))
    && (Close(bound, attach) ==> Micros(d.d23, bound, attach))
    && (Close(attach, container) ==> Micros(d.d34, attach, container))
    && (Close(container, end) ==> Micros(d.d45, container, end))
    && (Close(start, container) ==> Micros(d.d14, start, container))
  }

  lemma StagesMeasured(r: Record)
    requires r.endTime.Some? && r.boundTime.Some? && r.attachTime.Some? && r.containerTime.Some?
    ensures AreStagesOf(AllDeltas(r), r.startTime, r.boundTime.value, r.attachTime.value, r.containerTime.value, r.endTime.value)
  {
    DiffIsMicros(r.startTime, r.boundTime.value);
    DiffIsMicros(r.boundTime.value, r.attachTime.value);
    DiffIsMicros(r.attachTime.value, r.containerTime.value);
    DiffIsMicros(r.containerTime.value, r.endTime.value);
    DiffIsMicros(r.startTime, r.containerTime.value);
  }

  predicate HasNoLeftovers(p: Report) {
    p.pvName.None? && p.attachTime.None? && p.containerTime.None? && p.boundTime.None?
  }

  /** The report of one record in a batch: with stage times exactly if pods are parsed and
      a volume was attached, and none if one of those times is missing. */
  lemma BatchSaysOfOne(flags: Flags, r: Record)
    requires r.endTime.Some?
    ensures BatchReport(flags, r).None? <==> flags.pvcPod && r.attachTime.Some? && (r.boundTime.None? || r.containerTime.None?)
    ensures BatchReport(flags, r).Some? ==>
              var p := BatchReport(flags, r).value;
              && IsReportOf(p, r) && HasNoLeftovers(p)
              && (p.deltas.Some? <==> flags.pvcPod && r.attachTime.Some?)
              && (p.deltas.Some? ==>
                    AreStagesOf(p.deltas.value, r.startTime, r.boundTime.value, r.attachTime.value, r.containerTime.value, r.endTime.value))
  {
    DiffIsMicros(r.startTime, r.endTime.value);
    if r.boundTime.Some? && r.attachTime.Some? && r.containerTime.Some? {
      StagesMeasured(r);
    }
  }

  lemma {:induction false} BatchReportsAt(flags: Flags, rs: seq<Record>, i: nat)
    requires AllEnded(rs) && BatchReports(flags, rs).Some? && i < |rs|
    ensures var ps := BatchReports(flags, rs).value; |ps| == |rs| && BatchReport(flags, rs[i]) == Some(ps[i])
    decreases |rs|
  {
    var last := |rs| - 1;
    assert AllEnded(rs[..last]) && rs[last] in rs;
    if i < last {
      BatchReportsAt(flags, rs[..last], i);
    } else if last > 0 {
      BatchReportsAt(flags, rs[..last], 0);
    }
  }

  /** A batch answers with one report for each finished record, in order; only the bound
      times come from the join. */
  lemma BatchSays(flags: Flags, rs: seq<Record>, i: nat)
    requires AllEnded(rs) && BatchAnswer(flags, rs).Parsed? && i < |rs|
    ensures var ps := BatchAnswer(flags, rs).reports;
            && |ps| == |rs| && rs[i] in rs && IsReportOf(ps[i], rs[i]) && HasNoLeftovers(ps[i])
            && (ps[i].deltas.Some? <==> flags.pvcPod && rs[i].attachTime.Some?)
            && (ps[i].deltas.Some? ==>
                  && Joined(rs)[i].boundTime.Some? && rs[i].containerTime.Some?
                  && AreStagesOf(ps[i].deltas.value, rs[i].startTime, Joined(rs)[i].boundTime.value, rs[i].attachTime.value,
                                 rs[i].containerTime.value, rs[i].endTime.value))
  {
    JoinKeepsTheRest(rs);
    var js := if flags.pvcPod then Joined(rs) else rs;
    assert AllEnded(js) by {
      forall j | j in js
        ensures j.endTime.Some?
      {
        var k :| 0 <= k < |js| && js[k] == j;
        assert rs[k] in rs;
      }
    }
    BatchReportsAt(flags, js, i);
    BatchSaysOfOne(flags, js[i]);
  }

  /** And it crashes instead exactly if pods are parsed and the record of one to which a
      volume was attached lacks a time. */
  lemma BatchCrashesIff(flags: Flags, rs: seq<Record>)
    requires AllEnded(rs)
    ensures BatchAnswer(flags, rs).Crashed? <==>
              flags.pvcPod && exists i :: 0 <= i < |rs| && rs[i].attachTime.Some? && (Joined(rs)[i].boundTime.None? || rs[i].containerTime.None?)
  {
    JoinKeepsTheRest(rs);
    var js := if flags.pvcPod then Joined(rs) else rs;
    forall j | j in js
      ensures j.endTime.Some? && exists k :: 0 <= k < |js| && js[k] == j
    {
      var k :| 0 <= k < |js| && js[k] == j;
      assert rs[k] in rs;
    }
    ReportsCrashIff(flags, js);
    if i :| flags.pvcPod && 0 <= i < |rs| && rs[i].attachTime.Some? && (Joined(rs)[i].boundTime.None? || rs[i].containerTime.None?) {
      assert js[i] in js;
    }
  }

  /** Streaming prints a finished record once for every time its namespace is listed, with
      whatever times are still on it. */
  lemma {:induction false} StreamingSays(r: Record, namespaces: seq<string>)
    requires r.endTime.Some?
    ensures var p := Timed(r);
            && IsReportOf(p, r) && p.deltas.None? && p.pvName == r.pvName
            && p.attachTime == r.attachTime && p.containerTime == r.containerTime && p.boundTime == r.boundTime
            && |Copies(p, namespaces)| == multiset(namespaces)[r.id.namespace]
            && forall q :: q in Copies(p, namespaces) ==> q == p
  {
    DiffIsMicros(r.startTime, r.endTime.value);
    if namespaces != [] {
      var last := |namespaces| - 1;
      StreamingSays(r, namespaces[..last]);
      assert namespaces == namespaces[..last] + [namespaces[last]];
    }
  }

  /** The records are printed in the order in which they are closed. */
  lemma PrintsInOrder(rs: seq<Record>, r: Record, namespaces: seq<string>)
    requires AllEnded(rs) && r.endTime.Some?
    ensures AllEnded(rs + [r]) && Printed(rs + [r], namespaces) == Printed(rs, namespaces) + Copies(Timed(r), namespaces)
    ensures Printed([], namespaces) == []
  {
    assert (rs + [r])[..|rs|] == rs;
  }

  /** Lines that do not decode are passed over, the others are taken in order. */
  lemma EntriesOfLines(lines: seq<Line>, log: Log)
    ensures Entries([]) == [] && Entries(lines + [Garbled]) == Entries(lines) && Entries(lines + [Entry(log)]) == Entries(lines) + [log]
  {
    assert (lines + [Garbled])[..|lines|] == lines && (lines + [Entry(log)])[..|lines|] == lines;
  }
}
