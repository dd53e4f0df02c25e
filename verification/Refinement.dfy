/** The streaming parser against the batch parser, and the order of what they report. */
module Refinement {
  import opened Wrappers
  import opened AuditLog
  import opened Replay
  import opened Matching
  import opened Kinds
  import opened BoundJoin
  import opened Reports
  import opened Parsers
  import opened Suppression

  /** No creation is suppressed: none starts while a record of that name is in progress. */
  ghost predicate NeverSuppresses(flags: Flags, logs: seq<Log>) {
    forall k :: 0 <= k < |logs| ==>
      !(VerdictAt(flags, false, logs, k).OpenCreate? && Suppressed(Run(flags, false, logs[..k]).0.ongoing, logs[k]))
  }

  lemma SameApply(v: Verdict, s: State, log: Log)
    requires Valid(s) && Justified(v, s.ongoing, s.store, log)
    requires !(v.OpenCreate? && Suppressed(s.ongoing, log))
    ensures Apply(v, true, s, log) == Apply(v, false, s, log)
  {
  }

  lemma NeverBefore(flags: Flags, logs: seq<Log>)
    requires logs != [] && NeverSuppresses(flags, logs)
    ensures NeverSuppresses(flags, logs[..|logs| - 1])
  {
    var before := logs[..|logs| - 1];
    forall k | 0 <= k < |before|
      ensures !(VerdictAt(flags, false, before, k).OpenCreate? && Suppressed(Run(flags, false, before[..k]).0.ongoing, before[k]))
    {
      assert before[..k] == logs[..k] && before[k] == logs[k];
      assert !(VerdictAt(flags, false, logs, k).OpenCreate? && Suppressed(Run(flags, false, logs[..k]).0.ongoing, logs[k]));
    }
  }

  /** Then both parsers go through the same states and close the same records. */
  lemma {:induction false} SameRuns(flags: Flags, logs: seq<Log>)
    requires NeverSuppresses(flags, logs)
    ensures Run(flags, true, logs) == Run(flags, false, logs)
  {
    if logs != [] {
      var n := |logs| - 1;
      NeverBefore(flags, logs);
      SameRuns(flags, logs[..n]);
      var s := Run(flags, false, logs[..n]).0;
      assert !(VerdictAt(flags, false, logs, n).OpenCreate? && Suppressed(s.ongoing, logs[n]));
      SameApply(Judge(flags, s.ongoing, s.store, logs[n]), s, logs[n]);
    }
  }

  /** Each report once per occurrence of its namespace in the list, in order. */
  function Repeated(reports: seq<Report>, namespaces: seq<string>): seq<Report> {
    if reports == [] then []
    else
      var last := |reports| - 1;
      Repeated(reports[..last], namespaces) + Copies(reports[last], namespaces)
  }

  function StripAll(reports: seq<Report>): seq<Report> {
    seq(|reports|, i requires 0 <= i < |reports| => Stripped(reports[i]))
  }

  lemma {:induction false} CopiesOfStripped(r: Report, namespaces: seq<string>)
    ensures StripAll(Copies(r, namespaces)) == Copies(Stripped(r), namespaces)
  {
    if namespaces != [] {
      CopiesOfStripped(r, namespaces[..|namespaces| - 1]);
    }
  }

  lemma RepeatedMore(reports: seq<Report>, r: Report, namespaces: seq<string>)
    ensures Repeated(reports + [r], namespaces) == Repeated(reports, namespaces) + Copies(r, namespaces)
  {
    assert (reports + [r])[..|reports|] == reports;
  }

  lemma StripBoth(xs: seq<Report>, ys: seq<Report>)
    ensures StripAll(xs + ys) == StripAll(xs) + StripAll(ys)
  {
  }

  // ----- exactly when the reports agree -----

  lemma SplitEqual(a: seq<Report>, b: seq<Report>, c: seq<Report>, d: seq<Report>)
    requires |a| == |c|
    ensures a + b == c + d <==> a == c && b == d
  {
    assert (a + b)[..|a|] == a && (a + b)[|a|..] == b && (c + d)[..|c|] == c && (c + d)[|c|..] == d;
  }

  lemma {:induction false} CopiesCount(a: Report, b: Report, namespaces: seq<string>)
    requires a.namespace == b.namespace
    ensures |Copies(a, namespaces)| == |Copies(b, namespaces)|
    ensures Copies(a, namespaces) == Copies(b, namespaces) <==> a == b || a.namespace !in namespaces
  {
    if namespaces != [] {
      var last := |namespaces| - 1;
      CopiesCount(a, b, namespaces[..last]);
      var before, before' := Copies(a, namespaces[..last]), Copies(b, namespaces[..last]);
      assert namespaces == namespaces[..last] + [namespaces[last]];
      if namespaces[last] == a.namespace {
        SplitEqual(before, [a], before', [b]);
        assert [a][0] == a && [b][0] == b;
      } else {
        assert Copies(a, namespaces) == before && Copies(b, namespaces) == before';
      }
    }
  }

  /** The join has changed nothing but volume names and bound times. */
  ghost predicate JoinedFrom(js: seq<Record>, rs: seq<Record>) {
    |js| == |rs| && forall i :: 0 <= i < |rs| ==> js[i].(pvName := rs[i].pvName, boundTime := rs[i].boundTime) == rs[i]
  }

  lemma ReportIff(flags: Flags, r: Record, j: Record, namespaces: seq<string>)
    requires r.endTime.Some? && j.(pvName := r.pvName, boundTime := r.boundTime) == r && BatchReport(flags, j).Some?
    ensures var report := BatchReport(flags, j).value;
            && |Copies(Timed(r), namespaces)| == |Copies(report, namespaces)|
            && (StripAll(Copies(Timed(r), namespaces)) == Copies(report, namespaces) <==>
                  r.id.namespace !in namespaces || !(flags.pvcPod && r.attachTime.Some?))
            && (Copies(Timed(r), namespaces) == Copies(report, namespaces) <==> r.id.namespace !in namespaces || Clean(r))
  {
    var report := BatchReport(flags, j).value;
    CopiesOfStripped(Timed(r), namespaces);
    CopiesCount(Timed(r), report, namespaces);
    CopiesCount(Stripped(Timed(r)), report, namespaces);
  }

  lemma BatchReportsLast(flags: Flags, js: seq<Record>)
    requires js != [] && AllEnded(js) && BatchReports(flags, js).Some?
    ensures var last := |js| - 1;
            && AllEnded(js[..last]) && js[last].endTime.Some?
            && BatchReports(flags, js[..last]).Some? && BatchReport(flags, js[last]).Some?
            && BatchReports(flags, js).value == BatchReports(flags, js[..last]).value + [BatchReport(flags, js[last]).value]
  {
    assert forall x :: x in js[..|js| - 1] ==> x in js;
  }

  lemma {:induction false} ReportsIff(flags: Flags, rs: seq<Record>, js: seq<Record>, namespaces: seq<string>)
    requires AllEnded(rs) && AllEnded(js) && JoinedFrom(js, rs) && BatchReports(flags, js).Some?
    ensures var reports := BatchReports(flags, js).value;
            && |Printed(rs, namespaces)| == |Repeated(reports, namespaces)|
            && (StripAll(Printed(rs, namespaces)) == Repeated(reports, namespaces) <==>
                  forall r :: r in rs && r.id.namespace in namespaces ==> !(flags.pvcPod && r.attachTime.Some?))
            && (Printed(rs, namespaces) == Repeated(reports, namespaces) <==>
                  forall r :: r in rs && r.id.namespace in namespaces ==> Clean(r))
    decreases |rs|
  {
    if rs != [] {
      var last := |rs| - 1;
      assert rs == rs[..last] + [rs[last]];
      assert forall x :: x in rs <==> x in rs[..last] || x == rs[last];
      BatchReportsLast(flags, js);
      ReportsIff(flags, rs[..last], js[..last], namespaces);
      ReportIff(flags, rs[last], js[last], namespaces);
      var before, now := BatchReports(flags, js[..last]).value, BatchReport(flags, js[last]).value;
      RepeatedMore(before, now, namespaces);
      var printed, copies := Printed(rs[..last], namespaces), Copies(Timed(rs[last]), namespaces);
      StripBoth(printed, copies);
      SplitEqual(printed, copies, Repeated(before, namespaces), Copies(now, namespaces));
      SplitEqual(StripAll(printed), StripAll(copies), Repeated(before, namespaces), Copies(now, namespaces));
    }
  }

  /** Exactly when the two parsers report the same, whatever the flags and the log, as long
      as no creation is closed that streaming refuses and the batch parser does not crash:
      up to the times and names that streaming leaves on a record, unless pod parsing is on
      and a record in a listed namespace was attached; to the letter, if and only if
      nothing is left on any record in a listed namespace. */
  lemma StreamingAgreesIff(flags: Flags, logs: seq<Log>, namespaces: seq<string>)
    requires RefusalsStayOpen(flags, logs)
    ensures var streamed, closed := Records(Run(flags, true, logs).1), Records(Run(flags, false, logs).1);
            && AllEnded(streamed) && AllEnded(closed)
            && (BatchAnswer(flags, closed).Parsed? ==>
                  var reports := BatchAnswer(flags, closed).reports;
                  && (StripAll(Printed(streamed, namespaces)) == Repeated(reports, namespaces) <==>
                        forall r :: r in closed && r.id.namespace in namespaces ==> !(flags.pvcPod && r.attachTime.Some?))
                  && (Printed(streamed, namespaces) == Repeated(reports, namespaces) <==>
                        forall r :: r in closed && r.id.namespace in namespaces ==> Clean(r)))
  {
    SameClosedIff(flags, logs);
    RunEnds(flags, false, logs);
    var closed := Records(Run(flags, false, logs).1);
    JoinKeepsTheRest(closed);
    if BatchAnswer(flags, closed).Parsed? {
      ReportsIff(flags, closed, if flags.pvcPod then Joined(closed) else closed, namespaces);
    }
  }

  /** The batch parser crashes on its closed records exactly when pod parsing is on and one
      of them was attached but was given no claim or no container time. */
  lemma {:induction false} ReportsCrashIff(flags: Flags, rs: seq<Record>)
    requires AllEnded(rs)
    ensures BatchReports(flags, rs).None? <==> exists r :: r in rs && flags.pvcPod && r.attachTime.Some? && !HasAllTimes(r)
  {
    if rs != [] {
      var last := |rs| - 1;
      assert rs == rs[..last] + [rs[last]];
      assert forall x :: x in rs <==> x in rs[..last] || x == rs[last];
      ReportsCrashIff(flags, rs[..last]);
    }
  }

  /** Streaming refines batch: with creation parsing off, whatever the other flags, the
      log and the list of namespaces, what streaming prints is the batch parser's
      answer, report for report and in order, each as often as its namespace is
      listed. */
  lemma StreamingRefinesBatch(flags: Flags, logs: seq<Log>, namespaces: seq<string>)
    requires !flags.create
    ensures var streamed, closed := Records(Run(flags, true, logs).1), Records(Run(flags, false, logs).1);
            && AllEnded(streamed) && AllEnded(closed)
            && BatchAnswer(flags, closed).Parsed?
            && Printed(streamed, namespaces) == Repeated(BatchAnswer(flags, closed).reports, namespaces)
  {
    forall k | 0 <= k < |logs|
      ensures !VerdictAt(flags, false, logs, k).OpenCreate?
    {
      var s := Run(flags, false, logs[..k]).0;
      NoCreateVerdicts(flags, s.ongoing, s.store, logs[k]);
    }
    SameRuns(flags, logs);
    RunEnds(flags, false, logs);
    StaysBare(flags, false, logs);
    var rs := Records(Run(flags, false, logs).1);
    assert Joined(rs) == rs;
    ReportsCrashIff(flags, rs);
    ReportsIff(flags, rs, rs, namespaces);
  }

  /** With creation parsing on and pod parsing off, the same holds up to the volume
      names that streaming leaves on claims, as long as no creation is closed that
      streaming refuses. */
  lemma StreamingRefinesBatchForCreates(flags: Flags, logs: seq<Log>, namespaces: seq<string>)
    requires !flags.pvcPod && RefusalsStayOpen(flags, logs)
    ensures var streamed, closed := Records(Run(flags, true, logs).1), Records(Run(flags, false, logs).1);
            && AllEnded(streamed) && AllEnded(closed)
            && BatchAnswer(flags, closed).Parsed?
            && StripAll(Printed(streamed, namespaces)) == Repeated(BatchAnswer(flags, closed).reports, namespaces)
  {
    StreamingAgreesIff(flags, logs, namespaces);
    ReportsCrashIff(flags, Records(Run(flags, false, logs).1));
  }

  /** Streaming tests for a resource called "pod", and over every run, whatever the flags
      and the log, no closed record has one: the records say "pods".  So its branch for
      pods is dead, nothing is held back, nothing panics there, and no report that is
      printed has stage times. */
  lemma PodBranchIsDead(flags: Flags, dedupe: bool, logs: seq<Log>, r: Record)
    requires r in Records(Run(flags, dedupe, logs).1)
    ensures r.endTime.Some? && !SaysPod(r)
    ensures StreamReport(flags, r) == Printout(Timed(r)) && Timed(r).deltas.None?
  {
    StaysSupported(flags, dedupe, logs);
    RunEnds(flags, dedupe, logs);
  }

  /** The branch is live for the records it was written for. */
  lemma PodBranchWouldReport(flags: Flags, r: Record)
    requires flags.pvcPod && SaysPod(r) && HasAllTimes(r)
    ensures StreamReport(flags, r).Printout? && StreamReport(flags, r).report.deltas == Some(AllDeltas(r))
  {
  }

  lemma RunOfOne(flags: Flags, dedupe: bool, logs: seq<Log>, log: Log)
    ensures var (s, cs) := Run(flags, dedupe, logs);
            var (s', c) := Step(flags, dedupe, s, log);
            Run(flags, dedupe, logs + [log]) == (s', cs + Emitted(c))
  {
    assert (logs + [log])[..|logs|] == logs;
  }

  lemma CreateJudged(flags: Flags, ongoing: seq<Record>, store: Store, log: Log)
    requires flags.create && log.responseComplete && IsCreateStart(log)
    ensures Judge(flags, ongoing, store, log).OpenCreate?
  {
  }

  lemma EndJudged(flags: Flags, ongoing: seq<Record>, store: Store, log: Log)
    requires flags.create && !flags.scale && !flags.pvcPod && log.responseComplete && MayEndCreate(log)
    ensures var i := FindOpen(CreateAction, IdOf(log), ongoing);
            Judge(flags, ongoing, store, log) == if i >= 0 then CloseCreate(i) else Ignore
  {
  }

  const ONLY_CREATE := Flags(true, false, false, false)

  lemma FirstOpens(dedupe: bool, first: Log)
    requires first.responseComplete && IsCreateStart(first)
    ensures Run(ONLY_CREATE, dedupe, [first]) == (State([NewRecord(CreateAction, first)], [0], map[], 1), [])
  {
    RunOfOne(ONLY_CREATE, dedupe, [], first);
    CreateJudged(ONLY_CREATE, [], map[], first);
    var r := NewRecord(CreateAction, first);
    assert [] + [first] == [first] && [] + [r] == [r] && [] + [0] == [0];
    assert Append(Empty(), r) == State([r], [0], map[], 0);
    var (s', c) := Step(ONLY_CREATE, dedupe, Empty(), first);
    assert c == None;
    assert s' == State([r], [0], map[], 1);
    assert Run(ONLY_CREATE, dedupe, []).1 + Emitted(c) == [];
  }

  lemma BatchOpensBoth(first: Log, second: Log)
    requires first.responseComplete && second.responseComplete && IsCreateStart(first) && IsCreateStart(second)
    ensures Run(ONLY_CREATE, false, [first] + [second]) ==
              (State([NewRecord(CreateAction, first), NewRecord(CreateAction, second)], [0, 1], map[], 2), [])
  {
    var r1, r2 := NewRecord(CreateAction, first), NewRecord(CreateAction, second);
    FirstOpens(false, first);
    RunOfOne(ONLY_CREATE, false, [first], second);
    CreateJudged(ONLY_CREATE, [r1], map[], second);
    assert Append(State([r1], [0], map[], 1), r2) == State([r1, r2], [0, 1], map[], 1);
  }

  lemma StreamingOpensOne(first: Log, second: Log)
    requires first.responseComplete && second.responseComplete && IsCreateStart(first) && IsCreateStart(second)
    requires IdOf(first).name == second.name
    ensures Run(ONLY_CREATE, true, [first] + [second]) == (State([NewRecord(CreateAction, first)], [0], map[], 2), [])
  {
    var r := NewRecord(CreateAction, first);
    FirstOpens(true, first);
    RunOfOne(ONLY_CREATE, true, [first], second);
    CreateJudged(ONLY_CREATE, [r], map[], second);
    assert Suppressed([r], second) by {
      assert r in [r];
    }
  }

  lemma IgnoredStep(flags: Flags, dedupe: bool, s: State, log: Log)
    requires Valid(s) && Judge(flags, s.ongoing, s.store, log).Ignore?
    ensures Step(flags, dedupe, s, log) == (s.(seen := s.seen + 1), None)
  {
  }

  lemma RunIgnores(flags: Flags, dedupe: bool, logs: seq<Log>, s: State, log: Log)
    requires Run(flags, dedupe, logs) == (s, []) && Judge(flags, s.ongoing, s.store, log).Ignore?
    ensures Run(flags, dedupe, logs + [log]).1 == []
  {
    RunOfOne(flags, dedupe, logs, log);
    IgnoredStep(flags, dedupe, s, log);
  }

  lemma BatchClosesSecond(first: Log, second: Log, ready: Log)
    requires first.responseComplete && second.responseComplete && ready.responseComplete
    requires IsCreateStart(first) && IsCreateStart(second) && MayEndCreate(ready)
    requires IdOf(second) == IdOf(ready) != IdOf(first)
    ensures |Run(ONLY_CREATE, false, [first] + [second] + [ready]).1| == 1
  {
    var r1, r2 := NewRecord(CreateAction, first), NewRecord(CreateAction, second);
    BatchOpensBoth(first, second);
    RunOfOne(ONLY_CREATE, false, [first] + [second], ready);
    EndJudged(ONLY_CREATE, [r1, r2], map[], ready);
    assert FindOpen(CreateAction, IdOf(ready), [r1, r2]) == 1;
  }

  lemma StreamingClosesNone(first: Log, second: Log, ready: Log)
    requires first.responseComplete && second.responseComplete && ready.responseComplete
    requires IsCreateStart(first) && IsCreateStart(second) && MayEndCreate(ready)
    requires IdOf(first).name == second.name && IdOf(ready) != IdOf(first)
    ensures Run(ONLY_CREATE, true, [first] + [second] + [ready]).1 == []
  {
    var r1 := NewRecord(CreateAction, first);
    StreamingOpensOne(first, second);
    EndJudged(ONLY_CREATE, [r1], map[], ready);
    assert FindOpen(CreateAction, IdOf(ready), [r1]) == -1;
    RunIgnores(ONLY_CREATE, true, [first] + [second], State([r1], [0], map[], 2), ready);
  }

  /** Suppression loses records: two objects of one name are created, the second while
      the first is still in progress, and the second becomes ready.  The batch parser
      reports it; the streaming parser never opened it. */
  lemma SuppressionLosesCreations(first: Log, second: Log, ready: Log)
    requires first.responseComplete && second.responseComplete && ready.responseComplete
    requires IsCreateStart(first) && IsCreateStart(second) && MayEndCreate(ready)
    requires IdOf(first).name == second.name && IdOf(second) == IdOf(ready) != IdOf(first)
    ensures var logs := [first] + [second] + [ready];
            && |Run(ONLY_CREATE, false, logs).1| == 1 && Run(ONLY_CREATE, true, logs).1 == []
            && !RefusalsStayOpen(ONLY_CREATE, logs)
  {
    BatchClosesSecond(first, second, ready);
    StreamingClosesNone(first, second, ready);
    SameClosedIff(ONLY_CREATE, [first] + [second] + [ready]);
  }

  // ----- order and durations -----

  /** Entries come in the order of their stage times and no request is later than its stage. */
  ghost predicate Chronological(logs: seq<Log>) {
    && (forall k :: 0 <= k < |logs| ==> logs[k].requestTime <= logs[k].stageTime)
    && (forall j, k :: 0 <= j < k < |logs| ==> logs[j].stageTime <= logs[k].stageTime)
  }

  /** Records close in the order of their end times, and no duration is negative. */
  lemma ResultsInOrder(flags: Flags, dedupe: bool, logs: seq<Log>)
    requires Chronological(logs)
    ensures var rs := Records(Run(flags, dedupe, logs).1);
            && AllEnded(rs)
            && (forall j, k :: 0 <= j < k < |rs| ==> rs[j].endTime.value <= rs[k].endTime.value)
            && (forall k :: 0 <= k < |rs| ==> Timed(rs[k]).duration >= 0)
  {
    RunEnds(flags, dedupe, logs);
    EveryPrefixMatched(flags, dedupe, logs, |logs|);
    assert logs[..|logs|] == logs;
    var cs := Run(flags, dedupe, logs).1;
    forall k | 0 <= k < |cs|
      ensures cs[k].rec.endTime == Some(logs[cs[k].closedBy].stageTime)
      ensures cs[k].rec.startTime <= logs[cs[k].closedBy].stageTime
    {
      assert Matches(cs[k], logs[cs[k].openedBy], logs[cs[k].closedBy]);
      assert cs[k].rec.startTime == logs[cs[k].openedBy].requestTime;
    }
  }
}
