/** The batch and the streaming parser. */
module Parsers {
  import opened Wrappers
  import opened AuditLog
  import opened Replay
  import opened Matching
  import opened Kinds
  import opened BoundJoin
  import opened Reports

  /** A line of the log: one that does not decode, or an entry. */
  datatype Line = Garbled | Entry(log: Log)

  // ----- the state both parsers mutate -----

  class Replayer {
    var ongoing: seq<Record>
    var results: seq<Record>
    var store: Store
    ghost var openedAt: seq<nat>
    ghost var seen: nat

    ghost function State(): Replay.State
      reads this
    {
      Replay.State(ongoing, openedAt, store, seen)
    }

    constructor ()
      ensures State() == Empty() && results == []
    {
      ongoing, results, store, openedAt, seen := [], [], map[], [], 0;
    }

    method Finish(i: nat, record: Record)
      requires Valid(State()) && i < |ongoing|
      modifies this
      ensures State() == Remove(old(State()), i) && results == old(results) + [record]
    {
      ongoing := ongoing[..i] + ongoing[i + 1..];
      results := results + [record];
      openedAt := openedAt[..i] + openedAt[i + 1..];
    }

    method Begin(record: Record)
      modifies this
      ensures State() == Append(old(State()), record) && results == old(results)
    {
      ongoing := ongoing + [record];
      openedAt := openedAt + [seen];
    }

    /** Whether any object of the same name has a record in progress. */
    method NameInProgress(log: Log) returns (found: bool)
      ensures found <==> Suppressed(ongoing, log)
    {
      var k := 0;
      while k < |ongoing|
        invariant 0 <= k <= |ongoing| && forall j :: 0 <= j < k ==> ongoing[j].id.name != log.name
      {
        if ongoing[k].id.name == log.name {
          assert ongoing[k] in ongoing;
          return true;
        }
        k := k + 1;
      }
      return false;
    }

    /** The end of a creation, if the entry is one. */
    method EndCreate(dedupe: bool, log: Log) returns (done: bool)
      requires Valid(State()) && !IsCreateStart(log)
      modifies this
      ensures done <==> !CreateVerdict(old(ongoing), log).Ignore?
      ensures Valid(State()) && Did(CreateVerdict(old(ongoing), log), dedupe, old(State()), log, old(results), State(), results)
    {
      var i := -1;
      if MayEndCreate(log) {
        i := FindLog(CreateAction, IdOf(log), ongoing);
      }
      if i >= 0 {
        var record := Ended(ongoing[i], log);
        if log.resource.PersistentVolumeClaims? {
          record := record.(pvName := Some(log.volumeName));
        }
        Finish(i, record);
        return true;
      }
      return false;
    }

    /** The creation part of an entry's parsing; `done` if the entry is used up. */
    method ParseCreate(dedupe: bool, log: Log) returns (done: bool)
      requires Valid(State())
      modifies this
      ensures done <==> !CreateVerdict(old(ongoing), log).Ignore?
      ensures Valid(State()) && Did(CreateVerdict(old(ongoing), log), dedupe, old(State()), log, old(results), State(), results)
    {
      if IsCreateStart(log) {
        if dedupe {
          var found := NameInProgress(log);
          if found {
            return true;
          }
        }
        Begin(NewRecord(CreateAction, log));
        return true;
      }
      done := EndCreate(dedupe, log);
    }

    /** The end of a scaling, if the entry is one. */
    method EndScale(dedupe: bool, log: Log) returns (done: bool)
      requires Valid(State()) && !IsScaleStart(log, store, ongoing)
      modifies this
      ensures done <==> !ScaleVerdict(old(ongoing), old(store), log).Ignore?
      ensures Valid(State()) && Did(ScaleVerdict(old(ongoing), old(store), log), dedupe, old(State()), log, old(results), State(), results)
    {
      var i := -1;
      if MayEndScale(log) {
        i := FindLog(ScaleAction, IdOf(log), ongoing);
        if i >= 0 && !(ongoing[i].goals.Some? &&
                       AllGoalsFulfilled(log.resource, log.responseStatus.value, ongoing[i].goals.value.goal)) {
          i := -1;
        }
      }
      if i >= 0 {
        Finish(i, Ended(ongoing[i], log));
        return true;
      }
      return false;
    }

    /** The start of a scaling, which ends one of the same object in progress. */
    method StartScale(dedupe: bool, log: Log)
      requires Valid(State()) && IsScaleStart(log, store, ongoing)
      modifies this
      ensures Valid(State()) && Did(OpenScale, dedupe, old(State()), log, old(results), State(), results)
    {
      var newest := NewScale(log, store);
      var i := FindLog(ScaleAction, IdOf(log), ongoing);
      if i >= 0 {
        Finish(i, Ended(ongoing[i], log).(unfinished := true));
      }
      Begin(newest);
    }

    /** The scaling part. */
    method ParseScale(dedupe: bool, log: Log) returns (done: bool)
      requires Valid(State())
      modifies this
      ensures done <==> !ScaleVerdict(old(ongoing), old(store), log).Ignore?
      ensures Valid(State()) && Did(ScaleVerdict(old(ongoing), old(store), log), dedupe, old(State()), log, old(results), State(), results)
    {
      if IsScaleStart(log, store, ongoing) {
        StartScale(dedupe, log);
        return true;
      }
      done := EndScale(dedupe, log);
    }

    /** The notes on pods in progress.  A patch of a pod's status that carries no status
        ends the program. */
    method ParsePVCPod(dedupe: bool, log: Log) returns (done: bool, panicked: bool)
      requires Valid(State())
      modifies this
      ensures done <==> !PodVerdict(log).Ignore?
      ensures panicked <==> PodVerdict(log).Panic?
      ensures Valid(State()) && Did(PodVerdict(log), dedupe, old(State()), log, old(results), State(), results)
    {
      if IsAttachEvent(log) {
        var i := FindLog(CreateAction, ObjId(log.involvedName, Pods, log.involvedNamespace), ongoing);
        if i >= 0 {
          var pvName := QuotedName(log.message);
          ongoing := ongoing[i := ongoing[i].(attachTime := Some(log.stageTime), pvName := Some(pvName))];
        }
        return true, false;
      }
      if PatchesPodStatus(log) {
        if log.requestStatus.None? {
          return true, true;
        }
        if IsContainerCreating(log) {
          var i := FindLog(CreateAction, ObjId(log.name, Pods, log.namespace), ongoing);
          if i >= 0 {
            ongoing := ongoing[i := ongoing[i].(containerTime := Some(log.stageTime))];
          }
          return true, false;
        }
      }
      return false, false;
    }

    /** The parts in the order in which they are tried. */
    method Dispatch(flags: Flags, dedupe: bool, log: Log) returns (panicked: bool)
      requires Valid(State())
      modifies this
      ensures Valid(State())
      ensures panicked <==> Judge(flags, old(ongoing), old(store), log).Panic?
      ensures Did(Judge(flags, old(ongoing), old(store), log), dedupe, old(State()), log, old(results), State(), results)
    {
      IgnoreDoesNothing(dedupe, State(), log, results);
      panicked := false;
      if !log.responseComplete {
        return;
      }
      if flags.create {
        var done := ParseCreate(dedupe, log);
        if done {
          return;
        }
      }
      if flags.scale {
        var done := ParseScale(dedupe, log);
        if done {
          return;
        }
      }
      if flags.pvcPod {
        var done;
        done, panicked := ParsePVCPod(dedupe, log);
        if done {
          return;
        }
      }
      if log.verb.Get? || log.verb.Create? {
        store := Saved(log, store);
      }
    }

    /** One entry. */
    method ParseLog(flags: Flags, dedupe: bool, log: Log) returns (panicked: bool)
      requires Valid(State())
      modifies this
      ensures Valid(State())
      ensures panicked <==> Judge(flags, old(ongoing), old(store), log).Panic?
      ensures State() == Step(flags, dedupe, old(State()), log).0
      ensures results == old(results) + Records(Emitted(Step(flags, dedupe, old(State()), log).1))
    {
      panicked := Dispatch(flags, dedupe, log);
      seen := seen + 1;
    }
  }

  lemma IgnoreDoesNothing(dedupe: bool, s: State, log: Log, results: seq<Record>)
    requires Valid(s)
    ensures forall s', results' :: Did(Ignore, dedupe, s, log, results, s', results') <==> s' == s && results' == results
  {
    assert results + Records([]) == results;
  }

  /** A verdict had its effect, but for the count of entries. */
  ghost predicate Did(v: Verdict, dedupe: bool, s: State, log: Log, results: seq<Record>, s': State, results': seq<Record>)
    requires Valid(s)
    requires Justified(v, s.ongoing, s.store, log)
  {
    var (next, c) := Apply(v, dedupe, s, log);
    s' == next.(seen := s.seen) && results' == results + Records(Emitted(c))
  }

  /** All entries of a log that decodes throughout. */
  function Entries(lines: seq<Line>): seq<Log> {
    if lines == [] then []
    else
      var last := |lines| - 1;
      Entries(lines[..last]) + if lines[last].Entry? then [lines[last].log] else []
  }

  /** Line k is an entry that ends the program. */
  ghost predicate PanicsAt(flags: Flags, dedupe: bool, lines: seq<Line>, k: nat)
    requires k < |lines|
  {
    lines[k].Entry? &&
    var s := Run(flags, dedupe, Entries(lines[..k])).0;
    Judge(flags, s.ongoing, s.store, lines[k].log).Panic?
  }

  /** No entry before line k ends the program. */
  ghost predicate CalmTo(flags: Flags, dedupe: bool, lines: seq<Line>, k: nat)
    requires k <= |lines|
  {
    k == 0 || (CalmTo(flags, dedupe, lines, k - 1) && !PanicsAt(flags, dedupe, lines, k - 1))
  }

  /** All lines before line k decode. */
  ghost predicate DecodesTo(lines: seq<Line>, k: nat)
    requires k <= |lines|
  {
    k == 0 || (DecodesTo(lines, k - 1) && lines[k - 1].Entry?)
  }

  // ----- batch -----

  /** Crashed: an entry panicked, or a pod was attached but its bound or container time
      is missing. */
  datatype Outcome = Parsed(reports: seq<Report>) | DecodeFailed(results: seq<Record>) | Crashed

  predicate AllEnded(rs: seq<Record>) {
    forall r :: r in rs ==> r.endTime.Some?
  }

  function BatchReport(flags: Flags, r: Record): Option<Report>
    requires r.endTime.Some?
  {
    if flags.pvcPod && r.attachTime.Some? then
      if HasAllTimes(r) then Some(Stripped(Timed(r)).(deltas := Some(AllDeltas(r)))) else None
    else Some(Stripped(Timed(r)))
  }

  function BatchReports(flags: Flags, rs: seq<Record>): Option<seq<Report>>
    requires AllEnded(rs)
  {
    if rs == [] then Some([])
    else
      var last := |rs| - 1;
      assert forall r :: r in rs[..last] ==> r in rs;
      var before, r := BatchReports(flags, rs[..last]), BatchReport(flags, rs[last]);
      if before.None? || r.None? then None else Some(before.value + [r.value])
  }

  lemma {:induction false} PrefixReports(flags: Flags, rs: seq<Record>, k: nat)
    requires AllEnded(rs) && k <= |rs|
    ensures AllEnded(rs[..k])
    ensures BatchReports(flags, rs[..k]).None? ==> BatchReports(flags, rs).None?
    decreases |rs|
  {
    if k < |rs| {
      assert rs[..|rs| - 1][..k] == rs[..k];
      assert forall r :: r in rs[..|rs| - 1] ==> r in rs;
      PrefixReports(flags, rs[..|rs| - 1], k);
    } else {
      assert rs[..k] == rs;
    }
  }

  method CalculateDeltas(flags: Flags, results: seq<Record>) returns (reports: Option<seq<Report>>)
    requires AllEnded(results)
    ensures reports == BatchReports(flags, results)
  {
    var done := [];
    var k := 0;
    assert results[..0] == [];
    while k < |results|
      invariant 0 <= k <= |results|
      invariant AllEnded(results[..k]) && BatchReports(flags, results[..k]) == Some(done)
    {
      var r := results[k];
      PrefixReports(flags, results, k + 1);
      assert results[..k + 1][..k] == results[..k];
      var report := Timed(r);
      if flags.pvcPod && r.attachTime.Some? {
        if r.boundTime.None? || r.containerTime.None? {
          return None;
        }
        report := report.(deltas := Some(AllDeltas(r)));
      }
      done := done + [report.(pvName := None, attachTime := None, containerTime := None, boundTime := None)];
      k := k + 1;
    }
    assert results[..k] == results;
    return Some(done);
  }

  /** The batch parser's answer for a log that decodes throughout. */
  function BatchAnswer(flags: Flags, rs: seq<Record>): Outcome
    requires AllEnded(rs)
  {
    var joined := if flags.pvcPod then Joined(rs) else rs;
    JoinKeepsTheRest(rs);
    assert forall i :: 0 <= i < |rs| ==> Joined(rs)[i].endTime == rs[i].endTime && rs[i] in rs;
    var reports := BatchReports(flags, joined);
    if reports.Some? then Parsed(reports.value) else Crashed
  }

  lemma RunEnds(flags: Flags, dedupe: bool, logs: seq<Log>)
    ensures AllEnded(Records(Run(flags, dedupe, logs).1))
  {
    EveryPrefixMatched(flags, dedupe, logs, |logs|);
    assert logs[..|logs|] == logs;
  }

  lemma SkippedLine(lines: seq<Line>, k: nat)
    requires k < |lines| && lines[k].Garbled?
    ensures Entries(lines[..k + 1]) == Entries(lines[..k])
  {
    assert lines[..k + 1][..k] == lines[..k];
  }

  /** How one more decodable line extends the replay and its finished records. */
  lemma NextEntry(flags: Flags, dedupe: bool, lines: seq<Line>, k: nat)
    requires k < |lines| && lines[k].Entry?
    ensures var before := Run(flags, dedupe, Entries(lines[..k]));
            var (s', c) := Step(flags, dedupe, before.0, lines[k].log);
            var after := Run(flags, dedupe, Entries(lines[..k + 1]));
            && after.0 == s' && Records(after.1) == Records(before.1) + Records(Emitted(c))
            && AllEnded(Records(before.1)) && AllEnded(Records(Emitted(c))) && AllEnded(Records(after.1))
            && |Records(Emitted(c))| <= 1
  {
    assert lines[..k + 1][..k] == lines[..k];
    var logs := Entries(lines[..k + 1]);
    assert logs[..|logs| - 1] == Entries(lines[..k]);
    var before := Run(flags, dedupe, Entries(lines[..k]));
    var c := Step(flags, dedupe, before.0, lines[k].log).1;
    RunEnds(flags, dedupe, Entries(lines[..k]));
    RunEnds(flags, dedupe, logs);
    assert Records(before.1 + Emitted(c)) == Records(before.1) + Records(Emitted(c));
    assert forall r :: r in Records(Emitted(c)) ==> r in Records(before.1) + Records(Emitted(c));
  }

  /** What the batch parser does with the closed records at the end. */
  method Conclude(flags: Flags, closed: seq<Record>) returns (o: Outcome)
    requires AllEnded(closed)
    ensures o == BatchAnswer(flags, closed)
  {
    var results := closed;
    if flags.pvcPod {
      JoinKeepsTheRest(closed);
      results := BoundTimes(closed);
      assert AllEnded(results) by {
        forall r | r in results
          ensures r.endTime.Some?
        {
          var i :| 0 <= i < |results| && results[i] == r;
          assert closed[i] in closed;
        }
      }
    }
    var reports := CalculateDeltas(flags, results);
    return if reports.Some? then Parsed(reports.value) else Crashed;
  }

  /** The state and the closed records are those after the first k lines. */
  ghost predicate BatchedTo(flags: Flags, lines: seq<Line>, k: nat, s: State, results: seq<Record>)
    requires k <= |lines|
  {
    var (s', cs) := Run(flags, false, Entries(lines[..k]));
    s == s' && results == Records(cs) && AllEnded(results)
  }

  lemma BatchedEntry(flags: Flags, lines: seq<Line>, k: nat, s: State, results: seq<Record>)
    requires k < |lines| && lines[k].Entry? && BatchedTo(flags, lines, k, s, results)
    ensures Valid(s)
    ensures PanicsAt(flags, false, lines, k) <==> Judge(flags, s.ongoing, s.store, lines[k].log).Panic?
    ensures var (s', c) := Step(flags, false, s, lines[k].log);
            BatchedTo(flags, lines, k + 1, s', results + Records(Emitted(c)))
  {
    NextEntry(flags, false, lines, k);
  }

  /** One line of the batch parser. */
  method BatchLine(p: Replayer, flags: Flags, ghost lines: seq<Line>, ghost k: nat, log: Log) returns (panicked: bool)
    requires k < |lines| && lines[k] == Entry(log)
    requires Valid(p.State()) && BatchedTo(flags, lines, k, p.State(), p.results)
    modifies p
    ensures Valid(p.State()) && BatchedTo(flags, lines, k + 1, p.State(), p.results)
    ensures panicked <==> PanicsAt(flags, false, lines, k)
  {
    BatchedEntry(flags, lines, k, p.State(), p.results);
    panicked := p.ParseLog(flags, false, log);
  }

  /** The batch parser.  A line that does not decode stops it at once, and what is
      returned then are the records closed so far, unprocessed. */
  method BatchParse(flags: Flags, lines: seq<Line>) returns (o: Outcome, k: nat)
    ensures k <= |lines|
    ensures flags == Flags(false, false, false, false) ==> o == Parsed([])
    ensures flags != Flags(false, false, false, false) ==>
              && DecodesTo(lines, k) && CalmTo(flags, false, lines, k)
              && var rs := Records(Run(flags, false, Entries(lines[..k])).1);
                 AllEnded(rs) &&
                 if k == |lines| then o == BatchAnswer(flags, rs)
                 else if lines[k].Garbled? then o == DecodeFailed(rs)
                 else PanicsAt(flags, false, lines, k) && o == Crashed
  {
    k := 0;
    if !flags.AnySet() {
      return Parsed([]), 0;
    }
    var p := new Replayer();
    while k < |lines|
      invariant 0 <= k <= |lines| && fresh(p)
      invariant DecodesTo(lines, k) && CalmTo(flags, false, lines, k)
      invariant Valid(p.State()) && BatchedTo(flags, lines, k, p.State(), p.results)
    {
      if lines[k].Garbled? {
        return DecodeFailed(p.results), k;
      }
      var panicked := BatchLine(p, flags, lines, k, lines[k].log);
      if panicked {
        RunEnds(flags, false, Entries(lines[..k]));
        return Crashed, k;
      }
      k := k + 1;
    }
    o := Conclude(flags, p.results);
  }

  // ----- streaming -----

  /** One copy of a report per occurrence of its namespace in the list. */
  function Copies(r: Report, namespaces: seq<string>): seq<Report> {
    if namespaces == [] then []
    else
      var last := |namespaces| - 1;
      Copies(r, namespaces[..last]) + if namespaces[last] == r.namespace then [r] else []
  }

  /** What streaming prints for the records closed so far. */
  function Printed(rs: seq<Record>, namespaces: seq<string>): seq<Report>
    requires AllEnded(rs)
  {
    if rs == [] then []
    else
      var last := |rs| - 1;
      assert forall r :: r in rs[..last] ==> r in rs;
      Printed(rs[..last], namespaces) + Copies(Timed(rs[last]), namespaces)
  }

  /** A line finishes at most one record. */
  lemma PrintedOneMore(xs: seq<Record>, ys: seq<Record>, namespaces: seq<string>)
    requires AllEnded(xs) && AllEnded(ys) && |ys| <= 1
    ensures AllEnded(xs + ys) && Printed(xs + ys, namespaces) == Printed(xs, namespaces) + Printed(ys, namespaces)
  {
    if ys == [] {
      assert xs + ys == xs;
    } else {
      assert (xs + ys)[..|xs|] == xs && ys[..0] == [];
    }
  }

  lemma ApplyEnds(v: Verdict, dedupe: bool, s: State, log: Log)
    requires Valid(s) && Justified(v, s.ongoing, s.store, log)
    ensures AllEnded(Records(Emitted(Apply(v, dedupe, s, log).1)))
  {
  }

  /** What streaming makes of a finished record: it reports it, or it holds it back for
      ever because no duration was set, or it panics on a time that is missing. */
  datatype Printout = Printout(report: Report) | HeldBack | Panicked

  predicate SaysPod(r: Record) {
    r.id.resource == Other("pod")
  }

  function StreamReport(flags: Flags, r: Record): Printout
    requires r.endTime.Some?
  {
    if flags.pvcPod && SaysPod(r) then
      if r.attachTime.None? then HeldBack
      else if HasAllTimes(r) then Printout(Stripped(Timed(r)).(deltas := Some(AllDeltas(r))))
      else Panicked
    else Printout(Timed(r))
  }

  /** The branch for pods is never taken: no record of a supported resource says "pod". */
  lemma SupportedIsTimed(flags: Flags, r: Record)
    requires r.endTime.Some? && Supported(r)
    ensures StreamReport(flags, r) == Printout(Timed(r))
  {
  }

  /** Prints the finished records and deletes them while ranging over them.  That is
      sound because a line finishes at most one. */
  method OutputFinishedActions(p: Replayer, flags: Flags, namespaces: seq<string>)
    returns (printed: seq<Report>, panicked: bool)
    requires |p.results| <= 1 && AllEnded(p.results)
    modifies p`results
    ensures old(p.results) == [] ==> p.results == [] && printed == [] && !panicked
    ensures old(p.results) != [] ==>
              match StreamReport(flags, old(p.results)[0])
              case Printout(report) => p.results == [] && printed == Copies(report, namespaces) && !panicked
              case HeldBack => p.results == old(p.results) && printed == [] && !panicked
              case Panicked => panicked && printed == []
  {
    var reports, k, n := [], 0, |p.results|;
    printed := [];
    while k < n
      invariant 0 <= k <= n && |reports| == k
      invariant forall j :: 0 <= j < k ==>
                  match StreamReport(flags, p.results[j])
                  case Printout(report) => reports[j] == Some(report)
                  case HeldBack => reports[j] == None
                  case Panicked => false
    {
      var r := p.results[k];
      assert r in p.results;
      if flags.pvcPod && SaysPod(r) {
        if r.attachTime.None? {
          reports := reports + [None];
        } else if r.boundTime.None? || r.containerTime.None? {
          return [], true;
        } else {
          reports := reports + [Some(Stripped(Timed(r)).(deltas := Some(AllDeltas(r))))];
        }
      } else {
        reports := reports + [Some(Timed(r))];
      }
      k := k + 1;
    }
    var i := 0;
    while i < n
      invariant 0 <= i <= n
      invariant p.results == if i == 1 && reports[0].Some? then [] else old(p.results)
      invariant printed == if i == 1 && reports[0].Some? then Copies(reports[0].value, namespaces) else []
    {
      if reports[i].Some? {
        p.results := p.results[..i] + p.results[i + 1..];
        var more := PrintCopies(reports[i].value, namespaces);
        printed := printed + more;
      }
      i := i + 1;
    }
    return printed, false;
  }

  method PrintCopies(report: Report, namespaces: seq<string>) returns (printed: seq<Report>)
    ensures printed == Copies(report, namespaces)
  {
    printed := [];
    var m := 0;
    assert namespaces[..0] == [];
    while m < |namespaces|
      invariant 0 <= m <= |namespaces| && printed == Copies(report, namespaces[..m])
    {
      assert namespaces[..m + 1][..m] == namespaces[..m];
      if namespaces[m] == report.namespace {
        printed := printed + [report];
      }
      m := m + 1;
    }
    assert namespaces[..m] == namespaces;
  }

  lemma PrintedOne(rs: seq<Record>, namespaces: seq<string>)
    requires |rs| <= 1 && AllEnded(rs)
    ensures Printed(rs, namespaces) == if rs == [] then [] else Copies(Timed(rs[0]), namespaces)
  {
    if rs != [] {
      assert rs[..0] == [];
      assert Printed(rs, namespaces) == [] + Copies(Timed(rs[0]), namespaces);
    }
  }

  /** On records of supported resources, all that is finished is printed and deleted. */
  method OutputAll(p: Replayer, flags: Flags, namespaces: seq<string>) returns (printed: seq<Report>, panicked: bool)
    requires |p.results| <= 1 && AllEnded(p.results) && Everyone(Supported, p.results)
    modifies p`results
    ensures p.results == [] && !panicked && printed == Printed(old(p.results), namespaces)
  {
    if p.results != [] {
      SupportedIsTimed(flags, p.results[0]);
    }
    PrintedOne(p.results, namespaces);
    printed, panicked := OutputFinishedActions(p, flags, namespaces);
  }

  lemma StepKind(flags: Flags, dedupe: bool, s: State, log: Log)
    requires Valid(s) && Everyone(Supported, s.ongoing)
    ensures var (s', c) := Step(flags, dedupe, s, log);
            && Everyone(Supported, s'.ongoing) && Everyone(Supported, Records(Emitted(c)))
            && AllEnded(Records(Emitted(c))) && |Records(Emitted(c))| <= 1
            && (Judge(flags, s.ongoing, s.store, log).Panic? ==> Emitted(c) == [])
  {
    ApplyEnds(Judge(flags, s.ongoing, s.store, log), dedupe, s, log);
    SupportedStep(Judge(flags, s.ongoing, s.store, log), dedupe, s, log);
  }

  /** What is run for every line read. */
  method Callback(p: Replayer, flags: Flags, line: Line, namespaces: seq<string>) returns (more: seq<Report>, panicked: bool)
    requires Valid(p.State()) && p.results == [] && Everyone(Supported, p.ongoing)
    modifies p
    ensures Valid(p.State()) && p.results == [] && Everyone(Supported, p.ongoing)
    ensures line.Garbled? ==> p.State() == old(p.State()) && more == [] && !panicked
    ensures line.Entry? ==>
              var (s', c) := Step(flags, true, old(p.State()), line.log);
              && (panicked <==> Judge(flags, old(p.ongoing), old(p.store), line.log).Panic?)
              && p.State() == s' && AllEnded(Records(Emitted(c))) && more == Printed(Records(Emitted(c)), namespaces)
  {
    if line.Garbled? {
      return [], false;
    }
    StepKind(flags, true, p.State(), line.log);
    panicked := p.ParseLog(flags, true, line.log);
    if panicked {
      return [], true;
    }
    more, panicked := OutputAll(p, flags, namespaces);
  }

  /** The state and the output are those after the first k lines. */
  ghost predicate StreamedTo(flags: Flags, lines: seq<Line>, namespaces: seq<string>, k: nat, s: State, printed: seq<Report>)
    requires k <= |lines|
  {
    var (s', cs) := Run(flags, true, Entries(lines[..k]));
    s == s' && AllEnded(Records(cs)) && printed == Printed(Records(cs), namespaces)
  }

  lemma StreamedGarbled(flags: Flags, lines: seq<Line>, namespaces: seq<string>, k: nat, s: State, printed: seq<Report>)
    requires k < |lines| && lines[k].Garbled? && StreamedTo(flags, lines, namespaces, k, s, printed)
    ensures StreamedTo(flags, lines, namespaces, k + 1, s, printed + [])
  {
    SkippedLine(lines, k);
    assert printed + [] == printed;
  }

  lemma StreamedEntry(flags: Flags, lines: seq<Line>, namespaces: seq<string>, k: nat, s: State, printed: seq<Report>)
    requires k < |lines| && lines[k].Entry? && StreamedTo(flags, lines, namespaces, k, s, printed)
    ensures Valid(s)
    ensures var (s', c) := Step(flags, true, s, lines[k].log);
            AllEnded(Records(Emitted(c))) &&
            StreamedTo(flags, lines, namespaces, k + 1, s', printed + Printed(Records(Emitted(c)), namespaces))
  {
    NextEntry(flags, true, lines, k);
    PrintedOneMore(Records(Run(flags, true, Entries(lines[..k])).1), Records(Emitted(Step(flags, true, s, lines[k].log).1)), namespaces);
  }

  /** One line of the streaming parser. */
  method StreamLine(p: Replayer, flags: Flags, ghost lines: seq<Line>, ghost k: nat, line: Line, namespaces: seq<string>,
                    printed: seq<Report>) returns (all: seq<Report>, panicked: bool)
    requires k < |lines| && line == lines[k]
    requires Valid(p.State()) && p.results == [] && Everyone(Supported, p.ongoing)
    requires StreamedTo(flags, lines, namespaces, k, p.State(), printed)
    modifies p
    ensures Valid(p.State()) && p.results == [] && Everyone(Supported, p.ongoing)
    ensures panicked <==> PanicsAt(flags, true, lines, k)
    ensures if panicked then all == printed else StreamedTo(flags, lines, namespaces, k + 1, p.State(), all)
  {
    if line.Garbled? {
      StreamedGarbled(flags, lines, namespaces, k, p.State(), printed);
    } else {
      StreamedEntry(flags, lines, namespaces, k, p.State(), printed);
    }
    var more;
    more, panicked := Callback(p, flags, line, namespaces);
    all := if panicked then printed else printed + more;
  }

  /** The streaming parser's lines, up to the end or to an entry that panics. */
  method StreamLines(p: Replayer, flags: Flags, lines: seq<Line>, namespaces: seq<string>)
    returns (printed: seq<Report>, panicked: bool, k: nat)
    requires p.State() == Empty() && p.results == []
    modifies p
    ensures k <= |lines| && CalmTo(flags, true, lines, k)
    ensures if panicked then k < |lines| && PanicsAt(flags, true, lines, k) else k == |lines|
    ensures StreamedSoFar(flags, lines, namespaces, k, printed)
  {
    printed, panicked, k := [], false, 0;
    StreamedNothing(flags, lines, namespaces);
    while k < |lines|
      invariant 0 <= k <= |lines| && p.results == [] && !panicked
      invariant CalmTo(flags, true, lines, k)
      invariant Valid(p.State()) && Everyone(Supported, p.ongoing) && StreamedTo(flags, lines, namespaces, k, p.State(), printed)
    {
      printed, panicked := StreamLine(p, flags, lines, k, lines[k], namespaces, printed);
      if panicked {
        return;
      }
      k := k + 1;
    }
  }

  /** What has been printed are the records closed by the first k lines. */
  ghost predicate StreamedSoFar(flags: Flags, lines: seq<Line>, namespaces: seq<string>, k: nat, printed: seq<Report>)
    requires k <= |lines|
  {
    var rs := Records(Run(flags, true, Entries(lines[..k])).1);
    AllEnded(rs) && printed == Printed(rs, namespaces)
  }

  lemma StreamedNothing(flags: Flags, lines: seq<Line>, namespaces: seq<string>)
    ensures StreamedTo(flags, lines, namespaces, 0, Empty(), [])
  {
    assert lines[..0] == [];
  }

  /** The streaming parser, up to its end or to an entry that panics.  A line that does
      not decode is skipped. */
  method StreamParse(flags: Flags, lines: seq<Line>, namespaces: seq<string>)
    returns (printed: seq<Report>, panicked: bool, k: nat)
    ensures k <= |lines|
    ensures flags == Flags(false, false, false, false) ==> printed == [] && !panicked
    ensures flags != Flags(false, false, false, false) ==>
              && CalmTo(flags, true, lines, k)
              && (if panicked then k < |lines| && PanicsAt(flags, true, lines, k) else k == |lines|)
              && StreamedSoFar(flags, lines, namespaces, k, printed)
  {
    if !flags.AnySet() {
      return [], false, 0;
    }
    var p := new Replayer();
    printed, panicked, k := StreamLines(p, flags, lines, namespaces);
  }
}
