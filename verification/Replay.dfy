/** The one-pass replay of an audit log: what each entry does to the records in
    progress.  Both parsers are proved against this. */
module Replay {
  import opened Wrappers
  import opened AuditLog

  /** `openedAt` and `seen` are histories: which entry opened each record in progress,
      and how many entries there have been. */
  datatype State = State(ongoing: seq<Record>, openedAt: seq<nat>, store: Store, seen: nat)

  /** A finished record, with the entries that opened and closed it. */
  datatype Closed = Closed(rec: Record, openedBy: nat, closedBy: nat)

  /** Panic: the entry ends the program. */
  datatype Verdict =
    | OpenCreate | CloseCreate(i: nat) | OpenScale | CloseScale(i: nat)
    | Attach | Container | Save | Ignore | Panic

  ghost predicate Valid(s: State) {
    |s.ongoing| == |s.openedAt|
  }

  function Empty(): State {
    State([], [], map[], 0)
  }

  /** What a verdict says about the entry and the state. */
  ghost predicate Justified(v: Verdict, ongoing: seq<Record>, store: Store, log: Log) {
    match v
    case OpenCreate => IsCreateStart(log)
    case CloseCreate(i) => i < |ongoing| && i == FindOpen(CreateAction, IdOf(log), ongoing) && MayEndCreate(log)
    case OpenScale => IsScaleStart(log, store, ongoing)
    case CloseScale(i) =>
      && i < |ongoing| && i == FindOpen(ScaleAction, IdOf(log), ongoing) && MayEndScale(log)
      && ongoing[i].goals.Some? && AllGoalsFulfilled(log.resource, log.responseStatus.value, ongoing[i].goals.value.goal)
    case _ => true
  }

  function CreateVerdict(ongoing: seq<Record>, log: Log): (v: Verdict) {
    if IsCreateStart(log) then OpenCreate
    else if CreateEndIndex(log, ongoing) >= 0 then CloseCreate(CreateEndIndex(log, ongoing))
    else Ignore
  }

  function ScaleVerdict(ongoing: seq<Record>, store: Store, log: Log): (v: Verdict) {
    if IsScaleStart(log, store, ongoing) then OpenScale
    else if ScaleEndIndex(log, ongoing) >= 0 then CloseScale(ScaleEndIndex(log, ongoing))
    else Ignore
  }

  function PodVerdict(log: Log): (v: Verdict) {
    if IsAttachEvent(log) then Attach
    else if LacksStatus(log) then Panic
    else if IsContainerCreating(log) then Container
    else Ignore
  }

  /** The tests in the order in which the parsers make them; the first that applies
      uses the entry up. */
  function Judge(flags: Flags, ongoing: seq<Record>, store: Store, log: Log): (v: Verdict)
    ensures Justified(v, ongoing, store, log)
  {
    if !log.responseComplete then Ignore
    else if flags.create && !CreateVerdict(ongoing, log).Ignore? then CreateVerdict(ongoing, log)
    else if flags.scale && !ScaleVerdict(ongoing, store, log).Ignore? then ScaleVerdict(ongoing, store, log)
    else if flags.pvcPod && !PodVerdict(log).Ignore? then PodVerdict(log)
    else if log.verb.Get? || log.verb.Create? then Save
    else Ignore
  }

  function NewRecord(action: Action, log: Log): Record {
    Record(action, IdOf(log), log.requestTime, None, None, None, false, None, None, None, None)
  }

  function Ended(r: Record, log: Log): Record {
    r.(endTime := Some(log.stageTime), labels := if log.labels.Some? then log.labels else r.labels)
  }

  function EndedCreate(r: Record, log: Log): Record {
    var r := Ended(r, log);
    if log.resource.PersistentVolumeClaims? then r.(pvName := Some(log.volumeName)) else r
  }

  function NewScale(log: Log, store: Store): Record
    requires OldValue(log, store).Some?
  {
    NewRecord(ScaleAction, log).(goals := Some(Goals(OldValue(log, store).value, NewValue(log))))
  }

  function PodIndex(name: string, namespace: string, all: seq<Record>): int {
    FindOpen(CreateAction, ObjId(name, Pods, namespace), all)
  }

  function Attached(log: Log, all: seq<Record>): seq<Record> {
    var i := PodIndex(log.involvedName, log.involvedNamespace, all);
    if i < 0 then all
    else all[i := all[i].(attachTime := Some(log.stageTime), pvName := Some(Quoted(log.message)))]
  }

  function ContainerCreating(log: Log, all: seq<Record>): seq<Record> {
    var i := PodIndex(log.name, log.namespace, all);
    if i < 0 then all else all[i := all[i].(containerTime := Some(log.stageTime))]
  }

  function Saved(log: Log, store: Store): Store {
    if (log.code == 201 || log.code == 200) && ScaleSupported(log.resource)
    then store[IdOf(log) := Info(log.parallelism, log.replicas)]
    else store
  }

  function Without<T>(xs: seq<T>, i: nat): seq<T>
    requires i < |xs|
  {
    xs[..i] + xs[i + 1..]
  }

  function Remove(s: State, i: nat): State
    requires Valid(s) && i < |s.ongoing|
  {
    s.(ongoing := Without(s.ongoing, i), openedAt := Without(s.openedAt, i))
  }

  function Append(s: State, r: Record): State {
    s.(ongoing := s.ongoing + [r], openedAt := s.openedAt + [s.seen])
  }

  /** The record already open for the object of a scale that starts. */
  function Superseded(ongoing: seq<Record>, log: Log): int {
    FindOpen(ScaleAction, IdOf(log), ongoing)
  }

  /** The streaming parser does not open a creation while a record for any object of
      the same name is in progress; the batch parser does not look. */
  predicate Suppressed(ongoing: seq<Record>, log: Log) {
    exists r :: r in ongoing && r.id.name == log.name
  }

  /** Whether an entry with this verdict opens a record. */
  predicate Accepts(v: Verdict, dedupe: bool, ongoing: seq<Record>, log: Log) {
    v.OpenScale? || (v.OpenCreate? && !(dedupe && Suppressed(ongoing, log)))
  }

  /** The effect of a verdict: the new state, and the record closed, if any. */
  function Apply(v: Verdict, dedupe: bool, s: State, log: Log): (r: (State, Option<Closed>))
    requires Valid(s)
    requires match v
             case CloseCreate(i) => i < |s.ongoing|
             case CloseScale(i) => i < |s.ongoing|
             case OpenScale => OldValue(log, s.store).Some?
             case _ => true
    ensures Valid(r.0) && r.0.seen == s.seen + 1
  {
    var next := s.(seen := s.seen + 1);
    match v
    case OpenCreate =>
      if dedupe && Suppressed(s.ongoing, log) then (next, None)
      else (Append(s, NewRecord(CreateAction, log)).(seen := s.seen + 1), None)
    case CloseCreate(i) =>
      (Remove(next, i), Some(Closed(EndedCreate(s.ongoing[i], log), s.openedAt[i], s.seen)))
    case OpenScale =>
      var newest := NewScale(log, s.store);
      var i := Superseded(s.ongoing, log);
      if i < 0 then (Append(s, newest).(seen := s.seen + 1), None)
      else
        (Append(Remove(s, i), newest).(seen := s.seen + 1),
         Some(Closed(Ended(s.ongoing[i], log).(unfinished := true), s.openedAt[i], s.seen)))
    case CloseScale(i) =>
      (Remove(next, i), Some(Closed(Ended(s.ongoing[i], log), s.openedAt[i], s.seen)))
    case Attach => (next.(ongoing := Attached(log, s.ongoing)), None)
    case Container => (next.(ongoing := ContainerCreating(log, s.ongoing)), None)
    case Save => (next.(store := Saved(log, s.store)), None)
    case Ignore => (next, None)
    case Panic => (next, None)
  }

  function Step(flags: Flags, dedupe: bool, s: State, log: Log): (r: (State, Option<Closed>))
    requires Valid(s)
    ensures Valid(r.0) && r.0.seen == s.seen + 1
  {
    Apply(Judge(flags, s.ongoing, s.store, log), dedupe, s, log)
  }

  function Emitted(c: Option<Closed>): seq<Closed> {
    if c.Some? then [c.value] else []
  }

  /** A whole log. */
  function Run(flags: Flags, dedupe: bool, logs: seq<Log>): (r: (State, seq<Closed>))
    ensures Valid(r.0) && r.0.seen == |logs|
  {
    if logs == [] then (Empty(), [])
    else
      var before := Run(flags, dedupe, logs[..|logs| - 1]);
      var step := Step(flags, dedupe, before.0, logs[|logs| - 1]);
      (step.0, before.1 + Emitted(step.1))
  }

  function Records(cs: seq<Closed>): seq<Record> {
    seq(|cs|, i requires 0 <= i < |cs| => cs[i].rec)
  }
}
