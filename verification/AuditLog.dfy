/** Audit log entries, the records kept about them, and the tests that decide what an
    entry starts or ends. */
module AuditLog {
  import opened Wrappers

  datatype Verb = Create | Get | Update | Patch | OtherVerb

  datatype Resource =
    | Pods | PersistentVolumes | PersistentVolumeClaims
    | Deployments | Jobs | ReplicaSets | StatefulSets
    | Events | Other(text: string)

  datatype Status = Status(
    phase: string, available: uint8, current: uint8, fullyLabeled: uint8, ready: uint8, updated: uint8, active: uint8,
    waitingReasons: seq<string>)

  /** A decoded log entry.  Times are in nanoseconds. */
  datatype Log = Log(
    responseComplete: bool, verb: Verb, code: int,
    resource: Resource, namespace: string, name: string, statusSubresource: bool,
    requestTime: int, stageTime: int,
    responseName: string, labels: Option<map<string, string>>,
    replicas: uint8, parallelism: uint8, volumeName: string,
    requestStatus: Option<Status>, responseStatus: Option<Status>,
    involvedIsPod: bool, involvedName: string, involvedNamespace: string, reason: string, message: string)

  /** The three fields by which an object is identified. */
  datatype ObjId = ObjId(name: string, resource: Resource, namespace: string)

  datatype Action = CreateAction | ScaleAction

  /** Start and goal of a scale: replicas, or parallelism for jobs. */
  datatype Goals = Goals(from: uint8, goal: uint8)

  datatype Record = Record(
    action: Action, id: ObjId, startTime: int, endTime: Option<int>, labels: Option<map<string, string>>,
    goals: Option<Goals>, unfinished: bool,
    pvName: Option<string>, attachTime: Option<int>, containerTime: Option<int>, boundTime: Option<int>)

  datatype Info = Info(parallelism: uint8, replicas: uint8)

  type Store = map<ObjId, Info>

  datatype Flags = Flags(create: bool, scale: bool, pvcPod: bool, others: bool) {
    predicate AnySet() {
      create || scale || pvcPod || others
    }
  }

  // ----- identification -----

  function NameOf(log: Log): string {
    if log.name != "" then log.name else log.responseName
  }

  function IdOf(log: Log): ObjId {
    ObjId(NameOf(log), log.resource, log.namespace)
  }

  /** The position of the last record for an action on an object, or -1. */
  function LastMatch(action: Action, id: ObjId, all: seq<Record>): (i: int)
    ensures -1 <= i < |all|
    ensures i >= 0 ==> all[i].action == action && all[i].id == id
    ensures forall j :: i < j < |all| ==> !(all[j].action == action && all[j].id == id)
  {
    if all == [] then -1
    else
      var last := |all| - 1;
      if all[last].action == action && all[last].id == id then last
      else
        var i := LastMatch(action, id, all[..last]);
        assert forall j :: i < j < last ==> all[j] == all[..last][j];
        i
  }

  /** The position of the record to end, or -1. */
  function FindOpen(action: Action, id: ObjId, all: seq<Record>): (i: int)
    ensures -1 <= i < |all|
  {
    var i := LastMatch(action, id, all);
    if i >= 0 && all[i].endTime.Some? then -1 else i
  }

  /** The search itself: backwards, giving up at a match that has already ended. */
  method FindLog(action: Action, id: ObjId, all: seq<Record>) returns (found: int)
    ensures found == FindOpen(action, id, all)
  {
    var i := |all| - 1;
    while i >= 0
      invariant -1 <= i < |all|
      invariant forall j :: i < j < |all| ==> !(all[j].action == action && all[j].id == id)
    {
      if all[i].action == action && all[i].id == id {
        return if all[i].endTime.None? then i else -1;
      }
      i := i - 1;
    }
    return -1;
  }

  // ----- creation -----

  predicate CreateSupported(r: Resource) {
    r.Pods? || r.PersistentVolumes? || r.PersistentVolumeClaims?
  }

  predicate CreatedPhase(r: Resource, phase: string) {
    if r.Pods? then phase == "Running" || phase == "Succeeded" else phase == "Bound"
  }

  predicate IsCreateStart(log: Log) {
    log.verb.Create? && log.code == 201 && CreateSupported(log.resource)
  }

  predicate MayEndCreate(log: Log) {
    (log.verb.Patch? || log.verb.Update?) && log.code == 200 && CreateSupported(log.resource) &&
    log.responseStatus.Some? && CreatedPhase(log.resource, log.responseStatus.value.phase)
  }

  function CreateEndIndex(log: Log, all: seq<Record>): (i: int)
    ensures -1 <= i < |all|
  {
    if MayEndCreate(log) then FindOpen(CreateAction, IdOf(log), all) else -1
  }

  // ----- scaling -----

  predicate ScaleSupported(r: Resource) {
    r.Deployments? || r.Jobs? || r.ReplicaSets? || r.StatefulSets?
  }

  function SpecValue(r: Resource, replicas: uint8, parallelism: uint8): uint8 {
    if r.Jobs? then parallelism else replicas
  }

  function OldValue(log: Log, store: Store): Option<uint8> {
    if IdOf(log) in store
    then Some(SpecValue(log.resource, store[IdOf(log)].replicas, store[IdOf(log)].parallelism))
    else None
  }

  function NewValue(log: Log): uint8 {
    SpecValue(log.resource, log.replicas, log.parallelism)
  }

  predicate IsScaleStart(log: Log, store: Store, all: seq<Record>) {
    && (log.verb.Update? || log.verb.Patch?) && log.code == 200 && ScaleSupported(log.resource)
    && OldValue(log, store).Some?
    && OldValue(log, store).value != 0 && NewValue(log) != 0 && OldValue(log, store).value != NewValue(log)
    && var i := FindOpen(ScaleAction, IdOf(log), all);
       !(i >= 0 && all[i].goals == Some(Goals(OldValue(log, store).value, NewValue(log))))
  }

  /** The status fields that must equal the goal, by kind of object. */
  predicate AllGoalsFulfilled(r: Resource, s: Status, goal: uint8) {
    match r
    case Deployments => s.available == goal && s.ready == goal && s.updated == goal
    case Jobs => s.active == goal
    case ReplicaSets => s.available == goal && s.fullyLabeled == goal && s.ready == goal
    case StatefulSets => s.current == goal && s.ready == goal
    case _ => true
  }

  predicate MayEndScale(log: Log) {
    log.verb.Update? && log.statusSubresource && log.code == 200 && ScaleSupported(log.resource) &&
    log.requestStatus.Some? && log.responseStatus.Some?
  }

  function ScaleEndIndex(log: Log, all: seq<Record>): (i: int)
    ensures -1 <= i < |all|
  {
    if !MayEndScale(log) then -1
    else
      var i := FindOpen(ScaleAction, IdOf(log), all);
      if i >= 0 && all[i].goals.Some? && AllGoalsFulfilled(log.resource, log.responseStatus.value, all[i].goals.value.goal)
      then i else -1
  }

  // ----- pods and claims -----

  predicate IsAttachEvent(log: Log) {
    log.resource.Events? && log.involvedIsPod && log.reason == "SuccessfulAttachVolume"
  }

  predicate PatchesPodStatus(log: Log) {
    log.verb.Patch? && log.resource.Pods? && log.statusSubresource
  }

  /** The status that the test below goes on to decode is not there. */
  predicate LacksStatus(log: Log) {
    PatchesPodStatus(log) && log.requestStatus.None?
  }

  predicate IsContainerCreating(log: Log) {
    PatchesPodStatus(log) && log.requestStatus.Some? && log.requestStatus.value.waitingReasons != [] &&
    forall r :: r in log.requestStatus.value.waitingReasons ==> r == "ContainerCreating"
  }

  function IndexOf(s: string, c: char): (i: nat)
    ensures i <= |s| && c !in s[..i]
    ensures i < |s| ==> s[i] == c
  {
    if s == [] || s[0] == c then 0
    else
      var i := IndexOf(s[1..], c);
      assert s[..i + 1] == [s[0]] + s[1..][..i];
      i + 1
  }

  /** The text between the first two double quotes, empty if there are not two. */
  function Quoted(msg: string): string {
    var start := IndexOf(msg, '"');
    if start == |msg| then ""
    else
      var rest := msg[start + 1..];
      var end := IndexOf(rest, '"');
      if end == |rest| then "" else rest[..end]
  }

  lemma {:induction false} IndexOfPrefix(a: string, c: char, b: string)
    requires c !in a
    ensures IndexOf(a + [c] + b, c) == |a|
  {
    if a == [] {
      assert (a + [c] + b)[0] == c;
    } else {
      assert (a + [c] + b)[1..] == a[1..] + [c] + b;
      IndexOfPrefix(a[1..], c, b);
    }
  }

  lemma IndexOfAt(s: string, c: char, i: nat)
    requires i < |s| && s[i] == c && c !in s[..i]
    ensures IndexOf(s, c) == i
  {
    assert s == s[..i] + [c] + s[i + 1..];
    IndexOfPrefix(s[..i], c, s[i + 1..]);
  }

  /** The quoted name is recovered from any message that quotes it first. */
  lemma QuotedFindsName(before: string, name: string, after: string)
    requires '"' !in before && '"' !in name
    ensures Quoted(before + "\"" + name + "\"" + after) == name
  {
    var msg := before + "\"" + name + "\"" + after;
    assert msg == before + ['"'] + (name + ['"'] + after);
    IndexOfPrefix(before, '"', name + ['"'] + after);
    assert msg[|before| + 1..] == name + ['"'] + after;
    IndexOfPrefix(name, '"', after);
  }

  lemma {:induction false} NoSuchChar(s: string, c: char)
    requires c !in s
    ensures IndexOf(s, c) == |s|
  {
    if s != [] {
      NoSuchChar(s[1..], c);
    }
  }

  /** The first quote is before `start`; then there is a second one, at `end`, or none. */
  lemma QuotedFrom(msg: string, start: nat, end: nat)
    requires 0 < start <= end <= |msg| && msg[start - 1] == '"' && '"' !in msg[..start - 1] && '"' !in msg[start..end]
    requires end < |msg| ==> msg[end] == '"'
    ensures Quoted(msg) == if end < |msg| then msg[start..end] else ""
  {
    IndexOfAt(msg, '"', start - 1);
    var rest := msg[start..];
    assert rest[..end - start] == msg[start..end];
    if end < |msg| {
      IndexOfAt(rest, '"', end - start);
    } else {
      assert rest == msg[start..end];
      NoSuchChar(rest, '"');
    }
  }

  /** The scan for the quoted name, with the two indices it keeps. */
  method QuotedName(msg: string) returns (name: string)
    ensures name == Quoted(msg)
  {
    var start, end := -1, -1;
    var i := 0;
    while i < |msg|
      invariant 0 <= i <= |msg| && end == -1
      invariant start == -1 ==> '"' !in msg[..i]
      invariant start != -1 ==> 0 < start <= i && msg[start - 1] == '"' && '"' !in msg[..start - 1] && '"' !in msg[start..i]
    {
      if msg[i] == '"' {
        if start == -1 {
          start := i + 1;
        } else {
          end := i;
          break;
        }
      }
      i := i + 1;
    }
    name := "";
    if start != -1 {
      QuotedFrom(msg, start, i);
      if end != -1 {
        name := msg[start..end];
      }
    } else {
      assert msg[..i] == msg;
      NoSuchChar(msg, '"');
    }
  }
}
