/** What each log entry does to a replay, in every run, read off the fields of the entry
    and of the records in progress. */
module Entries {
  import opened Wrappers
  import opened AuditLog
  import opened Replay
  import opened Matching

  /** The entry is about this object: named in the request, or in the response. */
  predicate IsAbout(log: Log, id: ObjId) {
    id == ObjId(if log.name == "" then log.responseName else log.name, log.resource, log.namespace)
  }

  /** The record at i is the last for this action and object. */
  predicate Newest(ongoing: seq<Record>, i: int, action: Action, id: ObjId) {
    0 <= i < |ongoing| && ongoing[i].action == action && ongoing[i].id == id &&
    forall j :: i < j < |ongoing| ==> !(ongoing[j].action == action && ongoing[j].id == id)
  }

  ghost predicate Tidy(s: State) {
    && Valid(s)
    && (forall i :: 0 <= i < |s.ongoing| ==> s.ongoing[i].endTime.None? && !s.ongoing[i].unfinished)
    && (forall i, j :: 0 <= i < j < |s.ongoing| ==> s.openedAt[i] < s.openedAt[j])
    && (forall i :: 0 <= i < |s.ongoing| ==> s.openedAt[i] < s.seen)
    && (forall i, j :: 0 <= i < j < |s.ongoing| && s.ongoing[i].action.ScaleAction? ==> !SameKey(s.ongoing[i], s.ongoing[j]))
  }

  lemma RunIsTidy(flags: Flags, dedupe: bool, logs: seq<Log>, k: nat)
    requires k <= |logs|
    ensures Tidy(Run(flags, dedupe, logs[..k]).0)
  {
    EveryPrefixMatched(flags, dedupe, logs, k);
  }

  lemma RunSteps(flags: Flags, dedupe: bool, logs: seq<Log>, k: nat)
    requires k < |logs|
    ensures Tidy(Run(flags, dedupe, logs[..k]).0)
    ensures var before, after := Run(flags, dedupe, logs[..k]), Run(flags, dedupe, logs[..k + 1]);
            var step := Step(flags, dedupe, before.0, logs[k]);
            after.0 == step.0 && after.1 == before.1 + Emitted(step.1)
  {
    RunIsTidy(flags, dedupe, logs, k);
    assert logs[..k + 1][..k] == logs[..k];
  }

  lemma FindsNewest(s: State, action: Action, id: ObjId, i: int)
    requires Tidy(s)
    ensures FindOpen(action, id, s.ongoing) == i && i >= 0 <==> Newest(s.ongoing, i, action, id)
  {
  }

  // ----- creations -----

  predicate StartsCreation(flags: Flags, log: Log) {
    && flags.create && log.responseComplete && log.verb == Create && log.code == 201
    && (log.resource == Pods || log.resource == PersistentVolumes || log.resource == PersistentVolumeClaims)
  }

  lemma JudgedOpenCreate(flags: Flags, s: State, log: Log)
    ensures Judge(flags, s.ongoing, s.store, log).OpenCreate? <==> StartsCreation(flags, log)
  {
  }

  predicate IsNewCreation(r: Record, log: Log) {
    && r.action == CreateAction && r.startTime == log.requestTime && IsAbout(log, r.id)
    && r.endTime.None? && r.labels.None? && r.goals.None? && !r.unfinished
    && r.pvName.None? && r.attachTime.None? && r.containerTime.None? && r.boundTime.None?
  }

  lemma AppendsCreation(v: Verdict, dedupe: bool, s: State, log: Log, r: Record)
    requires Valid(s) && Justified(v, s.ongoing, s.store, log)
    requires Apply(v, dedupe, s, log).0.ongoing == s.ongoing + [r] && r.action == CreateAction
    ensures v.OpenCreate? && !(dedupe && exists r :: r in s.ongoing && r.id.name == log.name)
  {
    var t := Apply(v, dedupe, s, log).0;
    assert |t.ongoing| == |s.ongoing| + 1 && t.ongoing[|s.ongoing|] == r;
  }

  /** An entry opens a creation exactly if it is a complete, successful request to create a
      pod, volume or claim; streaming also wants no record of that name in progress. */
  lemma CreationOpensIff(flags: Flags, dedupe: bool, logs: seq<Log>, k: nat)
    requires k < |logs|
    ensures var s, t, log := Run(flags, dedupe, logs[..k]).0, Run(flags, dedupe, logs[..k + 1]).0, logs[k];
            (exists r :: t.ongoing == s.ongoing + [r] && IsNewCreation(r, log)) <==>
            StartsCreation(flags, log) && !(dedupe && exists r :: r in s.ongoing && r.id.name == log.name)
  {
    var s, t, log := Run(flags, dedupe, logs[..k]).0, Run(flags, dedupe, logs[..k + 1]).0, logs[k];
    var v := Judge(flags, s.ongoing, s.store, log);
    RunSteps(flags, dedupe, logs, k);
    JudgedOpenCreate(flags, s, log);
    if v.OpenCreate? && !(dedupe && Suppressed(s.ongoing, log)) {
      var r := NewRecord(CreateAction, log);
      assert t.ongoing == s.ongoing + [r] && IsNewCreation(r, log);
    }
    if r :| t.ongoing == s.ongoing + [r] && IsNewCreation(r, log) {
      AppendsCreation(v, dedupe, s, log, r);
    }
  }

  predicate MayEndCreation(flags: Flags, log: Log) {
    && flags.create && log.responseComplete && (log.verb == Patch || log.verb == Update) && log.code == 200
    && log.responseStatus.Some?
    && var phase := log.responseStatus.value.phase;
       match log.resource
       case Pods => phase == "Running" || phase == "Succeeded"
       case PersistentVolumes => phase == "Bound"
       case PersistentVolumeClaims => phase == "Bound"
       case _ => false
  }

  /** The record as it is closed by this entry. */
  function WithEnd(r: Record, log: Log): Record {
    r.(endTime := Some(log.stageTime),
       labels := if log.labels == None then r.labels else log.labels,
       pvName := if r.action == CreateAction && log.resource == PersistentVolumeClaims then Some(log.volumeName) else r.pvName)
  }

  lemma JudgedCloseCreate(flags: Flags, s: State, log: Log, i: nat)
    requires Tidy(s)
    ensures Judge(flags, s.ongoing, s.store, log) == CloseCreate(i) <==>
            MayEndCreation(flags, log) && exists id :: IsAbout(log, id) && Newest(s.ongoing, i, CreateAction, id)
  {
    FindsNewest(s, CreateAction, IdOf(log), i);
    assert IsAbout(log, IdOf(log));
  }

  lemma AppliedClose(v: Verdict, dedupe: bool, s: State, log: Log, i: nat)
    requires Valid(s) && Justified(v, s.ongoing, s.store, log)
    requires v == CloseCreate(i) || v == CloseScale(i)
    ensures var (t, c) := Apply(v, dedupe, s, log);
            && i < |s.ongoing|
            && c == Some(Closed(WithEnd(s.ongoing[i], log), s.openedAt[i], s.seen))
            && t.ongoing == s.ongoing[..i] + s.ongoing[i + 1..]
  {
  }

  /** Which record a verdict closes can be told by the entry that opened it. */
  lemma ClosesOne(v: Verdict, dedupe: bool, s: State, log: Log, i: nat)
    requires Tidy(s) && Justified(v, s.ongoing, s.store, log) && i < |s.ongoing|
    requires var c := Apply(v, dedupe, s, log).1; c.Some? && c.value.openedBy == s.openedAt[i]
    ensures if s.ongoing[i].action == CreateAction then v == CloseCreate(i)
            else v == CloseScale(i) || (v.OpenScale? && Superseded(s.ongoing, log) == i)
  {
  }

  /** An entry closes the creation at i exactly if it shows the object in its final phase
      and no later creation of the object is in progress. */
  lemma CreationClosesIff(flags: Flags, dedupe: bool, logs: seq<Log>, k: nat, i: nat)
    requires k < |logs| && i < |Run(flags, dedupe, logs[..k]).0.ongoing|
    requires Run(flags, dedupe, logs[..k]).0.ongoing[i].action == CreateAction
    ensures var (s, cs) := Run(flags, dedupe, logs[..k]);
            var (t, ds) := Run(flags, dedupe, logs[..k + 1]);
            var r := s.ongoing[i];
            (ds == cs + [Closed(WithEnd(r, logs[k]), s.openedAt[i], k)] && t.ongoing == s.ongoing[..i] + s.ongoing[i + 1..]) <==>
            MayEndCreation(flags, logs[k]) && IsAbout(logs[k], r.id) && Newest(s.ongoing, i, CreateAction, r.id)
  {
    var (s, cs) := Run(flags, dedupe, logs[..k]);
    var (t, ds) := Run(flags, dedupe, logs[..k + 1]);
    var v := Judge(flags, s.ongoing, s.store, logs[k]);
    RunSteps(flags, dedupe, logs, k);
    JudgedCloseCreate(flags, s, logs[k], i);
    if v == CloseCreate(i) {
      AppliedClose(v, dedupe, s, logs[k], i);
    }
    var c := Closed(WithEnd(s.ongoing[i], logs[k]), s.openedAt[i], k);
    if ds == cs + [c] {
      assert ds[|cs|] == c;
      ClosesOne(v, dedupe, s, logs[k], i);
    }
  }

  // ----- the store -----

  predicate Scales(r: Resource) {
    r == Deployments || r == Jobs || r == ReplicaSets || r == StatefulSets
  }

  /** The entry shows the object: a complete and successful request to get or create it. */
  predicate Shows(log: Log, id: ObjId) {
    && log.responseComplete && (log.verb == Get || log.verb == Create) && (log.code == 200 || log.code == 201)
    && Scales(log.resource) && IsAbout(log, id)
  }

  ghost predicate LastShown(logs: seq<Log>, k: nat, id: ObjId, j: nat) {
    j < k <= |logs| && Shows(logs[j], id) && forall m :: j < m < k ==> !Shows(logs[m], id)
  }

  lemma StoreStep(flags: Flags, dedupe: bool, s: State, log: Log, id: ObjId)
    requires Valid(s)
    ensures var store := Step(flags, dedupe, s, log).0.store;
            if Shows(log, id) then id in store && store[id].parallelism == log.parallelism && store[id].replicas == log.replicas
            else (id in store <==> id in s.store) && (id in store ==> store[id] == s.store[id])
  {
  }

  ghost predicate SaysOf(store: Store, id: ObjId, log: Log) {
    id in store && store[id].parallelism == log.parallelism && store[id].replicas == log.replicas
  }

  lemma StoreMoves(flags: Flags, dedupe: bool, logs: seq<Log>, k: nat, id: ObjId)
    requires k < |logs|
    ensures var before, after := Run(flags, dedupe, logs[..k]).0.store, Run(flags, dedupe, logs[..k + 1]).0.store;
            if Shows(logs[k], id) then SaysOf(after, id, logs[k])
            else (id in after <==> id in before) && forall log :: SaysOf(after, id, log) <==> SaysOf(before, id, log)
  {
    RunSteps(flags, dedupe, logs, k);
    StoreStep(flags, dedupe, Run(flags, dedupe, logs[..k]).0, logs[k], id);
  }

  /** The store says of an object what the last entry that shows it said, in every run. */
  lemma {:induction false} StoreIsLastShown(flags: Flags, dedupe: bool, logs: seq<Log>, k: nat, id: ObjId, j: nat)
    requires k <= |logs| && LastShown(logs, k, id, j)
    ensures SaysOf(Run(flags, dedupe, logs[..k]).0.store, id, logs[j])
  {
    StoreMoves(flags, dedupe, logs, k - 1, id);
    if j < k - 1 {
      StoreIsLastShown(flags, dedupe, logs, k - 1, id, j);
    }
  }

  /** And nothing of an object that no entry has shown. */
  lemma {:induction false} UnshownIsUnknown(flags: Flags, dedupe: bool, logs: seq<Log>, k: nat, id: ObjId)
    requires k <= |logs| && forall j :: 0 <= j < k ==> !Shows(logs[j], id)
    ensures id !in Run(flags, dedupe, logs[..k]).0.store
  {
    if k > 0 {
      UnshownIsUnknown(flags, dedupe, logs, k - 1, id);
      StoreMoves(flags, dedupe, logs, k - 1, id);
    }
  }

  // ----- scales -----

  /** How many the entry says the object should have. */
  function Wanted(log: Log): uint8 {
    if log.resource == Jobs then log.parallelism else log.replicas
  }

  predicate IsNewScale(r: Record, from: uint8, log: Log) {
    && r.action == ScaleAction && r.startTime == log.requestTime && IsAbout(log, r.id)
    && r.goals == Some(Goals(from, Wanted(log))) && r.endTime.None? && r.labels.None? && !r.unfinished
    && r.pvName.None? && r.attachTime.None? && r.containerTime.None? && r.boundTime.None?
  }

  ghost predicate ScalesNow(s: State, k: nat) {
    Valid(s) && s.ongoing != [] && s.ongoing[|s.ongoing| - 1].action == ScaleAction && s.openedAt[|s.openedAt| - 1] == k
  }

  predicate ChangesScale(flags: Flags, log: Log) {
    flags.scale && log.responseComplete && (log.verb == Update || log.verb == Patch) && log.code == 200 && Scales(log.resource)
  }

  lemma JudgedOpenScale(flags: Flags, s: State, log: Log, id: ObjId)
    requires Tidy(s) && IsAbout(log, id)
    ensures Judge(flags, s.ongoing, s.store, log).OpenScale? <==>
              && ChangesScale(flags, log) && id in s.store
              && var from := if log.resource == Jobs then s.store[id].parallelism else s.store[id].replicas;
                 && from != 0 && Wanted(log) != 0 && from != Wanted(log)
                 && !exists r :: r in s.ongoing && r.action == ScaleAction && r.id == id && r.goals == Some(Goals(from, Wanted(log)))
  {
    var i := FindOpen(ScaleAction, id, s.ongoing);
    FindsNewest(s, ScaleAction, id, i);
    forall j | 0 <= j < |s.ongoing| && s.ongoing[j].action == ScaleAction && s.ongoing[j].id == id
      ensures i == j
    {
      FindsNewest(s, ScaleAction, id, j);
    }
  }

  lemma OlderOpenings(s: State, t: State)
    requires Tidy(s) && Valid(t)
    requires t.openedAt == s.openedAt || exists i :: 0 <= i < |s.openedAt| && t.openedAt == Without(s.openedAt, i)
    ensures !ScalesNow(t, s.seen)
  {
    if i :| 0 <= i < |s.openedAt| && t.openedAt == Without(s.openedAt, i) && t.openedAt != [] {
      WithoutMembers(s.openedAt, i, t.openedAt[|t.openedAt| - 1]);
    }
  }

  /** Only the verdict that opens a scale leaves one opened now. */
  lemma OpensScaleNow(v: Verdict, dedupe: bool, s: State, log: Log)
    requires Tidy(s) && Justified(v, s.ongoing, s.store, log)
    ensures var t := Apply(v, dedupe, s, log).0;
            && (ScalesNow(t, s.seen) <==> v.OpenScale?)
            && (v.OpenScale? ==> t.ongoing[|t.ongoing| - 1] == NewScale(log, s.store))
  {
    var t := Apply(v, dedupe, s, log).0;
    match v
    case OpenScale =>
      AppliedScale(dedupe, s, log, Superseded(s.ongoing, log));
    case OpenCreate =>
      if dedupe && Suppressed(s.ongoing, log) {
        OlderOpenings(s, t);
      } else {
        assert t.ongoing == s.ongoing + [NewRecord(CreateAction, log)];
      }
    case CloseCreate(i) =>
      assert t.openedAt == Without(s.openedAt, i);
      OlderOpenings(s, t);
    case CloseScale(i) =>
      assert t.openedAt == Without(s.openedAt, i);
      OlderOpenings(s, t);
    case _ =>
      assert t.openedAt == s.openedAt;
      OlderOpenings(s, t);
  }

  /** An entry opens a scale exactly if it changes the number that the last entry to show
      the object said it had, both not zero, and this change is not in progress yet. */
  lemma ScaleOpensIff(flags: Flags, dedupe: bool, logs: seq<Log>, k: nat, id: ObjId, j: nat)
    requires k < |logs| && IsAbout(logs[k], id) && LastShown(logs, k, id, j)
    ensures var s, t, log := Run(flags, dedupe, logs[..k]).0, Run(flags, dedupe, logs[..k + 1]).0, logs[k];
            && (ScalesNow(t, k) <==>
                  && ChangesScale(flags, log)
                  && Wanted(logs[j]) != 0 && Wanted(log) != 0 && Wanted(logs[j]) != Wanted(log)
                  && !exists r :: r in s.ongoing && r.action == ScaleAction && r.id == id && r.goals == Some(Goals(Wanted(logs[j]), Wanted(log))))
            && (ScalesNow(t, k) ==> IsNewScale(t.ongoing[|t.ongoing| - 1], Wanted(logs[j]), log))
  {
    var s := Run(flags, dedupe, logs[..k]).0;
    RunSteps(flags, dedupe, logs, k);
    StoreIsLastShown(flags, dedupe, logs, k, id, j);
    JudgedOpenScale(flags, s, logs[k], id);
    OpensScaleNow(Judge(flags, s.ongoing, s.store, logs[k]), dedupe, s, logs[k]);
  }

  /** No scale of an object that no entry has shown is opened. */
  lemma UnshownNeverScales(flags: Flags, dedupe: bool, logs: seq<Log>, k: nat, id: ObjId)
    requires k < |logs| && IsAbout(logs[k], id) && forall j :: 0 <= j < k ==> !Shows(logs[j], id)
    ensures !ScalesNow(Run(flags, dedupe, logs[..k + 1]).0, k)
  {
    var s := Run(flags, dedupe, logs[..k]).0;
    RunSteps(flags, dedupe, logs, k);
    UnshownIsUnknown(flags, dedupe, logs, k, id);
    JudgedOpenScale(flags, s, logs[k], id);
    OpensScaleNow(Judge(flags, s.ongoing, s.store, logs[k]), dedupe, s, logs[k]);
  }

  /** The status meets the goal in every field that counts for this kind of object. */
  predicate MeetsGoal(r: Resource, s: Status, goal: uint8) {
    && (r == Deployments || r == ReplicaSets ==> s.available == goal)
    && (r == StatefulSets ==> s.current == goal)
    && (r == ReplicaSets ==> s.fullyLabeled == goal)
    && (r == Deployments || r == ReplicaSets || r == StatefulSets ==> s.ready == goal)
    && (r == Deployments ==> s.updated == goal)
    && (r == Jobs ==> s.active == goal)
  }

  predicate MayEndScaling(flags: Flags, log: Log) {
    && flags.scale && log.responseComplete && log.verb == Update && log.statusSubresource && log.code == 200
    && Scales(log.resource) && log.requestStatus.Some? && log.responseStatus.Some?
  }

  lemma JudgedCloseScale(flags: Flags, s: State, log: Log, i: nat)
    requires Tidy(s) && i < |s.ongoing| && s.ongoing[i].action == ScaleAction
    ensures var v := Judge(flags, s.ongoing, s.store, log);
            v == CloseScale(i) <==>
              && MayEndScaling(flags, log) && IsAbout(log, s.ongoing[i].id) && s.ongoing[i].goals.Some?
              && MeetsGoal(log.resource, log.responseStatus.value, s.ongoing[i].goals.value.goal) && !v.OpenScale?
  {
    FindsNewest(s, ScaleAction, IdOf(log), i);
    assert s.ongoing[i].id == IdOf(log) ==> Newest(s.ongoing, i, ScaleAction, IdOf(log));
  }

  lemma SupersededAt(s: State, log: Log, i: nat)
    requires Tidy(s) && i < |s.ongoing| && s.ongoing[i].action == ScaleAction
    ensures Superseded(s.ongoing, log) == i <==> IsAbout(log, s.ongoing[i].id)
  {
    FindsNewest(s, ScaleAction, IdOf(log), i);
    assert s.ongoing[i].id == IdOf(log) ==> Newest(s.ongoing, i, ScaleAction, IdOf(log));
  }

  lemma AppliedScales(dedupe: bool, s: State, log: Log, i: nat)
    requires Tidy(s) && OldValue(log, s.store).Some? && Superseded(s.ongoing, log) == i && s.ongoing[i].action == ScaleAction
    requires ScaleSupported(log.resource)
    ensures var (t, c) := Apply(OpenScale, dedupe, s, log);
            && c == Some(Closed(WithEnd(s.ongoing[i], log).(unfinished := true), s.openedAt[i], s.seen))
            && t.ongoing == s.ongoing[..i] + s.ongoing[i + 1..] + [t.ongoing[|t.ongoing| - 1]]
  {
  }

  ghost predicate ClosesAs(flags: Flags, dedupe: bool, logs: seq<Log>, k: nat, i: nat, r: Record)
    requires k < |logs| && i < |Run(flags, dedupe, logs[..k]).0.ongoing|
  {
    Run(flags, dedupe, logs[..k + 1]).1 ==
      Run(flags, dedupe, logs[..k]).1 + [Closed(r, Run(flags, dedupe, logs[..k]).0.openedAt[i], k)]
  }

  lemma ClosesWhat(flags: Flags, dedupe: bool, logs: seq<Log>, k: nat, i: nat, r: Record)
    requires k < |logs| && i < |Run(flags, dedupe, logs[..k]).0.ongoing|
    ensures var s := Run(flags, dedupe, logs[..k]).0;
            ClosesAs(flags, dedupe, logs, k, i, r) <==>
              Step(flags, dedupe, s, logs[k]).1 == Some(Closed(r, s.openedAt[i], k))
  {
    RunSteps(flags, dedupe, logs, k);
    var (s, cs) := Run(flags, dedupe, logs[..k]);
    var c := Step(flags, dedupe, s, logs[k]).1;
    if ClosesAs(flags, dedupe, logs, k, i, r) {
      assert (cs + Emitted(c))[|cs|] == Closed(r, s.openedAt[i], k);
    }
  }

  lemma StepFinishesIff(v: Verdict, dedupe: bool, s: State, log: Log, i: nat)
    requires Tidy(s) && Justified(v, s.ongoing, s.store, log) && i < |s.ongoing| && s.ongoing[i].action == ScaleAction
    ensures var (t, c) := Apply(v, dedupe, s, log);
            c == Some(Closed(WithEnd(s.ongoing[i], log), s.openedAt[i], s.seen)) && t.ongoing == s.ongoing[..i] + s.ongoing[i + 1..] <==>
              v == CloseScale(i)
  {
    var (t, c) := Apply(v, dedupe, s, log);
    if v == CloseScale(i) {
      AppliedClose(v, dedupe, s, log, i);
    } else if c == Some(Closed(WithEnd(s.ongoing[i], log), s.openedAt[i], s.seen)) {
      ClosesOne(v, dedupe, s, log, i);
      AppliedScale(dedupe, s, log, i);
    }
  }

  lemma StepCutsOffIff(v: Verdict, dedupe: bool, s: State, log: Log, i: nat)
    requires Tidy(s) && Justified(v, s.ongoing, s.store, log) && i < |s.ongoing| && s.ongoing[i].action == ScaleAction
    ensures var (t, c) := Apply(v, dedupe, s, log);
            c == Some(Closed(WithEnd(s.ongoing[i], log).(unfinished := true), s.openedAt[i], s.seen)) <==>
              v.OpenScale? && Superseded(s.ongoing, log) == i
    ensures var t := Apply(v, dedupe, s, log).0;
            v.OpenScale? && Superseded(s.ongoing, log) == i ==>
              t.ongoing != [] && t.ongoing == s.ongoing[..i] + s.ongoing[i + 1..] + [t.ongoing[|t.ongoing| - 1]]
  {
    var c := Apply(v, dedupe, s, log).1;
    if v.OpenScale? && Superseded(s.ongoing, log) == i {
      AppliedScales(dedupe, s, log, i);
    } else if c == Some(Closed(WithEnd(s.ongoing[i], log).(unfinished := true), s.openedAt[i], s.seen)) {
      ClosesOne(v, dedupe, s, log, i);
      AppliedClose(v, dedupe, s, log, i);
    }
  }

  /** An entry finishes the scale at i exactly if it shows the object at its goal and opens
      no scale itself. */
  lemma ScaleFinishesIff(flags: Flags, dedupe: bool, logs: seq<Log>, k: nat, i: nat)
    requires k < |logs| && i < |Run(flags, dedupe, logs[..k]).0.ongoing|
    requires Run(flags, dedupe, logs[..k]).0.ongoing[i].action == ScaleAction
    ensures var s, t, log := Run(flags, dedupe, logs[..k]).0, Run(flags, dedupe, logs[..k + 1]).0, logs[k];
            var r := s.ongoing[i];
            ClosesAs(flags, dedupe, logs, k, i, WithEnd(r, log)) && t.ongoing == s.ongoing[..i] + s.ongoing[i + 1..] <==>
              && MayEndScaling(flags, log) && IsAbout(log, r.id) && r.goals.Some?
              && MeetsGoal(log.resource, log.responseStatus.value, r.goals.value.goal) && !ScalesNow(t, k)
  {
    var s := Run(flags, dedupe, logs[..k]).0;
    var v := Judge(flags, s.ongoing, s.store, logs[k]);
    RunSteps(flags, dedupe, logs, k);
    ClosesWhat(flags, dedupe, logs, k, i, WithEnd(s.ongoing[i], logs[k]));
    JudgedCloseScale(flags, s, logs[k], i);
    OpensScaleNow(v, dedupe, s, logs[k]);
    StepFinishesIff(v, dedupe, s, logs[k], i);
  }

  /** It cuts the scale off exactly if it opens another one for the same object. */
  lemma ScaleCutOffIff(flags: Flags, dedupe: bool, logs: seq<Log>, k: nat, i: nat)
    requires k < |logs| && i < |Run(flags, dedupe, logs[..k]).0.ongoing|
    requires Run(flags, dedupe, logs[..k]).0.ongoing[i].action == ScaleAction
    ensures var s, t, log := Run(flags, dedupe, logs[..k]).0, Run(flags, dedupe, logs[..k + 1]).0, logs[k];
            && (ClosesAs(flags, dedupe, logs, k, i, WithEnd(s.ongoing[i], log).(unfinished := true)) <==>
                  ScalesNow(t, k) && IsAbout(log, s.ongoing[i].id))
            && (ScalesNow(t, k) && IsAbout(log, s.ongoing[i].id) ==>
                  t.ongoing != [] && t.ongoing == s.ongoing[..i] + s.ongoing[i + 1..] + [t.ongoing[|t.ongoing| - 1]])
  {
    var s := Run(flags, dedupe, logs[..k]).0;
    var v := Judge(flags, s.ongoing, s.store, logs[k]);
    RunSteps(flags, dedupe, logs, k);
    ClosesWhat(flags, dedupe, logs, k, i, WithEnd(s.ongoing[i], logs[k]).(unfinished := true));
    SupersededAt(s, logs[k], i);
    OpensScaleNow(v, dedupe, s, logs[k]);
    StepCutsOffIff(v, dedupe, s, logs[k], i);
  }

  // ----- pods and claims -----

  predicate SaysAttached(flags: Flags, log: Log) {
    flags.pvcPod && log.responseComplete && log.resource == Events && log.involvedIsPod && log.reason == "SuccessfulAttachVolume"
  }

  predicate PatchesStatus(flags: Flags, log: Log) {
    flags.pvcPod && log.responseComplete && log.verb == Patch && log.resource == Pods && log.statusSubresource
  }

  predicate SaysCreating(flags: Flags, log: Log) {
    && PatchesStatus(flags, log) && log.requestStatus.Some?
    && log.requestStatus.value.waitingReasons != []
    && forall r :: r in log.requestStatus.value.waitingReasons ==> r == "ContainerCreating"
  }

  lemma JudgedNote(flags: Flags, s: State, log: Log)
    requires Valid(s)
    ensures var v := Judge(flags, s.ongoing, s.store, log);
            && (SaysAttached(flags, log) <==> v.Attach?)
            && (SaysCreating(flags, log) && !v.CloseCreate? <==> v.Container?)
            && (PatchesStatus(flags, log) && log.requestStatus.None? && !v.CloseCreate? <==> v.Panic?)
  {
  }

  lemma AppliedNote(v: Verdict, dedupe: bool, s: State, log: Log, id: ObjId, i: nat, r: Record)
    requires Tidy(s) && Justified(v, s.ongoing, s.store, log)
    requires v.Attach? || v.Container?
    requires id == if v.Attach? then ObjId(log.involvedName, Pods, log.involvedNamespace) else ObjId(log.name, Pods, log.namespace)
    requires i < |s.ongoing| ==>
               r == if v.Attach? then s.ongoing[i].(attachTime := Some(log.stageTime), pvName := Some(Quoted(log.message)))
                    else s.ongoing[i].(containerTime := Some(log.stageTime))
    ensures var (t, c) := Apply(v, dedupe, s, log);
            && c.None?
            && (Newest(s.ongoing, i, CreateAction, id) ==> t.ongoing == s.ongoing[i := r])
            && ((forall j :: 0 <= j < |s.ongoing| ==> !(s.ongoing[j].action == CreateAction && s.ongoing[j].id == id)) ==>
                  t.ongoing == s.ongoing)
  {
    FindsNewest(s, CreateAction, id, i);
  }

  /** An event that says a volume was attached to a pod puts the time and the quoted name on
      the last creation of that pod in progress, if there is one, and does nothing else. */
  lemma NotesAttached(flags: Flags, dedupe: bool, logs: seq<Log>, k: nat, i: nat)
    requires k < |logs| && SaysAttached(flags, logs[k])
    ensures var (s, cs), (t, ds) := Run(flags, dedupe, logs[..k]), Run(flags, dedupe, logs[..k + 1]);
            var log := logs[k];
            var id := ObjId(log.involvedName, Pods, log.involvedNamespace);
            && cs == ds
            && (Newest(s.ongoing, i, CreateAction, id) ==>
                  t.ongoing == s.ongoing[i := s.ongoing[i].(attachTime := Some(log.stageTime), pvName := Some(Quoted(log.message)))])
            && ((forall j :: 0 <= j < |s.ongoing| ==> !(s.ongoing[j].action == CreateAction && s.ongoing[j].id == id)) ==>
                  t.ongoing == s.ongoing)
  {
    var s, log := Run(flags, dedupe, logs[..k]).0, logs[k];
    RunSteps(flags, dedupe, logs, k);
    JudgedNote(flags, s, log);
    var r := if i < |s.ongoing| then s.ongoing[i].(attachTime := Some(log.stageTime), pvName := Some(Quoted(log.message)))
             else NewRecord(CreateAction, log);
    AppliedNote(Attach, dedupe, s, log, ObjId(log.involvedName, Pods, log.involvedNamespace), i, r);
  }

  /** A status patch in which every container waits to be created puts the time on the last
      creation of the pod in progress, unless it ended one. */
  lemma NotesCreating(flags: Flags, dedupe: bool, logs: seq<Log>, k: nat, i: nat)
    requires k < |logs| && SaysCreating(flags, logs[k])
    requires Run(flags, dedupe, logs[..k]).1 == Run(flags, dedupe, logs[..k + 1]).1
    ensures var s, t, log := Run(flags, dedupe, logs[..k]).0, Run(flags, dedupe, logs[..k + 1]).0, logs[k];
            var id := ObjId(log.name, Pods, log.namespace);
            && (Newest(s.ongoing, i, CreateAction, id) ==>
                  t.ongoing == s.ongoing[i := s.ongoing[i].(containerTime := Some(log.stageTime))])
            && ((forall j :: 0 <= j < |s.ongoing| ==> !(s.ongoing[j].action == CreateAction && s.ongoing[j].id == id)) ==>
                  t.ongoing == s.ongoing)
  {
    var s, log := Run(flags, dedupe, logs[..k]).0, logs[k];
    RunSteps(flags, dedupe, logs, k);
    JudgedNote(flags, s, log);
    var r := if i < |s.ongoing| then s.ongoing[i].(containerTime := Some(log.stageTime)) else NewRecord(CreateAction, log);
    AppliedNote(Container, dedupe, s, log, ObjId(log.name, Pods, log.namespace), i, r);
  }

  ghost predicate StaysOrNew(r: Record, s: State, t: State) {
    r in s.ongoing || (Valid(t) && t.ongoing != [] && r == t.ongoing[|t.ongoing| - 1] && t.openedAt[|t.openedAt| - 1] == s.seen)
  }

  lemma AppendStays(s: State, t: State, i: nat, x: Record, r: Record)
    requires Valid(s) && i < |s.ongoing| && r in t.ongoing
    requires t.ongoing == Without(s.ongoing, i) + [x] && t.openedAt == Without(s.openedAt, i) + [s.seen]
    ensures StaysOrNew(r, s, t)
  {
    if r != x {
      assert r in Without(s.ongoing, i);
      WithoutMembers(s.ongoing, i, r);
    }
  }

  lemma AppliedElse(v: Verdict, dedupe: bool, s: State, log: Log, r: Record)
    requires Tidy(s) && Justified(v, s.ongoing, s.store, log) && !v.Attach? && !v.Container?
    requires r in Apply(v, dedupe, s, log).0.ongoing
    ensures StaysOrNew(r, s, Apply(v, dedupe, s, log).0)
  {
    var t := Apply(v, dedupe, s, log).0;
    match v
    case CloseCreate(i) => WithoutMembers(s.ongoing, i, r);
    case CloseScale(i) => WithoutMembers(s.ongoing, i, r);
    case OpenScale =>
      var i := Superseded(s.ongoing, log);
      AppliedScale(dedupe, s, log, i);
      if i >= 0 {
        AppendStays(s, t, i, NewScale(log, s.store), r);
      }
    case _ =>
  }

  /** Every other entry leaves the records in progress as they are, except for those it
      closes and the one it opens. */
  lemma OthersStay(flags: Flags, dedupe: bool, logs: seq<Log>, k: nat, r: Record)
    requires k < |logs| && !SaysAttached(flags, logs[k]) && !SaysCreating(flags, logs[k])
    requires r in Run(flags, dedupe, logs[..k + 1]).0.ongoing
    ensures StaysOrNew(r, Run(flags, dedupe, logs[..k]).0, Run(flags, dedupe, logs[..k + 1]).0)
  {
    var s := Run(flags, dedupe, logs[..k]).0;
    RunSteps(flags, dedupe, logs, k);
    JudgedNote(flags, s, logs[k]);
    AppliedElse(Judge(flags, s.ongoing, s.store, logs[k]), dedupe, s, logs[k], r);
  }

  /** The only entries that end the program are status patches of pods without a status,
      when they end no creation. */
  lemma PanicsIff(flags: Flags, dedupe: bool, logs: seq<Log>, k: nat)
    requires k < |logs|
    ensures VerdictAt(flags, dedupe, logs, k).Panic? <==>
              && PatchesStatus(flags, logs[k]) && logs[k].requestStatus.None?
              && Run(flags, dedupe, logs[..k]).1 == Run(flags, dedupe, logs[..k + 1]).1
  {
    RunSteps(flags, dedupe, logs, k);
    var s := Run(flags, dedupe, logs[..k]).0;
    JudgedNote(flags, s, logs[k]);
    var v := Judge(flags, s.ongoing, s.store, logs[k]);
    if v.CloseCreate? {
      AppliedClose(v, dedupe, s, logs[k], v.i);
    }
  }

  /** Without two quotes there is no name. */
  lemma QuotesNothing(msg: string, before: string, after: string)
    requires '"' !in before && '"' !in after
    ensures msg == before || msg == before + "\"" + after ==> Quoted(msg) == ""
  {
    NoSuchChar(before, '"');
    NoSuchChar(after, '"');
    if msg == before + "\"" + after {
      IndexOfPrefix(before, '"', after);
      assert msg == before + ['"'] + after && msg[|before| + 1..] == after;
    }
  }
}
