/** What kinds of record a replay holds: properties of all records, in progress and
    closed, that its steps keep. */
module Kinds {
  import opened Wrappers
  import opened AuditLog
  import opened Replay
  import opened Matching

  ghost predicate Everyone(p: Record -> bool, rs: seq<Record>) {
    forall i :: 0 <= i < |rs| ==> p(rs[i])
  }

  lemma EveryoneAfter(p: Record -> bool, rs: seq<Record>, i: nat, r: Record)
    requires Everyone(p, rs)
    ensures p(r) ==> Everyone(p, rs + [r])
    ensures i < |rs| ==> p(rs[i]) && Everyone(p, Without(rs, i)) && (p(r) ==> Everyone(p, Without(rs, i) + [r]))
  {
    if i < |rs| {
      WithoutAt(rs, i);
    }
  }

  lemma CloseKind(p: Record -> bool, v: Verdict, dedupe: bool, s: State, log: Log)
    requires Valid(s) && Justified(v, s.ongoing, s.store, log) && (v.CloseCreate? || v.CloseScale?)
    requires Everyone(p, s.ongoing)
    requires p(if v.CloseCreate? then EndedCreate(s.ongoing[v.i], log) else Ended(s.ongoing[v.i], log))
    ensures var (s', c) := Apply(v, dedupe, s, log); Everyone(p, s'.ongoing) && Everyone(p, Records(Emitted(c)))
  {
    EveryoneAfter(p, s.ongoing, v.i, s.ongoing[v.i]);
  }

  lemma OpenScaleKind(p: Record -> bool, dedupe: bool, s: State, log: Log)
    requires Valid(s) && IsScaleStart(log, s.store, s.ongoing)
    requires Everyone(p, s.ongoing) && p(NewScale(log, s.store))
    requires var i := Superseded(s.ongoing, log); i >= 0 ==> p(Ended(s.ongoing[i], log).(unfinished := true))
    ensures var (s', c) := Apply(OpenScale, dedupe, s, log); Everyone(p, s'.ongoing) && Everyone(p, Records(Emitted(c)))
  {
    var i := Superseded(s.ongoing, log);
    var newest := NewScale(log, s.store);
    EveryoneAfter(p, s.ongoing, if i < 0 then |s.ongoing| else i, newest);
    var (s', c) := Apply(OpenScale, dedupe, s, log);
    assert s'.ongoing == if i < 0 then s.ongoing + [newest] else Without(s.ongoing, i) + [newest];
  }

  lemma RunRecords(flags: Flags, dedupe: bool, logs: seq<Log>)
    requires logs != []
    ensures var n := |logs| - 1;
            var before := Run(flags, dedupe, logs[..n]);
            Records(Run(flags, dedupe, logs).1) ==
              Records(before.1) + Records(Emitted(Step(flags, dedupe, before.0, logs[n]).1))
  {
  }

  // ----- records of supported resources -----

  predicate Supported(r: Record) {
    CreateSupported(r.id.resource) || ScaleSupported(r.id.resource)
  }

  lemma SupportedStep(v: Verdict, dedupe: bool, s: State, log: Log)
    requires Valid(s) && Justified(v, s.ongoing, s.store, log)
    requires Everyone(Supported, s.ongoing)
    ensures var (s', c) := Apply(v, dedupe, s, log); Everyone(Supported, s'.ongoing) && Everyone(Supported, Records(Emitted(c)))
  {
    match v
    case CloseCreate(_) => CloseKind(Supported, v, dedupe, s, log);
    case CloseScale(_) => CloseKind(Supported, v, dedupe, s, log);
    case OpenScale => OpenScaleKind(Supported, dedupe, s, log);
    case OpenCreate => EveryoneAfter(Supported, s.ongoing, |s.ongoing|, NewRecord(CreateAction, log));
    case _ =>
  }

  /** Over every run, whatever the flags, only records of supported resources exist. */
  lemma {:induction false} StaysSupported(flags: Flags, dedupe: bool, logs: seq<Log>)
    ensures Everyone(Supported, Run(flags, dedupe, logs).0.ongoing) && Everyone(Supported, Records(Run(flags, dedupe, logs).1))
  {
    if logs != [] {
      var n := |logs| - 1;
      StaysSupported(flags, dedupe, logs[..n]);
      var s := Run(flags, dedupe, logs[..n]).0;
      SupportedStep(Judge(flags, s.ongoing, s.store, logs[n]), dedupe, s, logs[n]);
      RunRecords(flags, dedupe, logs);
    }
  }

  // ----- records without names and times of pods and claims -----

  /** Nothing is left on the record that the batch parser would drop. */
  predicate Clean(r: Record) {
    r.pvName.None? && r.attachTime.None? && r.containerTime.None? && r.boundTime.None?
  }

  /** A clean scale of a supported kind of object. */
  predicate Bare(r: Record) {
    Clean(r) && r.action.ScaleAction? && ScaleSupported(r.id.resource)
  }

  lemma BareStep(v: Verdict, dedupe: bool, s: State, log: Log)
    requires Valid(s) && Justified(v, s.ongoing, s.store, log) && !v.OpenCreate? && !v.CloseCreate?
    requires Everyone(Bare, s.ongoing)
    ensures var (s', c) := Apply(v, dedupe, s, log); Everyone(Bare, s'.ongoing) && Everyone(Bare, Records(Emitted(c)))
  {
    match v
    case CloseScale(_) => CloseKind(Bare, v, dedupe, s, log);
    case OpenScale => OpenScaleKind(Bare, dedupe, s, log);
    case Attach => assert LastMatch(CreateAction, ObjId(log.involvedName, Pods, log.involvedNamespace), s.ongoing) < 0;
    case Container => assert LastMatch(CreateAction, ObjId(log.name, Pods, log.namespace), s.ongoing) < 0;
    case _ =>
  }

  lemma NoCreateVerdicts(flags: Flags, ongoing: seq<Record>, store: Store, log: Log)
    requires !flags.create
    ensures var v := Judge(flags, ongoing, store, log); !v.OpenCreate? && !v.CloseCreate?
  {
  }

  /** Without creation parsing, all records stay bare. */
  lemma {:induction false} StaysBare(flags: Flags, dedupe: bool, logs: seq<Log>)
    requires !flags.create
    ensures Everyone(Bare, Run(flags, dedupe, logs).0.ongoing) && Everyone(Bare, Records(Run(flags, dedupe, logs).1))
  {
    if logs != [] {
      var n := |logs| - 1;
      StaysBare(flags, dedupe, logs[..n]);
      var s := Run(flags, dedupe, logs[..n]).0;
      NoCreateVerdicts(flags, s.ongoing, s.store, logs[n]);
      BareStep(Judge(flags, s.ongoing, s.store, logs[n]), dedupe, s, logs[n]);
      RunRecords(flags, dedupe, logs);
    }
  }
}
