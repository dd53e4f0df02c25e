/** The records a replay closes are a matching of starting entries with later ending
    entries, paired like brackets. */
module Matching {
  import opened Wrappers
  import opened AuditLog
  import opened Replay

  predicate SameKey(a: Record, b: Record) {
    a.action == b.action && a.id == b.id
  }

  predicate ProperGoals(g: Goals) {
    g.from != 0 && g.goal != 0 && g.from != g.goal
  }

  /** The record was opened by this entry and has not ended. */
  predicate OpenedBy(r: Record, log: Log) {
    && r.id == IdOf(log) && r.startTime == log.requestTime && r.endTime.None? && !r.unfinished
    && (r.action.CreateAction? ==> IsCreateStart(log))
    && (r.action.ScaleAction? ==>
          r.goals.Some? && ProperGoals(r.goals.value) && r.goals.value.goal == NewValue(log))
  }

  /** The pair of entries fits the record: same object, right times, and an ending
      that the action calls for. */
  predicate Matches(c: Closed, start: Log, end: Log) {
    && OpenedBy(c.rec.(endTime := None, unfinished := false), start)
    && IdOf(end) == c.rec.id && c.rec.endTime == Some(end.stageTime)
    && (c.rec.action.CreateAction? ==> !c.rec.unfinished && MayEndCreate(end))
    && (c.rec.action.ScaleAction? && !c.rec.unfinished ==>
          MayEndScale(end) && AllGoalsFulfilled(end.resource, end.responseStatus.value, c.rec.goals.value.goal))
  }

  /** Two closed records of one object and action are nested or one after the other. */
  predicate Bracketed(a: Closed, b: Closed) {
    SameKey(a.rec, b.rec) && a.openedBy < b.openedBy ==> b.closedBy < a.closedBy || a.closedBy <= b.openedBy
  }

  /** A record still open did not open inside a closed one of its object and action. */
  predicate OutsideOf(r: Record, at: nat, c: Closed) {
    SameKey(r, c.rec) ==> at < c.openedBy || c.closedBy <= at
  }

  /** The records in progress, each at the entry that opened it, in opening order; at
      most one scale per object. */
  ghost predicate OpenOnes(logs: seq<Log>, n: nat, pending: seq<Record>, at: seq<nat>) {
    && n <= |logs| && |pending| == |at|
    && (forall k :: 0 <= k < |at| ==> at[k] < n && OpenedBy(pending[k], logs[at[k]]))
    && (forall j, k :: 0 <= j < k < |at| ==> at[j] < at[k])
    && (forall j, k :: 0 <= j < k < |at| ==> pending[j].action.ScaleAction? ==> !SameKey(pending[j], pending[k]))
  }

  /** The closed records, in closing order; no entry opens or closes two of them. */
  ghost predicate ClosedOnes(logs: seq<Log>, n: nat, cs: seq<Closed>) {
    && n <= |logs|
    && (forall k :: 0 <= k < |cs| ==>
          cs[k].openedBy < cs[k].closedBy < n && Matches(cs[k], logs[cs[k].openedBy], logs[cs[k].closedBy]))
    && (forall j, k :: 0 <= j < k < |cs| ==> cs[j].closedBy < cs[k].closedBy && cs[j].openedBy != cs[k].openedBy)
    && (forall j, k :: 0 <= j < |cs| && 0 <= k < |cs| ==> Bracketed(cs[j], cs[k]))
  }

  ghost predicate Apart(pending: seq<Record>, at: seq<nat>, cs: seq<Closed>)
    requires |pending| == |at|
  {
    forall j, k :: 0 <= j < |cs| && 0 <= k < |at| ==> cs[j].openedBy != at[k] && OutsideOf(pending[k], at[k], cs[j])
  }

  /** The matching after the first n entries. */
  ghost predicate Matched(logs: seq<Log>, n: nat, pending: seq<Record>, at: seq<nat>, cs: seq<Closed>) {
    OpenOnes(logs, n, pending, at) && ClosedOnes(logs, n, cs) && Apart(pending, at, cs)
  }

  lemma WithoutAt<T>(xs: seq<T>, i: nat)
    requires i < |xs|
    ensures |Without(xs, i)| == |xs| - 1
    ensures forall k :: 0 <= k < |xs| - 1 ==> Without(xs, i)[k] == if k < i then xs[k] else xs[k + 1]
  {
  }

  lemma CloseClosed(logs: seq<Log>, n: nat, cs: seq<Closed>, r: Record, at: nat)
    requires ClosedOnes(logs, n, cs) && at < n < |logs|
    requires Matches(Closed(r, at, n), logs[at], logs[n])
    requires forall c :: c in cs ==> c.openedBy != at && OutsideOf(r, at, c)
    ensures ClosedOnes(logs, n + 1, cs + [Closed(r, at, n)])
  {
    var cs' := cs + [Closed(r, at, n)];
    forall j, k | 0 <= j < |cs'| && 0 <= k < |cs'|
      ensures Bracketed(cs'[j], cs'[k])
    {
      assert j < |cs| ==> cs'[j] in cs;
    }
  }

  lemma CloseApart(pending: seq<Record>, at: seq<nat>, cs: seq<Closed>, i: nat, c: Closed)
    requires |pending| == |at| && i < |at| && Apart(pending, at, cs)
    requires forall j, k :: 0 <= j < k < |at| ==> at[j] < at[k]
    requires forall k :: i < k < |pending| ==> !SameKey(pending[k], pending[i])
    requires c.openedBy == at[i] && SameKey(c.rec, pending[i])
    ensures |Without(pending, i)| == |Without(at, i)| && Apart(Without(pending, i), Without(at, i), cs + [c])
  {
    WithoutAt(pending, i);
    WithoutAt(at, i);
  }

  lemma CloseOpen(logs: seq<Log>, n: nat, pending: seq<Record>, at: seq<nat>, i: nat)
    requires OpenOnes(logs, n, pending, at) && i < |at| && n < |logs|
    ensures OpenOnes(logs, n + 1, Without(pending, i), Without(at, i))
  {
    WithoutAt(pending, i);
    WithoutAt(at, i);
  }

  /** Closing the most recently opened record of its object and action. */
  lemma CloseKeeps(logs: seq<Log>, n: nat, pending: seq<Record>, at: seq<nat>, cs: seq<Closed>, i: nat, r: Record)
    requires Matched(logs, n, pending, at, cs) && n < |logs| && i < |pending|
    requires forall k :: i < k < |pending| ==> !SameKey(pending[k], pending[i])
    requires SameKey(r, pending[i]) && Matches(Closed(r, at[i], n), logs[at[i]], logs[n])
    ensures Matched(logs, n + 1, Without(pending, i), Without(at, i), cs + [Closed(r, at[i], n)])
  {
    forall c | c in cs
      ensures c.openedBy != at[i] && OutsideOf(r, at[i], c)
    {
      assert OutsideOf(pending[i], at[i], c);
    }
    CloseClosed(logs, n, cs, r, at[i]);
    CloseApart(pending, at, cs, i, Closed(r, at[i], n));
    CloseOpen(logs, n, pending, at, i);
  }

  /** Opening a record when no scale of that object is in progress. */
  lemma OpenKeeps(logs: seq<Log>, n: nat, pending: seq<Record>, at: seq<nat>, cs: seq<Closed>, r: Record)
    requires n < |logs| && Matched(logs, n + 1, pending, at, cs) && OpenedBy(r, logs[n])
    requires forall k :: 0 <= k < |at| ==> at[k] < n && !(r.action.ScaleAction? && SameKey(pending[k], r))
    ensures Matched(logs, n + 1, pending + [r], at + [n], cs)
  {
  }

  /** Noting a time on a record in progress. */
  lemma NoteKeeps(logs: seq<Log>, n: nat, pending: seq<Record>, at: seq<nat>, cs: seq<Closed>, i: nat, r: Record)
    requires Matched(logs, n, pending, at, cs) && n < |logs| && i < |pending|
    requires SameKey(r, pending[i]) && OpenedBy(r, logs[at[i]])
    ensures Matched(logs, n + 1, pending[i := r], at, cs)
  {
    var open' := pending[i := r];
    forall j, k | 0 <= j < |cs| && 0 <= k < |at|
      ensures cs[j].openedBy != at[k] && OutsideOf(open'[k], at[k], cs[j])
    {
      assert OutsideOf(pending[k], at[k], cs[j]);
    }
  }

  // ----- the replay keeps the matching -----

  ghost predicate MatchedState(logs: seq<Log>, s: State, cs: seq<Closed>) {
    Matched(logs, s.seen, s.ongoing, s.openedAt, cs)
  }

  /** Nothing in progress has ended, so the early exit of the search is never taken. */
  lemma FindIsLastMatch(logs: seq<Log>, n: nat, pending: seq<Record>, at: seq<nat>, action: Action, id: ObjId)
    requires OpenOnes(logs, n, pending, at)
    ensures FindOpen(action, id, pending) == LastMatch(action, id, pending)
  {
  }

  /** An entry that opens and closes nothing. */
  lemma NextKeeps(logs: seq<Log>, s: State, cs: seq<Closed>)
    requires MatchedState(logs, s, cs) && s.seen < |logs|
    ensures Matched(logs, s.seen + 1, s.ongoing, s.openedAt, cs)
  {
  }

  /** Closing what an entry is found to end. */
  lemma FoundKeeps(logs: seq<Log>, s: State, cs: seq<Closed>, i: nat, action: Action, r: Record)
    requires MatchedState(logs, s, cs) && s.seen < |logs| && i < |s.ongoing|
    requires i == FindOpen(action, IdOf(logs[s.seen]), s.ongoing)
    requires SameKey(r, s.ongoing[i]) && Matches(Closed(r, s.openedAt[i], s.seen), logs[s.openedAt[i]], logs[s.seen])
    ensures Matched(logs, s.seen + 1, Without(s.ongoing, i), Without(s.openedAt, i), cs + [Closed(r, s.openedAt[i], s.seen)])
  {
    FindIsLastMatch(logs, s.seen, s.ongoing, s.openedAt, action, IdOf(logs[s.seen]));
    CloseKeeps(logs, s.seen, s.ongoing, s.openedAt, cs, i, r);
  }

  /** The record an entry closes fits it. */
  lemma ClosedFits(v: Verdict, logs: seq<Log>, s: State)
    requires OpenOnes(logs, s.seen, s.ongoing, s.openedAt) && s.seen < |logs|
    requires v.CloseCreate? || v.CloseScale?
    requires Justified(v, s.ongoing, s.store, logs[s.seen])
    ensures var r := if v.CloseCreate? then EndedCreate(s.ongoing[v.i], logs[s.seen]) else Ended(s.ongoing[v.i], logs[s.seen]);
            SameKey(r, s.ongoing[v.i]) && Matches(Closed(r, s.openedAt[v.i], s.seen), logs[s.openedAt[v.i]], logs[s.seen])
  {
  }

  lemma CloseStepKeeps(v: Verdict, dedupe: bool, logs: seq<Log>, s: State, cs: seq<Closed>)
    requires MatchedState(logs, s, cs) && s.seen < |logs|
    requires v.CloseCreate? || v.CloseScale?
    requires Justified(v, s.ongoing, s.store, logs[s.seen])
    ensures var (s', c) := Apply(v, dedupe, s, logs[s.seen]); MatchedState(logs, s', cs + Emitted(c))
  {
    var r := if v.CloseCreate? then EndedCreate(s.ongoing[v.i], logs[s.seen]) else Ended(s.ongoing[v.i], logs[s.seen]);
    ClosedFits(v, logs, s);
    FoundKeeps(logs, s, cs, v.i, if v.CloseCreate? then CreateAction else ScaleAction, r);
  }

  /** A scale that starts while one of the same object is in progress ends that one. */
  lemma SupersedeKeeps(logs: seq<Log>, n: nat, pending: seq<Record>, at: seq<nat>, cs: seq<Closed>,
                       i: nat, r: Record, newest: Record)
    requires Matched(logs, n, pending, at, cs) && n < |logs| && i < |pending|
    requires pending[i].action.ScaleAction? && SameKey(newest, pending[i]) && OpenedBy(newest, logs[n])
    requires r == Ended(pending[i], logs[n]).(unfinished := true)
    ensures Matched(logs, n + 1, Without(pending, i) + [newest], Without(at, i) + [n], cs + [Closed(r, at[i], n)])
  {
    CloseKeeps(logs, n, pending, at, cs, i, r);
    WithoutAt(pending, i);
    WithoutAt(at, i);
    OpenKeeps(logs, n, Without(pending, i), Without(at, i), cs + [Closed(r, at[i], n)], newest);
  }

  /** What the replay does when a scale starts. */
  lemma AppliedScale(dedupe: bool, s: State, log: Log, i: int)
    requires Valid(s) && OldValue(log, s.store).Some? && i == Superseded(s.ongoing, log)
    ensures var (s', c) := Apply(OpenScale, dedupe, s, log);
            && s'.seen == s.seen + 1
            && (i < 0 ==>
                  s'.ongoing == s.ongoing + [NewScale(log, s.store)] && s'.openedAt == s.openedAt + [s.seen] && c == None)
            && (i >= 0 ==>
                  && s'.ongoing == Without(s.ongoing, i) + [NewScale(log, s.store)]
                  && s'.openedAt == Without(s.openedAt, i) + [s.seen]
                  && c == Some(Closed(Ended(s.ongoing[i], log).(unfinished := true), s.openedAt[i], s.seen)))
  {
  }

  lemma FirstScaleKeeps(logs: seq<Log>, s: State, cs: seq<Closed>)
    requires MatchedState(logs, s, cs) && s.seen < |logs|
    requires IsScaleStart(logs[s.seen], s.store, s.ongoing) && Superseded(s.ongoing, logs[s.seen]) < 0
    ensures Matched(logs, s.seen + 1, s.ongoing + [NewScale(logs[s.seen], s.store)], s.openedAt + [s.seen], cs)
  {
    FindIsLastMatch(logs, s.seen, s.ongoing, s.openedAt, ScaleAction, IdOf(logs[s.seen]));
    NextKeeps(logs, s, cs);
    OpenKeeps(logs, s.seen, s.ongoing, s.openedAt, cs, NewScale(logs[s.seen], s.store));
  }

  lemma NextScaleKeeps(logs: seq<Log>, s: State, cs: seq<Closed>, i: nat)
    requires MatchedState(logs, s, cs) && s.seen < |logs|
    requires IsScaleStart(logs[s.seen], s.store, s.ongoing) && Superseded(s.ongoing, logs[s.seen]) == i
    ensures var r := Ended(s.ongoing[i], logs[s.seen]).(unfinished := true);
            Matched(logs, s.seen + 1, Without(s.ongoing, i) + [NewScale(logs[s.seen], s.store)],
                    Without(s.openedAt, i) + [s.seen], cs + [Closed(r, s.openedAt[i], s.seen)])
  {
    var r := Ended(s.ongoing[i], logs[s.seen]).(unfinished := true);
    SupersedeKeeps(logs, s.seen, s.ongoing, s.openedAt, cs, i, r, NewScale(logs[s.seen], s.store));
  }

  lemma OpenScaleKeeps(dedupe: bool, logs: seq<Log>, s: State, cs: seq<Closed>)
    requires MatchedState(logs, s, cs) && s.seen < |logs|
    requires IsScaleStart(logs[s.seen], s.store, s.ongoing)
    ensures var (s', c) := Apply(OpenScale, dedupe, s, logs[s.seen]); MatchedState(logs, s', cs + Emitted(c))
  {
    var i := Superseded(s.ongoing, logs[s.seen]);
    AppliedScale(dedupe, s, logs[s.seen], i);
    assert cs + [] == cs;
    if i < 0 {
      FirstScaleKeeps(logs, s, cs);
    } else {
      NextScaleKeeps(logs, s, cs, i);
    }
  }

  lemma OpenCreateKeeps(dedupe: bool, logs: seq<Log>, s: State, cs: seq<Closed>)
    requires MatchedState(logs, s, cs) && s.seen < |logs| && IsCreateStart(logs[s.seen])
    ensures var (s', c) := Apply(OpenCreate, dedupe, s, logs[s.seen]); MatchedState(logs, s', cs + Emitted(c))
  {
    NextKeeps(logs, s, cs);
    OpenKeeps(logs, s.seen, s.ongoing, s.openedAt, cs, NewRecord(CreateAction, logs[s.seen]));
    assert cs + [] == cs;
  }

  lemma AttachKeeps(logs: seq<Log>, s: State, cs: seq<Closed>)
    requires MatchedState(logs, s, cs) && s.seen < |logs|
    ensures Matched(logs, s.seen + 1, Attached(logs[s.seen], s.ongoing), s.openedAt, cs)
  {
    var log := logs[s.seen];
    var i := PodIndex(log.involvedName, log.involvedNamespace, s.ongoing);
    if i < 0 {
      NextKeeps(logs, s, cs);
    } else {
      NoteKeeps(logs, s.seen, s.ongoing, s.openedAt, cs, i, Attached(log, s.ongoing)[i]);
    }
  }

  lemma ContainerKeeps(logs: seq<Log>, s: State, cs: seq<Closed>)
    requires MatchedState(logs, s, cs) && s.seen < |logs|
    ensures Matched(logs, s.seen + 1, ContainerCreating(logs[s.seen], s.ongoing), s.openedAt, cs)
  {
    var log := logs[s.seen];
    var i := PodIndex(log.name, log.namespace, s.ongoing);
    if i < 0 {
      NextKeeps(logs, s, cs);
    } else {
      NoteKeeps(logs, s.seen, s.ongoing, s.openedAt, cs, i, ContainerCreating(log, s.ongoing)[i]);
    }
  }

  lemma AttachStepKeeps(dedupe: bool, logs: seq<Log>, s: State, cs: seq<Closed>)
    requires MatchedState(logs, s, cs) && s.seen < |logs|
    ensures var (s', c) := Apply(Attach, dedupe, s, logs[s.seen]); MatchedState(logs, s', cs + Emitted(c))
  {
    var (s', c) := Apply(Attach, dedupe, s, logs[s.seen]);
    assert cs + Emitted(c) == cs && s'.ongoing == Attached(logs[s.seen], s.ongoing);
    AttachKeeps(logs, s, cs);
  }

  lemma ContainerStepKeeps(dedupe: bool, logs: seq<Log>, s: State, cs: seq<Closed>)
    requires MatchedState(logs, s, cs) && s.seen < |logs|
    ensures var (s', c) := Apply(Container, dedupe, s, logs[s.seen]); MatchedState(logs, s', cs + Emitted(c))
  {
    var (s', c) := Apply(Container, dedupe, s, logs[s.seen]);
    assert cs + Emitted(c) == cs && s'.ongoing == ContainerCreating(logs[s.seen], s.ongoing);
    ContainerKeeps(logs, s, cs);
  }

  lemma IdleStepKeeps(v: Verdict, dedupe: bool, logs: seq<Log>, s: State, cs: seq<Closed>)
    requires MatchedState(logs, s, cs) && s.seen < |logs|
    requires v.Save? || v.Ignore? || v.Panic?
    ensures var (s', c) := Apply(v, dedupe, s, logs[s.seen]); MatchedState(logs, s', cs + Emitted(c))
  {
    var (s', c) := Apply(v, dedupe, s, logs[s.seen]);
    assert cs + Emitted(c) == cs && s'.ongoing == s.ongoing && s'.openedAt == s.openedAt;
    NextKeeps(logs, s, cs);
  }

  lemma ApplyKeeps(v: Verdict, dedupe: bool, logs: seq<Log>, s: State, cs: seq<Closed>)
    requires MatchedState(logs, s, cs) && s.seen < |logs|
    requires Justified(v, s.ongoing, s.store, logs[s.seen])
    ensures var (s', c) := Apply(v, dedupe, s, logs[s.seen]); MatchedState(logs, s', cs + Emitted(c))
  {
    match v
    case OpenCreate => OpenCreateKeeps(dedupe, logs, s, cs);
    case OpenScale => OpenScaleKeeps(dedupe, logs, s, cs);
    case CloseCreate(_) => CloseStepKeeps(v, dedupe, logs, s, cs);
    case CloseScale(_) => CloseStepKeeps(v, dedupe, logs, s, cs);
    case Attach => AttachStepKeeps(dedupe, logs, s, cs);
    case Container => ContainerStepKeeps(dedupe, logs, s, cs);
    case _ => IdleStepKeeps(v, dedupe, logs, s, cs);
  }

  lemma StepKeeps(flags: Flags, dedupe: bool, logs: seq<Log>, s: State, cs: seq<Closed>)
    requires MatchedState(logs, s, cs) && s.seen < |logs|
    ensures var (s', c) := Step(flags, dedupe, s, logs[s.seen]); MatchedState(logs, s', cs + Emitted(c))
  {
    ApplyKeeps(Judge(flags, s.ongoing, s.store, logs[s.seen]), dedupe, logs, s, cs);
  }

  /** Declarative matching, after every prefix of every log. */
  lemma {:induction false} EveryPrefixMatched(flags: Flags, dedupe: bool, logs: seq<Log>, n: nat)
    requires n <= |logs|
    ensures var (s, cs) := Run(flags, dedupe, logs[..n]); MatchedState(logs, s, cs)
  {
    if n > 0 {
      EveryPrefixMatched(flags, dedupe, logs, n - 1);
      assert logs[..n][..n - 1] == logs[..n - 1];
      var (s, cs) := Run(flags, dedupe, logs[..n - 1]);
      StepKeeps(flags, dedupe, logs, s, cs);
    }
  }

  // ----- and it is complete -----

  function VerdictAt(flags: Flags, dedupe: bool, logs: seq<Log>, k: nat): Verdict
    requires k < |logs|
  {
    var s := Run(flags, dedupe, logs[..k]).0;
    Judge(flags, s.ongoing, s.store, logs[k])
  }

  /** Entry k opens a record. */
  predicate Opens(flags: Flags, dedupe: bool, logs: seq<Log>, k: nat)
    requires k < |logs|
  {
    Accepts(VerdictAt(flags, dedupe, logs, k), dedupe, Run(flags, dedupe, logs[..k]).0.ongoing, logs[k])
  }

  /** An entry with this verdict closes a record. */
  predicate Ends(v: Verdict, ongoing: seq<Record>, log: Log) {
    v.CloseCreate? || v.CloseScale? || (v.OpenScale? && Superseded(ongoing, log) >= 0)
  }

  /** Entry k closes a record. */
  predicate Closes(flags: Flags, dedupe: bool, logs: seq<Log>, k: nat)
    requires k < |logs|
  {
    Ends(VerdictAt(flags, dedupe, logs, k), Run(flags, dedupe, logs[..k]).0.ongoing, logs[k])
  }

  ghost predicate OpenedIn(s: State, cs: seq<Closed>, k: nat) {
    k in s.openedAt || exists c :: c in cs && c.openedBy == k
  }

  ghost predicate ClosedIn(cs: seq<Closed>, k: nat) {
    exists c :: c in cs && c.closedBy == k
  }

  lemma WithoutMembers<T>(xs: seq<T>, i: nat, x: T)
    requires i < |xs|
    ensures x in xs <==> x in Without(xs, i) || x == xs[i]
  {
    assert xs == xs[..i] + [xs[i]] + xs[i + 1..];
  }

  /** The record an entry with this verdict closes, if it closes one. */
  function EndedIndex(v: Verdict, ongoing: seq<Record>, log: Log): int {
    match v
    case CloseCreate(i) => i
    case CloseScale(i) => i
    case _ => Superseded(ongoing, log)
  }

  lemma AppliedHistory(v: Verdict, dedupe: bool, s: State, log: Log)
    requires Valid(s) && Justified(v, s.ongoing, s.store, log)
    ensures var (s', c) := Apply(v, dedupe, s, log);
            var i := EndedIndex(v, s.ongoing, log);
            && (c.Some? ==> 0 <= i < |s.openedAt| && c.value.openedBy == s.openedAt[i])
            && s'.openedAt == (if c.Some? then Without(s.openedAt, i) else s.openedAt) +
                              (if Accepts(v, dedupe, s.ongoing, log) then [s.seen] else [])
  {
  }

  lemma OpenedMoves(at: seq<nat>, i: nat, cs: seq<Closed>, c: Closed, k: nat)
    requires i < |at| && c.openedBy == at[i]
    ensures (k in Without(at, i) || exists d :: d in cs + [c] && d.openedBy == k) <==>
            (k in at || exists d :: d in cs && d.openedBy == k)
  {
    WithoutMembers(at, i, k);
    assert forall d :: d in cs + [c] <==> d in cs || d == c;
  }

  lemma ApplyOpens(v: Verdict, dedupe: bool, s: State, log: Log, cs: seq<Closed>, k: nat)
    requires Valid(s) && Justified(v, s.ongoing, s.store, log)
    ensures var (s', c) := Apply(v, dedupe, s, log);
            OpenedIn(s', cs + Emitted(c), k) <==>
              OpenedIn(s, cs, k) || (k == s.seen && Accepts(v, dedupe, s.ongoing, log))
  {
    var c := Apply(v, dedupe, s, log).1;
    AppliedHistory(v, dedupe, s, log);
    assert cs + [] == cs;
    if c.Some? {
      OpenedMoves(s.openedAt, EndedIndex(v, s.ongoing, log), cs, c.value, k);
    }
  }

  lemma ApplyCloses(v: Verdict, dedupe: bool, s: State, log: Log, cs: seq<Closed>, k: nat)
    requires Valid(s) && Justified(v, s.ongoing, s.store, log)
    ensures var (s', c) := Apply(v, dedupe, s, log);
            ClosedIn(cs + Emitted(c), k) <==> ClosedIn(cs, k) || (k == s.seen && Ends(v, s.ongoing, log))
  {
    var (s', c) := Apply(v, dedupe, s, log);
    var cs' := cs + Emitted(c);
    assert forall x :: x in cs' <==> x in cs || x in Emitted(c);
    if c.Some? {
      assert c.value in cs' && c.value.closedBy == s.seen;
    }
  }

  lemma NotYet(logs: seq<Log>, s: State, cs: seq<Closed>, k: nat)
    requires MatchedState(logs, s, cs) && s.seen <= k
    ensures !OpenedIn(s, cs, k) && !ClosedIn(cs, k)
  {
  }

  /** Every entry that is accepted as a start opens exactly one record, which is still
      in progress or closed; every entry that ends something closes exactly one; and
      no other records exist. */
  lemma {:induction false} EveryStartAccountedFor(flags: Flags, dedupe: bool, logs: seq<Log>, n: nat, k: nat)
    requires k < n <= |logs|
    ensures var (s, cs) := Run(flags, dedupe, logs[..n]);
            && (OpenedIn(s, cs, k) <==> Opens(flags, dedupe, logs, k))
            && (ClosedIn(cs, k) <==> Closes(flags, dedupe, logs, k))
    decreases n
  {
    assert logs[..n][..n - 1] == logs[..n - 1];
    var (s, cs) := Run(flags, dedupe, logs[..n - 1]);
    var v := Judge(flags, s.ongoing, s.store, logs[n - 1]);
    ApplyOpens(v, dedupe, s, logs[n - 1], cs, k);
    ApplyCloses(v, dedupe, s, logs[n - 1], cs, k);
    if k < n - 1 {
      EveryStartAccountedFor(flags, dedupe, logs, n - 1, k);
    } else {
      EveryPrefixMatched(flags, dedupe, logs, n - 1);
      NotYet(logs, s, cs, k);
    }
  }

  /** The number of entries among the first n that are accepted as starts. */
  function AcceptedStarts(flags: Flags, dedupe: bool, logs: seq<Log>, n: nat): nat
    requires n <= |logs|
  {
    if n == 0 then 0
    else AcceptedStarts(flags, dedupe, logs, n - 1) + if Opens(flags, dedupe, logs, n - 1) then 1 else 0
  }

  lemma ApplyBalances(v: Verdict, dedupe: bool, s: State, log: Log)
    requires Valid(s) && Justified(v, s.ongoing, s.store, log)
    ensures var (s', c) := Apply(v, dedupe, s, log);
            |s'.ongoing| + |Emitted(c)| == |s.ongoing| + if Accepts(v, dedupe, s.ongoing, log) then 1 else 0
  {
  }

  /** After every prefix, accepted starts equal records in progress plus closed ones. */
  lemma {:induction false} StartsBalance(flags: Flags, dedupe: bool, logs: seq<Log>, n: nat)
    requires n <= |logs|
    ensures var (s, cs) := Run(flags, dedupe, logs[..n]);
            AcceptedStarts(flags, dedupe, logs, n) == |s.ongoing| + |cs|
  {
    if n > 0 {
      StartsBalance(flags, dedupe, logs, n - 1);
      assert logs[..n][..n - 1] == logs[..n - 1];
      var s := Run(flags, dedupe, logs[..n - 1]).0;
      ApplyBalances(Judge(flags, s.ongoing, s.store, logs[n - 1]), dedupe, s, logs[n - 1]);
    }
  }
}
