/** Exactly when refusing creations makes no difference: the streaming replay against the
    batch replay of the same log, whatever the flags. */
module Suppression {
  import opened Wrappers
  import opened AuditLog
  import opened Replay
  import opened Matching

  /** The streaming parser refuses the creation that entry k would open. */
  predicate Refuses(flags: Flags, logs: seq<Log>, k: nat)
    requires k < |logs|
  {
    VerdictAt(flags, true, logs, k).OpenCreate? && !Opens(flags, true, logs, k)
  }

  function Refused(flags: Flags, logs: seq<Log>): set<nat> {
    set k: nat | k < |logs| && Refuses(flags, logs, k)
  }

  // ----- the streaming records mirror the batch records -----

  type Key = (Action, ObjId)

  function KeyOf(r: Record): Key {
    (r.action, r.id)
  }

  /** Two records that differ at most in what pods and claims note on them. */
  predicate Alike(a: Record, b: Record) {
    a.(attachTime := None, containerTime := None, pvName := None) == b.(attachTime := None, containerTime := None, pvName := None)
  }

  /** The streaming records are the batch records but for the refused ones.  A record
      differs at most in its notes, and then a refused creation of the same object came
      after it; `shade` are the keys of refused creations after the end. */
  ghost predicate Mirrors(bs: seq<Record>, bat: seq<nat>, ss: seq<Record>, sat: seq<nat>, refused: set<nat>, shade: set<Key>)
    decreases |bs|
  {
    |bs| == |bat| && |ss| == |sat| &&
    if bs == [] then ss == []
    else
      var n, m := |bs| - 1, |ss| - 1;
      if bat[n] in refused then
        bs[n].action.CreateAction? && Mirrors(bs[..n], bat[..n], ss, sat, refused, shade + {KeyOf(bs[n])})
      else
        && ss != [] && sat[m] == bat[n]
        && (bs[n] == ss[m] || (Alike(bs[n], ss[m]) && KeyOf(bs[n]) in shade))
        && Mirrors(bs[..n], bat[..n], ss[..m], sat[..m], refused, shade)
  }

  /** How many of the first i batch records were not refused. */
  function Kept(bat: seq<nat>, refused: set<nat>, i: nat): nat
    requires i <= |bat|
  {
    if i == 0 then 0 else Kept(bat, refused, i - 1) + if bat[i - 1] in refused then 0 else 1
  }

  lemma {:induction false} KeptPrefix(bat: seq<nat>, refused: set<nat>, i: nat, n: nat)
    requires i <= n <= |bat|
    ensures Kept(bat[..n], refused, i) == Kept(bat, refused, i)
  {
    if i > 0 {
      KeptPrefix(bat, refused, i - 1, n);
    }
  }

  lemma {:induction false} MirrorsLength(bs: seq<Record>, bat: seq<nat>, ss: seq<Record>, sat: seq<nat>, refused: set<nat>, shade: set<Key>)
    requires Mirrors(bs, bat, ss, sat, refused, shade)
    ensures |ss| == Kept(bat, refused, |bat|)
    decreases |bs|
  {
    if bs != [] {
      var n, m := |bs| - 1, |ss| - 1;
      KeptPrefix(bat, refused, n, n);
      if bat[n] in refused {
        MirrorsLength(bs[..n], bat[..n], ss, sat, refused, shade + {KeyOf(bs[n])});
      } else {
        MirrorsLength(bs[..n], bat[..n], ss[..m], sat[..m], refused, shade);
      }
    }
  }

  /** The search finds the same record in both, unless it finds a refused one. */
  lemma {:induction false} FindMirrors(bs: seq<Record>, bat: seq<nat>, ss: seq<Record>, sat: seq<nat>, refused: set<nat>,
                                       shade: set<Key>, action: Action, id: ObjId)
    requires Mirrors(bs, bat, ss, sat, refused, shade) && (action, id) !in shade
    ensures var i, j := LastMatch(action, id, bs), LastMatch(action, id, ss);
            && (i < 0 ==> j < 0)
            && (i >= 0 && bat[i] in refused ==> action.CreateAction?)
            && (i >= 0 && bat[i] !in refused ==> j >= 0 && sat[j] == bat[i] && ss[j] == bs[i] && j == Kept(bat, refused, i))
    decreases |bs|
  {
    if bs != [] {
      var n, m := |bs| - 1, |ss| - 1;
      var i := LastMatch(action, id, bs);
      if bat[n] in refused {
        if i < n {
          FindMirrors(bs[..n], bat[..n], ss, sat, refused, shade + {KeyOf(bs[n])}, action, id);
          if i >= 0 {
            KeptPrefix(bat, refused, i, n);
          }
        }
      } else if i < n {
        FindMirrors(bs[..n], bat[..n], ss[..m], sat[..m], refused, shade, action, id);
        if i >= 0 {
          KeptPrefix(bat, refused, i, n);
        }
      } else {
        MirrorsLength(bs, bat, ss, sat, refused, shade);
      }
    }
  }

  lemma {:induction false} MoreShade(bs: seq<Record>, bat: seq<nat>, ss: seq<Record>, sat: seq<nat>, refused: set<nat>,
                                     shade: set<Key>, more: set<Key>)
    requires Mirrors(bs, bat, ss, sat, refused, shade) && shade <= more
    ensures Mirrors(bs, bat, ss, sat, refused, more)
    decreases |bs|
  {
    if bs != [] {
      var n, m := |bs| - 1, |ss| - 1;
      if bat[n] in refused {
        MoreShade(bs[..n], bat[..n], ss, sat, refused, shade + {KeyOf(bs[n])}, more + {KeyOf(bs[n])});
      } else {
        MoreShade(bs[..n], bat[..n], ss[..m], sat[..m], refused, shade, more);
      }
    }
  }

  /** Removing an earlier element leaves the last one last. */
  lemma WithoutLast<T>(xs: seq<T>, i: nat)
    requires i < |xs| - 1
    ensures |Without(xs, i)| == |xs| - 1
    ensures Without(xs, i)[..|xs| - 2] == Without(xs[..|xs| - 1], i)
    ensures Without(xs, i)[|xs| - 2] == xs[|xs| - 1]
  {
  }

  lemma {:induction false} KeptGrows(bat: seq<nat>, refused: set<nat>, i: nat, n: nat)
    requires i <= n <= |bat|
    ensures Kept(bat, refused, i) <= Kept(bat, refused, n)
    decreases n
  {
    if i < n {
      KeptGrows(bat, refused, i, n - 1);
    }
  }

  /** A record that is not refused is where it should be. */
  lemma KeptInRange(bs: seq<Record>, bat: seq<nat>, ss: seq<Record>, sat: seq<nat>, refused: set<nat>, shade: set<Key>, i: nat)
    requires Mirrors(bs, bat, ss, sat, refused, shade) && i < |bs| && bat[i] !in refused
    ensures Kept(bat, refused, i) < |ss|
    ensures i < |bs| - 1 && bat[|bs| - 1] !in refused ==> Kept(bat, refused, i) < |ss| - 1
  {
    MirrorsLength(bs, bat, ss, sat, refused, shade);
    KeptGrows(bat, refused, i + 1, |bat|);
    if i < |bs| - 1 {
      KeptGrows(bat, refused, i + 1, |bat| - 1);
    }
  }

  lemma {:induction false} RemoveMirrored(bs: seq<Record>, bat: seq<nat>, ss: seq<Record>, sat: seq<nat>, refused: set<nat>,
                                          shade: set<Key>, i: nat)
    requires Mirrors(bs, bat, ss, sat, refused, shade) && i < |bs| && bat[i] !in refused
    ensures Kept(bat, refused, i) < |ss|
    ensures var j := Kept(bat, refused, i);
            Mirrors(Without(bs, i), Without(bat, i), Without(ss, j), Without(sat, j), refused, shade)
    decreases |bs|
  {
    var n, m, j := |bs| - 1, |ss| - 1, Kept(bat, refused, i);
    KeptInRange(bs, bat, ss, sat, refused, shade, i);
    if i == n {
      MirrorsLength(bs, bat, ss, sat, refused, shade);
      assert Without(bs, n) == bs[..n] && Without(bat, n) == bat[..n];
      assert Without(ss, m) == ss[..m] && Without(sat, m) == sat[..m];
    } else {
      KeptPrefix(bat, refused, i, n);
      WithoutLast(bs, i);
      WithoutLast(bat, i);
      if bat[n] in refused {
        RemoveMirrored(bs[..n], bat[..n], ss, sat, refused, shade + {KeyOf(bs[n])}, i);
      } else {
        RemoveMirrored(bs[..n], bat[..n], ss[..m], sat[..m], refused, shade, i);
        WithoutLast(ss, j);
        WithoutLast(sat, j);
      }
    }
  }

  lemma AppendMirrored(bs: seq<Record>, bat: seq<nat>, ss: seq<Record>, sat: seq<nat>, refused: set<nat>, k: nat, r: Record)
    requires Mirrors(bs, bat, ss, sat, refused, {})
    ensures k !in refused ==> Mirrors(bs + [r], bat + [k], ss + [r], sat + [k], refused, {})
    ensures k in refused && r.action.CreateAction? ==> Mirrors(bs + [r], bat + [k], ss, sat, refused, {})
  {
    assert (bs + [r])[..|bs|] == bs && (bat + [k])[..|bat|] == bat;
    assert (ss + [r])[..|ss|] == ss && (sat + [k])[..|sat|] == sat;
    MoreShade(bs, bat, ss, sat, refused, {}, {} + {KeyOf(r)});
  }

  // ----- notes -----

  /** A change of a record's notes. */
  datatype Note = AttachNote(at: int, pvName: string) | ContainerNote(at: int)

  function Noted(r: Record, note: Note): Record {
    match note
    case AttachNote(at, pvName) => r.(attachTime := Some(at), pvName := Some(pvName))
    case ContainerNote(at) => r.(containerTime := Some(at))
  }

  /** The last record of an object gets the note, if there is one. */
  function NoteLast(rs: seq<Record>, id: ObjId, note: Note): seq<Record> {
    var i := LastMatch(CreateAction, id, rs);
    if i < 0 then rs else rs[i := Noted(rs[i], note)]
  }

  lemma NoteLastMore(rs: seq<Record>, id: ObjId, note: Note)
    requires rs != []
    ensures var n := |rs| - 1;
            if KeyOf(rs[n]) == (CreateAction, id) then NoteLast(rs, id, note) == rs[..n] + [Noted(rs[n], note)]
            else NoteLast(rs, id, note)[..n] == NoteLast(rs[..n], id, note) && NoteLast(rs, id, note)[n] == rs[n]
  {
  }

  /** In the shade of a refused creation of the object, only the streaming record is noted. */
  lemma {:induction false} NoteShaded(bs: seq<Record>, bat: seq<nat>, ss: seq<Record>, sat: seq<nat>, refused: set<nat>,
                                      shade: set<Key>, id: ObjId, note: Note)
    requires Mirrors(bs, bat, ss, sat, refused, shade) && (CreateAction, id) in shade
    ensures Mirrors(bs, bat, NoteLast(ss, id, note), sat, refused, shade)
    decreases |bs|
  {
    if bs != [] {
      var n, m := |bs| - 1, |ss| - 1;
      if bat[n] in refused {
        NoteShaded(bs[..n], bat[..n], ss, sat, refused, shade + {KeyOf(bs[n])}, id, note);
      } else {
        NoteLastMore(ss, id, note);
        if KeyOf(ss[m]) == (CreateAction, id) {
          assert NoteLast(ss, id, note)[..m] == ss[..m];
        } else {
          NoteShaded(bs[..n], bat[..n], ss[..m], sat[..m], refused, shade, id, note);
        }
      }
    }
  }

  lemma {:induction false} NoteMirrored(bs: seq<Record>, bat: seq<nat>, ss: seq<Record>, sat: seq<nat>, refused: set<nat>,
                                        shade: set<Key>, id: ObjId, note: Note)
    requires Mirrors(bs, bat, ss, sat, refused, shade)
    ensures Mirrors(NoteLast(bs, id, note), bat, NoteLast(ss, id, note), sat, refused, shade)
    decreases |bs|
  {
    if bs != [] {
      var n, m := |bs| - 1, |ss| - 1;
      NoteLastMore(bs, id, note);
      var bs' := NoteLast(bs, id, note);
      if bat[n] in refused {
        if KeyOf(bs[n]) == (CreateAction, id) {
          assert bs'[..n] == bs[..n] && KeyOf(bs'[n]) == KeyOf(bs[n]);
          NoteShaded(bs[..n], bat[..n], ss, sat, refused, shade + {KeyOf(bs[n])}, id, note);
        } else {
          NoteMirrored(bs[..n], bat[..n], ss, sat, refused, shade + {KeyOf(bs[n])}, id, note);
        }
      } else {
        NoteLastMore(ss, id, note);
        var ss' := NoteLast(ss, id, note);
        if KeyOf(bs[n]) == (CreateAction, id) {
          assert bs'[..n] == bs[..n] && ss'[..m] == ss[..m];
        } else {
          NoteMirrored(bs[..n], bat[..n], ss[..m], sat[..m], refused, shade, id, note);
        }
      }
    }
  }

  // ----- one entry -----

  /** Nothing in progress has ended. */
  ghost predicate Unended(rs: seq<Record>) {
    forall i :: 0 <= i < |rs| ==> rs[i].endTime.None?
  }

  ghost predicate InStep(b: State, s: State, refused: set<nat>) {
    Mirrors(b.ongoing, b.openedAt, s.ongoing, s.openedAt, refused, {}) && b.seen == s.seen && b.store == s.store
  }

  /** What streaming makes of a verdict of the batch parser. */
  function Translated(v: Verdict, b: State, refused: set<nat>): Verdict
    requires Valid(b)
    requires match v case CloseCreate(i) => i < |b.ongoing| case CloseScale(i) => i < |b.ongoing| case _ => true
  {
    match v
    case CloseCreate(i) => CloseCreate(Kept(b.openedAt, refused, i))
    case CloseScale(i) => CloseScale(Kept(b.openedAt, refused, i))
    case _ => v
  }

  /** No refused creation is what the verdict closes. */
  ghost predicate ClosesNoRefused(v: Verdict, b: State, refused: set<nat>)
    requires Valid(b)
  {
    v.CloseCreate? && v.i < |b.ongoing| ==> b.openedAt[v.i] !in refused
  }

  lemma FindInStep(b: State, s: State, refused: set<nat>, action: Action, id: ObjId)
    requires InStep(b, s, refused) && Unended(b.ongoing) && Unended(s.ongoing)
    ensures var i, j := FindOpen(action, id, b.ongoing), FindOpen(action, id, s.ongoing);
            && (i < 0 ==> j < 0)
            && (i >= 0 && b.openedAt[i] in refused ==> action.CreateAction?)
            && (i >= 0 && b.openedAt[i] !in refused ==>
                  j >= 0 && s.openedAt[j] == b.openedAt[i] && s.ongoing[j] == b.ongoing[i] && j == Kept(b.openedAt, refused, i))
  {
    FindMirrors(b.ongoing, b.openedAt, s.ongoing, s.openedAt, refused, {}, action, id);
  }

  lemma CreateInStep(b: State, s: State, refused: set<nat>, log: Log)
    requires InStep(b, s, refused) && Unended(b.ongoing) && Unended(s.ongoing)
    requires ClosesNoRefused(CreateVerdict(b.ongoing, log), b, refused)
    ensures CreateVerdict(s.ongoing, log) == Translated(CreateVerdict(b.ongoing, log), b, refused)
  {
    FindInStep(b, s, refused, CreateAction, IdOf(log));
  }

  lemma ScaleInStep(b: State, s: State, refused: set<nat>, log: Log)
    requires InStep(b, s, refused) && Unended(b.ongoing) && Unended(s.ongoing)
    ensures ScaleVerdict(s.ongoing, s.store, log) == Translated(ScaleVerdict(b.ongoing, b.store, log), b, refused)
  {
    FindInStep(b, s, refused, ScaleAction, IdOf(log));
  }

  /** As long as no refused creation is closed, both parsers judge an entry alike. */
  lemma VerdictInStep(flags: Flags, b: State, s: State, refused: set<nat>, log: Log)
    requires InStep(b, s, refused) && Unended(b.ongoing) && Unended(s.ongoing)
    requires ClosesNoRefused(Judge(flags, b.ongoing, b.store, log), b, refused)
    ensures Judge(flags, s.ongoing, s.store, log) == Translated(Judge(flags, b.ongoing, b.store, log), b, refused)
  {
    if log.responseComplete {
      if flags.create {
        CreateInStep(b, s, refused, log);
      }
      ScaleInStep(b, s, refused, log);
    }
  }

  lemma CloseInStep(v: Verdict, b: State, s: State, refused: set<nat>, log: Log)
    requires InStep(b, s, refused) && Unended(b.ongoing) && Unended(s.ongoing)
    requires Justified(v, b.ongoing, b.store, log) && (v.CloseCreate? || v.CloseScale?) && ClosesNoRefused(v, b, refused)
    ensures Kept(b.openedAt, refused, v.i) < |s.ongoing|
    ensures var (b', cb) := Apply(v, false, b, log);
            var (s', cs) := Apply(Translated(v, b, refused), true, s, log);
            InStep(b', s', refused) && cb == cs
  {
    FindInStep(b, s, refused, if v.CloseCreate? then CreateAction else ScaleAction, IdOf(log));
    RemoveMirrored(b.ongoing, b.openedAt, s.ongoing, s.openedAt, refused, {}, v.i);
  }

  lemma OpenScaleInStep(b: State, s: State, refused: set<nat>, log: Log)
    requires InStep(b, s, refused) && Unended(b.ongoing) && Unended(s.ongoing)
    requires IsScaleStart(log, b.store, b.ongoing) && b.seen !in refused
    ensures OldValue(log, s.store).Some?
    ensures var (b', cb) := Apply(OpenScale, false, b, log);
            var (s', cs) := Apply(OpenScale, true, s, log);
            InStep(b', s', refused) && cb == cs
  {
    FindInStep(b, s, refused, ScaleAction, IdOf(log));
    var i, j := Superseded(b.ongoing, log), Superseded(s.ongoing, log);
    AppliedScale(false, b, log, i);
    AppliedScale(true, s, log, j);
    var r := NewScale(log, b.store);
    if i < 0 {
      AppendMirrored(b.ongoing, b.openedAt, s.ongoing, s.openedAt, refused, b.seen, r);
    } else {
      RemoveMirrored(b.ongoing, b.openedAt, s.ongoing, s.openedAt, refused, {}, i);
      AppendMirrored(Without(b.ongoing, i), Without(b.openedAt, i), Without(s.ongoing, j), Without(s.openedAt, j), refused, b.seen, r);
    }
  }

  lemma OpenCreateInStep(b: State, s: State, refused: set<nat>, log: Log)
    requires InStep(b, s, refused) && (b.seen in refused <==> Suppressed(s.ongoing, log))
    ensures var (b', cb) := Apply(OpenCreate, false, b, log);
            var (s', cs) := Apply(OpenCreate, true, s, log);
            InStep(b', s', refused) && cb == cs
  {
    AppendMirrored(b.ongoing, b.openedAt, s.ongoing, s.openedAt, refused, b.seen, NewRecord(CreateAction, log));
  }

  lemma NoteInStep(v: Verdict, b: State, s: State, refused: set<nat>, log: Log)
    requires InStep(b, s, refused) && Unended(b.ongoing) && Unended(s.ongoing)
    requires v.Attach? || v.Container?
    ensures var (b', cb) := Apply(v, false, b, log);
            var (s', cs) := Apply(v, true, s, log);
            InStep(b', s', refused) && cb == cs
  {
    if v.Attach? {
      var id, note := ObjId(log.involvedName, Pods, log.involvedNamespace), AttachNote(log.stageTime, Quoted(log.message));
      NoteMirrored(b.ongoing, b.openedAt, s.ongoing, s.openedAt, refused, {}, id, note);
      assert Attached(log, b.ongoing) == NoteLast(b.ongoing, id, note) && Attached(log, s.ongoing) == NoteLast(s.ongoing, id, note);
    } else {
      var id, note := ObjId(log.name, Pods, log.namespace), ContainerNote(log.stageTime);
      NoteMirrored(b.ongoing, b.openedAt, s.ongoing, s.openedAt, refused, {}, id, note);
      assert ContainerCreating(log, b.ongoing) == NoteLast(b.ongoing, id, note);
      assert ContainerCreating(log, s.ongoing) == NoteLast(s.ongoing, id, note);
    }
  }

  /** One entry keeps the replays in step, and closes the same record in both. */
  lemma StepInStep(flags: Flags, b: State, s: State, refused: set<nat>, log: Log)
    requires InStep(b, s, refused) && Unended(b.ongoing) && Unended(s.ongoing)
    requires ClosesNoRefused(Judge(flags, b.ongoing, b.store, log), b, refused)
    requires b.seen in refused <==> Judge(flags, s.ongoing, s.store, log).OpenCreate? && Suppressed(s.ongoing, log)
    ensures var (b', cb) := Step(flags, false, b, log);
            var (s', cs) := Step(flags, true, s, log);
            InStep(b', s', refused) && cb == cs
  {
    VerdictInStep(flags, b, s, refused, log);
    var v := Judge(flags, b.ongoing, b.store, log);
    match v
    case OpenCreate => OpenCreateInStep(b, s, refused, log);
    case OpenScale => OpenScaleInStep(b, s, refused, log);
    case CloseCreate(_) => CloseInStep(v, b, s, refused, log);
    case CloseScale(_) => CloseInStep(v, b, s, refused, log);
    case Attach => NoteInStep(v, b, s, refused, log);
    case Container => NoteInStep(v, b, s, refused, log);
    case _ =>
  }

  // ----- whole logs -----

  lemma {:induction false} ClosedPrefix(flags: Flags, dedupe: bool, logs: seq<Log>, n: nat)
    requires n <= |logs|
    ensures Run(flags, dedupe, logs[..n]).1 <= Run(flags, dedupe, logs).1
    decreases |logs|
  {
    if n == |logs| {
      assert logs[..n] == logs;
    } else {
      var init := logs[..|logs| - 1];
      assert init[..n] == logs[..n];
      ClosedPrefix(flags, dedupe, init, n);
    }
  }

  lemma UnendedAt(flags: Flags, dedupe: bool, logs: seq<Log>, n: nat)
    requires n <= |logs|
    ensures Unended(Run(flags, dedupe, logs[..n]).0.ongoing)
  {
    EveryPrefixMatched(flags, dedupe, logs, n);
  }

  /** The batch parser closes no creation that the streaming parser refuses. */
  ghost predicate RefusalsStayOpen(flags: Flags, logs: seq<Log>) {
    forall c :: c in Run(flags, false, logs).1 ==> c.openedBy !in Refused(flags, logs)
  }

  /** What the batch parser closes at entry n has not been refused. */
  lemma NextClosesNoRefused(flags: Flags, logs: seq<Log>, n: nat)
    requires n < |logs| && RefusalsStayOpen(flags, logs)
    ensures var b := Run(flags, false, logs[..n]).0;
            ClosesNoRefused(Judge(flags, b.ongoing, b.store, logs[n]), b, Refused(flags, logs))
  {
    var before := Run(flags, false, logs[..n]);
    var b, v := before.0, Judge(flags, before.0.ongoing, before.0.store, logs[n]);
    if v.CloseCreate? {
      assert logs[..n + 1][..n] == logs[..n];
      var after := Run(flags, false, logs[..n + 1]).1;
      var c := Apply(v, false, b, logs[n]).1.value;
      assert after == before.1 + [c];
      ClosedPrefix(flags, false, logs, n + 1);
      assert after[|before.1|] == c && c in after && c in Run(flags, false, logs).1;
    }
  }

  /** Then both replays stay in step, entry by entry. */
  lemma {:induction false} StayInStep(flags: Flags, logs: seq<Log>, n: nat)
    requires n <= |logs| && RefusalsStayOpen(flags, logs)
    ensures var (b, cb) := Run(flags, false, logs[..n]);
            var (s, cs) := Run(flags, true, logs[..n]);
            InStep(b, s, Refused(flags, logs)) && cb == cs
  {
    if n > 0 {
      StayInStep(flags, logs, n - 1);
      assert logs[..n][..n - 1] == logs[..n - 1];
      UnendedAt(flags, false, logs, n - 1);
      UnendedAt(flags, true, logs, n - 1);
      NextClosesNoRefused(flags, logs, n - 1);
      var b, s := Run(flags, false, logs[..n - 1]).0, Run(flags, true, logs[..n - 1]).0;
      assert n - 1 in Refused(flags, logs) <==> Refuses(flags, logs, n - 1);
      StepInStep(flags, b, s, Refused(flags, logs), logs[n - 1]);
    }
  }

  /** Exactly when refusing creations makes no difference: whatever the flags and the log,
      both parsers close the same records, opened and closed by the same entries, if and
      only if the batch parser closes none of the creations that streaming refuses. */
  lemma SameClosedIff(flags: Flags, logs: seq<Log>)
    ensures Run(flags, true, logs).1 == Run(flags, false, logs).1 <==> RefusalsStayOpen(flags, logs)
  {
    assert logs[..|logs|] == logs;
    if RefusalsStayOpen(flags, logs) {
      StayInStep(flags, logs, |logs|);
    }
    if Run(flags, true, logs).1 == Run(flags, false, logs).1 {
      forall c | c in Run(flags, false, logs).1
        ensures c.openedBy !in Refused(flags, logs)
      {
        EveryPrefixMatched(flags, false, logs, |logs|);
        EveryStartAccountedFor(flags, true, logs, |logs|, c.openedBy);
        assert OpenedIn(Run(flags, true, logs).0, Run(flags, true, logs).1, c.openedBy);
      }
    }
  }

  /** And then they panic at the same entries. */
  lemma SamePanics(flags: Flags, logs: seq<Log>, k: nat)
    requires k < |logs| && RefusalsStayOpen(flags, logs)
    ensures VerdictAt(flags, true, logs, k).Panic? <==> VerdictAt(flags, false, logs, k).Panic?
  {
    StayInStep(flags, logs, k);
    UnendedAt(flags, false, logs, k);
    UnendedAt(flags, true, logs, k);
    NextClosesNoRefused(flags, logs, k);
    var b, s := Run(flags, false, logs[..k]).0, Run(flags, true, logs[..k]).0;
    VerdictInStep(flags, b, s, Refused(flags, logs), logs[k]);
  }
}
