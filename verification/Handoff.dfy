/** Turning points without the timing assumption: exactly which rates can deadlock when
    they stop a timer to switch to the other one. */
module Handoff {
  import opened TriangleWave
  import opened RateMachine
  import opened RateStops

  /** There is a run from s to t, under any scheduling. */
  ghost predicate Leads(s: Rate, t: Rate) {
    exists acts :: Legal(s, acts, false) && After(s, acts) == t
  }

  lemma LeadsToItself(s: Rate)
    ensures Leads(s, s)
  {
    assert Legal(s, [], false) && After(s, []) == s;
  }

  lemma LeadsOn(s: Rate, t: Rate, a: Act)
    requires Leads(s, t) && Enabled(t, a)
    ensures Leads(s, Do(t, a))
  {
    var acts :| Legal(s, acts, false) && After(s, acts) == t;
    Extend(s, acts, a, false);
    assert Legal(s, acts + [a], false) && After(s, acts + [a]) == Do(t, a);
  }

  lemma LeadsKeepsInv(spec: Spec, t: Rate)
    requires Leads(Launch(spec), t)
    ensures Inv(t) && t.spec == spec
  {
    var acts :| Legal(Launch(spec), acts, false) && After(Launch(spec), acts) == t;
    InvLaunch(spec);
    EveryRunKeepsInv(Launch(spec), acts);
  }

  // ----- getting there -----

  /** A timer that polls can count up to its interval while the rate is not blocked. */
  lemma {:induction false} CountUp(s: Rate, t: Rate, i: nat, k: nat)
    requires Leads(s, t) && TimerAt(t, i, AtSelect) && !Parked(t) && t.timers[i].count + k <= t.timers[i].interval
    ensures Leads(s, Move(t, i, AtSelect, t.timers[i].count + k))
    decreases k
  {
    if k == 0 {
      assert Move(t, i, AtSelect, t.timers[i].count) == t;
    } else {
      LeadsOn(s, t, Pass(i));
      var t1 := Do(t, Pass(i));
      LeadsOn(s, t1, Check(i));
      var t2 := Do(t1, Check(i));
      LeadsOn(s, t2, Wake(i));
      var t3 := Do(t2, Wake(i));
      assert t3 == Move(t, i, AtSelect, t.timers[i].count + 1);
      CountUp(s, t3, i, k - 1);
      assert Move(t3, i, AtSelect, t3.timers[i].count + (k - 1)) == Move(t, i, AtSelect, t.timers[i].count + k);
    }
  }

  /** From a poll to the moment at which the timer is blocked on its tick. */
  lemma ToSending(s: Rate, t: Rate, i: nat)
    requires Leads(s, t) && TimerAt(t, i, AtSelect) && !Parked(t) && 0 <= t.timers[i].count <= t.timers[i].interval
    ensures Leads(s, Move(t, i, Sending, 0))
  {
    var n := t.timers[i].interval;
    CountUp(s, t, i, n - t.timers[i].count);
    var t1 := Move(t, i, AtSelect, n);
    LeadsOn(s, t1, Pass(i));
    var t2 := Do(t1, Pass(i));
    LeadsOn(s, t2, Check(i));
    assert Do(t2, Check(i)) == Move(t, i, Sending, 0);
  }

  /** A rate on its way up, after t ticks. */
  function Rising(spec: Spec, t: nat, count: nat): Rate
    requires spec.IncDec?
  {
    Rate(spec, Waiting, CounterAt(spec.min, spec.max, t), [Timer(true, spec.inc, count, AtSelect)], t, [])
  }

  lemma {:induction false} RisesAt(spec: Spec, t: nat)
    requires spec.IncDec? && t < spec.max - spec.min
    ensures CounterAt(spec.min, spec.max, t) == Counter(spec.min + t, true)
    ensures CounterAt(spec.min, spec.max, t + 1) == Counter(spec.min + t + 1, t + 1 < spec.max - spec.min)
  {
    if t > 0 {
      RisesAt(spec, t - 1);
    }
  }

  /** One more tick on the way up. */
  lemma RiseOne(spec: Spec, t: nat, count: nat)
    requires spec.IncDec? && spec.inc >= 1 && count <= 1 && t + 1 < spec.max - spec.min
    requires Leads(Launch(spec), Rising(spec, t, count))
    ensures Leads(Launch(spec), Rising(spec, t + 1, 1))
  {
    var s, r := Launch(spec), Rising(spec, t, count);
    RisesAt(spec, t);
    ToSending(s, r, 0);
    var r1 := Move(r, 0, Sending, 0);
    LeadsOn(s, r1, Tick(0));
    var r2 := Do(r1, Tick(0));
    LeadsOn(s, r2, Offer(false));
    var r3 := Do(r2, Offer(false));
    LeadsOn(s, r3, Wake(0));
    assert Do(r3, Wake(0)) == Rising(spec, t + 1, 1);
  }

  lemma {:induction false} RiseTo(spec: Spec, t: nat)
    requires spec.IncDec? && spec.inc >= 1 && t < spec.max - spec.min
    ensures Leads(Launch(spec), Rising(spec, t, if t == 0 then 0 else 1))
  {
    if t == 0 {
      assert Rising(spec, 0, 0) == Launch(spec);
      LeadsToItself(Launch(spec));
    } else {
      RiseTo(spec, t - 1);
      RiseOne(spec, t - 1, if t == 1 then 0 else 1);
    }
  }

  ghost predicate Deadlocked(t: Rate) {
    t.pc.TurnParked? && Blocked(t)
  }

  /** A rate that is about to stop a timer of interval at least 1 can be overtaken by it. */
  lemma OvertakenAtTurn(spec: Spec, t: Rate) returns (jam: Rate)
    requires Leads(Launch(spec), t) && t.pc.TurnPending?
    requires |t.timers| > 0 && Current(t).pc.Sleeping? && Current(t).count == 0 && Current(t).interval >= 1
    ensures Leads(Launch(spec), jam) && Deadlocked(jam)
  {
    var s, i := Launch(spec), |t.timers| - 1;
    LeadsOn(s, t, Wake(i));
    var t1 := Do(t, Wake(i));
    CountUp(s, t1, i, t.timers[i].interval - 1);
    var t2 := Move(t1, i, AtSelect, t.timers[i].interval);
    LeadsOn(s, t2, Pass(i));
    var t3 := Do(t2, Pass(i));
    LeadsOn(s, t3, Park);
    var t4 := Do(t3, Park);
    LeadsOn(s, t4, Check(i));
    jam := Do(t4, Check(i));
    LeadsKeepsInv(spec, jam);
    forall a
      ensures !Enabled(jam, a)
    {
      if Enabled(jam, a) {
        DoomedStep(jam, a);
      }
    }
  }

  /** With an increment interval of at least 1 the first turn can deadlock. */
  lemma TopDeadlocks(spec: Spec) returns (jam: Rate)
    requires spec.IncDec? && spec.min < spec.max && spec.inc >= 1
    ensures Leads(Launch(spec), jam) && Deadlocked(jam)
  {
    var s, n := Launch(spec), spec.max - spec.min - 1;
    RiseTo(spec, n);
    RisesAt(spec, n);
    var r := Rising(spec, n, if n == 0 then 0 else 1);
    ToSending(s, r, 0);
    var r1 := Move(r, 0, Sending, 0);
    LeadsOn(s, r1, Tick(0));
    jam := OvertakenAtTurn(spec, Do(r1, Tick(0)));
  }

  /** With an increment interval of 0 the first timer ticks only once.  If that is enough
      to reach the top, the decrement timer takes over. */
  lemma ToDecrement(spec: Spec) returns (r: Rate)
    requires spec.IncDec? && spec.max == spec.min + 1 && spec.inc == 0
    ensures Leads(Launch(spec), r) && r.pc.Waiting? && r.spec == spec && r.counter == Counter(spec.max, false)
    ensures |r.timers| == 2 && r.timers[1] == Timer(false, spec.dec, 0, AtSelect)
  {
    var s := Launch(spec);
    LeadsToItself(s);
    ToSending(s, s, 0);
    r := Move(s, 0, Sending, 0);
    LeadsOn(s, r, Tick(0));
    r := Do(r, Tick(0));
    LeadsOn(s, r, Park);
    r := Do(r, Park);
    LeadsOn(s, r, Wake(0));
    r := Do(r, Wake(0));
    LeadsOn(s, r, TakeStop(0));
    r := Do(r, TakeStop(0));
    LeadsOn(s, r, Spawn);
    r := Do(r, Spawn);
    LeadsOn(s, r, Offer(false));
    r := Do(r, Offer(false));
  }

  lemma BottomDeadlocks(spec: Spec) returns (jam: Rate)
    requires spec.IncDec? && spec.max == spec.min + 1 && spec.inc == 0 && spec.dec >= 1
    ensures Leads(Launch(spec), jam) && Deadlocked(jam)
  {
    var s := Launch(spec);
    var r := ToDecrement(spec);
    ToSending(s, r, 1);
    var r1 := Move(r, 1, Sending, 0);
    LeadsOn(s, r1, Tick(1));
    jam := OvertakenAtTurn(spec, Do(r1, Tick(1)));
  }

  // ----- never getting there -----

  /** A timer of interval at most 0 before its only chance to tick, and after it. */
  predicate Young(t: Timer) {
    t.count == 0 && (t.pc.AtSelect? || t.pc.Passed? || t.pc.Sending?)
  }

  predicate Spent(t: Timer) {
    t.count >= 0 && !t.pc.Sending? && (t.pc.AtSelect? || t.pc.Passed? ==> t.count >= 1)
  }

  /** Without a turning point there is no turn. */
  ghost predicate Straight(s: Rate) {
    Inv(s) && !InTurn(s) && (s.spec.IncDec? ==> s.spec.min >= s.spec.max)
  }

  lemma StraightStep(s: Rate, a: Act)
    requires Straight(s) && Enabled(s, a)
    ensures Straight(Do(s, a))
  {
    InvStep(s, a);
    if s.spec.IncDec? {
      NeverTurns(s.spec.min, s.spec.max, s.ticks);
      NeverTurns(s.spec.min, s.spec.max, s.ticks + 1);
    }
  }

  lemma {:induction false} StraightForever(s: Rate, acts: seq<Act>)
    requires Straight(s) && Legal(s, acts, false)
    ensures !InTurn(After(s, acts))
    decreases |acts|
  {
    if acts != [] {
      StraightStep(s, acts[0]);
      StraightForever(Do(s, acts[0]), acts[1..]);
    }
  }

  /** An increment timer of interval 0 gives one tick, too few to reach the top. */
  ghost predicate OneShot(s: Rate) {
    && Inv(s) && !InTurn(s) && s.spec.IncDec? && s.spec.inc == 0 && s.spec.max > s.spec.min + 1
    && s.counter.goingUp && s.ticks <= 1
    && (Spent(Current(s)) || (s.ticks == 0 && Young(Current(s))))
  }

  /** What a step does to the live timer when its interval is at most 0. */
  lemma SpentStays(s: Rate, a: Act)
    requires OneTimer(s) && OnWave(s) && Enabled(s, a) && Current(s).interval <= 0
    requires Spent(Current(s)) || Young(Current(s))
    ensures var t := Current(Do(s, a));
            && (Spent(Current(s)) && !a.Spawn? ==> !a.Tick? && Spent(t))
            && (Spent(t) || Young(t)) && (a.Tick? ==> Spent(t))
  {
    NewestOnly(s, a);
  }

  lemma OneShotStep(s: Rate, a: Act)
    requires OneShot(s) && Enabled(s, a)
    ensures OneShot(Do(s, a))
  {
    InvStep(s, a);
    SpentStays(s, a);
    assert CounterAt(s.spec.min, s.spec.max, 0) == Counter(s.spec.min, true);
  }

  lemma {:induction false} OneShotForever(s: Rate, acts: seq<Act>)
    requires OneShot(s) && Legal(s, acts, false)
    ensures !InTurn(After(s, acts))
    decreases |acts|
  {
    if acts != [] {
      OneShotStep(s, acts[0]);
      OneShotForever(Do(s, acts[0]), acts[1..]);
    }
  }

  /** Where no timer has an interval of 1 or more, the one to be stopped at a turn has
      had its tick and never polls with a full count again. */
  ghost predicate Harmless(s: Rate) {
    && Inv(s) && s.spec.IncDec? && s.spec.inc <= 0 && s.spec.dec <= 0
    && (Spent(Current(s)) || Young(Current(s)))
    && (s.pc.TurnPending? || s.pc.TurnParked? ==> Spent(Current(s)))
  }

  lemma HarmlessStep(s: Rate, a: Act)
    requires Harmless(s) && Enabled(s, a)
    ensures Harmless(Do(s, a))
  {
    InvStep(s, a);
    SpentStays(s, a);
  }

  lemma {:induction false} HarmlessForever(s: Rate, acts: seq<Act>)
    requires Harmless(s) && Legal(s, acts, false)
    ensures Harmless(After(s, acts))
    decreases |acts|
  {
    if acts != [] {
      HarmlessStep(s, acts[0]);
      HarmlessForever(Do(s, acts[0]), acts[1..]);
    }
  }

  /** The rates whose turn can deadlock. */
  predicate CanJam(spec: Spec) {
    spec.IncDec? && spec.min < spec.max &&
    (spec.inc >= 1 || (spec.inc == 0 && spec.max == spec.min + 1 && spec.dec >= 1))
  }

  lemma OthersNeverJam(spec: Spec, acts: seq<Act>)
    requires !CanJam(spec) && Legal(Launch(spec), acts, false)
    ensures !Deadlocked(After(Launch(spec), acts))
  {
    var s := Launch(spec);
    InvLaunch(spec);
    if spec.Single? || spec.min >= spec.max {
      StraightForever(s, acts);
    } else if spec.inc < 0 {
      SilentForever(s, acts);
    } else if spec.max > spec.min + 1 {
      OneShotForever(s, acts);
    } else {
      HarmlessForever(s, acts);
      var t := After(s, acts);
      if t.pc.TurnParked? {
        CleanStep(t, NextTimerAct(t));
      }
    }
  }

  ghost predicate ReachesDeadlockedTurn(spec: Spec, acts: seq<Act>) {
    Legal(Launch(spec), acts, false) && Deadlocked(After(Launch(spec), acts))
  }

  /** Exactly which rates can deadlock at a turn when nothing is known about how long the
      code between a receive and a stop send takes. */
  lemma HandoffDeadlockIff(spec: Spec)
    ensures (exists acts :: ReachesDeadlockedTurn(spec, acts)) <==> CanJam(spec)
  {
    if CanJam(spec) {
      var jam;
      if spec.inc >= 1 {
        jam := TopDeadlocks(spec);
      } else {
        jam := BottomDeadlocks(spec);
      }
      var acts :| Legal(Launch(spec), acts, false) && After(Launch(spec), acts) == jam;
      assert ReachesDeadlockedTurn(spec, acts);
    } else {
      forall acts
        ensures !ReachesDeadlockedTurn(spec, acts)
      {
        if Legal(Launch(spec), acts, false) {
          OthersNeverJam(spec, acts);
        }
      }
    }
  }

  /** Every such run breaks the timing assumption. */
  lemma TurnDeadlocksAreUnprompt(spec: Spec, acts: seq<Act>)
    requires ReachesDeadlockedTurn(spec, acts)
    ensures !Legal(Launch(spec), acts, true)
  {
    var s := After(Launch(spec), acts);
    assert Legal(s, [], false) && After(s, []) == s && !CanMove(s);
    if Legal(Launch(spec), acts, true) {
      HandoffNeverDeadlocks(spec, acts);
    }
  }
}
