/** What becomes of a rate that is blocked on its stop send: either its timer takes
    the stop, or both goroutines are blocked sending to each other for ever. */
module RateStops {
  import opened TriangleWave
  import opened RateMachine

  /** The timer has gone past its poll with a full count, so its next channel
      operation is a send. */
  predicate Doomed(t: Timer) {
    t.pc.Sending? || (t.pc.Passed? && t.count == t.interval)
  }

  /** The stop was taken: the timer has exited and the rate goes on (or exits). */
  predicate Released(s: Rate) {
    |s.timers| > 0 && Current(s).pc.Exited? && (s.pc.Spawning? || s.pc.Gone?)
  }

  /** Timer steps left before an undoomed timer polls `pin` again. */
  function Distance(t: Timer): nat {
    match t.pc
    case AtSelect => 1
    case Sleeping => 2
    case _ => 3
  }

  ghost predicate CanMove(s: Rate) {
    exists a :: Enabled(s, a)
  }

  lemma DoomedStep(s: Rate, a: Act)
    requires OneTimer(s) && OnWave(s) && Parked(s) && Doomed(Current(s)) && Enabled(s, a)
    ensures Do(s, a).pc == s.pc && Current(Do(s, a)).pc.Sending? && !Current(s).pc.Sending?
  {
    OneTimerStep(s, a);
    assert a == Check(|s.timers| - 1);
  }

  /** A rate blocked against a doomed timer stays blocked in every continuation, and
      nothing at all can happen after at most one more step. */
  lemma {:induction false} DoomedForever(s: Rate, acts: seq<Act>)
    requires OneTimer(s) && OnWave(s) && Parked(s) && Doomed(Current(s)) && Legal(s, acts, false)
    ensures OneTimer(After(s, acts)) && After(s, acts).pc == s.pc && Doomed(Current(After(s, acts)))
    ensures |acts| <= if Current(s).pc.Sending? then 0 else 1
    decreases |acts|
  {
    if acts != [] {
      DoomedStep(s, acts[0]);
      OneTimerStep(s, acts[0]);
      DoomedForever(Do(s, acts[0]), acts[1..]);
    }
  }

  function NextTimerAct(s: Rate): Act
    requires |s.timers| > 0
  {
    var i := |s.timers| - 1;
    match s.timers[i].pc
    case AtSelect => TakeStop(i)
    case Sleeping => Wake(i)
    case _ => Check(i)
  }

  lemma CleanStep(s: Rate, a: Act)
    requires OneTimer(s) && OnWave(s) && Parked(s) && !Doomed(Current(s))
    ensures Enabled(s, NextTimerAct(s))
    ensures Enabled(s, a) ==> a == NextTimerAct(s)
    ensures Enabled(s, a) && Current(s).pc.AtSelect? ==> Released(Do(s, a))
    ensures Enabled(s, a) && !Current(s).pc.AtSelect? ==>
              && Do(s, a).pc == s.pc && !Doomed(Current(Do(s, a)))
              && Distance(Current(Do(s, a))) == Distance(Current(s)) - 1
  {
    if Enabled(s, a) {
      OneTimerStep(s, a);
    }
  }

  /** Against an undoomed timer every continuation has the stop taken after exactly
      as many steps as the timer is away from its next poll, at most three. */
  lemma {:induction false} CleanStop(s: Rate, acts: seq<Act>)
    requires OneTimer(s) && OnWave(s) && Parked(s) && !Doomed(Current(s)) && Legal(s, acts, false)
    ensures |acts| < Distance(Current(s)) ==> CanMove(After(s, acts))
    ensures |acts| == Distance(Current(s)) ==> Released(After(s, acts))
    decreases |acts|
  {
    if acts == [] {
      CleanStep(s, Park);
      assert Enabled(After(s, acts), NextTimerAct(s));
    } else {
      CleanStep(s, acts[0]);
      OneTimerStep(s, acts[0]);
      if Distance(Current(s)) == 1 {
        assert acts[1..] == [] || |acts| > 1;
      } else {
        CleanStop(Do(s, acts[0]), acts[1..]);
      }
    }
  }

  ghost predicate Blocked(s: Rate) {
    Parked(s) && !CanMove(s)
  }

  /** The run that releases a rate blocked against an undoomed timer. */
  lemma ToRelease(s: Rate) returns (acts: seq<Act>)
    requires OneTimer(s) && OnWave(s) && Parked(s) && !Doomed(Current(s))
    ensures Legal(s, acts, true) && Legal(s, acts, false) && Released(After(s, acts))
    ensures After(s, acts).pc == if s.pc.TurnParked? then Spawning else Gone
    ensures forall a :: a in acts ==> !a.Control? && !a.Offer?
    decreases Distance(Current(s))
  {
    var a := NextTimerAct(s);
    CleanStep(s, a);
    OneTimerStep(s, a);
    var s' := Do(s, a);
    if Current(s).pc.AtSelect? {
      acts := [a] + [];
      Cons(s, a, [], true);
    } else {
      var rest := ToRelease(s');
      acts := [a] + rest;
      Cons(s, a, rest, true);
    }
  }

  /** The fate of a blocked stop is decided by where the timer is: both goroutines can
      get past it exactly when the timer is not doomed, and exactly when it is doomed
      one more step can leave them blocked on each other. */
  lemma ParkedFate(s: Rate)
    requires OneTimer(s) && OnWave(s) && Parked(s)
    ensures !Doomed(Current(s)) <==> exists acts :: Legal(s, acts, false) && Released(After(s, acts))
    ensures Doomed(Current(s)) <==> exists acts :: |acts| <= 1 && Legal(s, acts, false) && Blocked(After(s, acts))
  {
    if Doomed(Current(s)) {
      forall acts | Legal(s, acts, false)
        ensures !Released(After(s, acts))
      {
        DoomedForever(s, acts);
      }
      var acts := if Current(s).pc.Sending? then [] else [Check(|s.timers| - 1)];
      assert Legal(s, acts, false);
      DoomedForever(s, acts);
      forall a
        ensures !Enabled(After(s, acts), a)
      {
        if Enabled(After(s, acts), a) {
          DoomedStep(After(s, acts), a);
        }
      }
      assert Blocked(After(s, acts));
    } else {
      var release := ToRelease(s);
      forall acts | |acts| <= 1 && Legal(s, acts, false)
        ensures !Blocked(After(s, acts))
      {
        CleanStop(s, acts);
      }
    }
  }

  // ----- turning points -----

  /** While the rate is about to stop a timer at a turning point, that timer is still
      in the sleep that followed its last tick. */
  predicate Calm(s: Rate) {
    |s.timers| > 0 &&
    (s.pc.TurnPending? ==> Current(s).pc.Sleeping?) &&
    (s.pc.TurnParked? ==> Current(s).pc.Sleeping? || Current(s).pc.AtSelect?)
  }

  lemma CalmStep(s: Rate, a: Act)
    requires OneTimer(s) && OnWave(s) && Calm(s) && Enabled(s, a) && Prompt(s, a)
    ensures Calm(Do(s, a))
  {
    OneTimerStep(s, a);
  }

  lemma {:induction false} PromptRunsAreCalm(s: Rate, acts: seq<Act>)
    requires Inv(s) && Calm(s) && Legal(s, acts, true)
    ensures Legal(s, acts, false) && Inv(After(s, acts)) && Calm(After(s, acts)) && After(s, acts).spec == s.spec
    decreases |acts|
  {
    PromptIsLegal(s, acts);
    EveryRunKeepsInv(s, acts);
    if acts != [] {
      var s' := Do(s, acts[0]);
      CalmStep(s, acts[0]);
      InvStep(s, acts[0]);
      PromptRunsAreCalm(s', acts[1..]);
    }
  }

  /** Timer handoff: under the timing assumption, whatever the intervals and bounds
      and however the run goes, the stop sent at a turning point meets the old
      timer's next poll within two steps of any continuation, so a switch never
      deadlocks. */
  lemma HandoffNeverDeadlocks(spec: Spec, acts: seq<Act>)
    requires Legal(Launch(spec), acts, true)
    ensures Legal(Launch(spec), acts, false)
    ensures var s := After(Launch(spec), acts);
            s.pc.TurnParked? ==>
              && |s.timers| > 0 && !Doomed(Current(s)) && Distance(Current(s)) <= 2
              && forall more :: Legal(s, more, false) ==>
                   && (|more| < Distance(Current(s)) ==> CanMove(After(s, more)))
                   && (|more| == Distance(Current(s)) ==> Released(After(s, more)))
  {
    InvLaunch(spec);
    PromptRunsAreCalm(Launch(spec), acts);
    var s := After(Launch(spec), acts);
    if s.pc.TurnParked? {
      forall more | Legal(s, more, false)
        ensures |more| < Distance(Current(s)) ==> CanMove(After(s, more))
        ensures |more| == Distance(Current(s)) ==> Released(After(s, more))
      {
        CleanStop(s, more);
      }
    }
  }

  // ----- shutdown -----

  function FirstInterval(spec: Spec): int {
    NewTimer(spec, true).interval
  }

  /** k rounds of the first timer: poll, compare, sleep. */
  function Rounds(k: nat): seq<Act> {
    if k == 0 then [] else [Pass(0), Check(0), Wake(0)] + Rounds(k - 1)
  }

  /** The rate with its only timer polling, after `count` rounds. */
  function Idling(spec: Spec, count: nat): Rate {
    var s := Launch(spec);
    s.(timers := [s.timers[0].(count := count)])
  }

  /** One round, before anything that can follow it. */
  lemma RoundThen(s: Rate, s1: Rate, s2: Rate, s3: Rate, acts: seq<Act>)
    requires Enabled(s, Pass(0)) && s1 == Do(s, Pass(0))
    requires Enabled(s1, Check(0)) && s2 == Do(s1, Check(0))
    requires Enabled(s2, Wake(0)) && Prompt(s2, Wake(0)) && s3 == Do(s2, Wake(0))
    requires Legal(s3, acts, true) && Legal(s3, acts, false)
    ensures Legal(s, [Pass(0)] + ([Check(0)] + ([Wake(0)] + acts)), true)
    ensures Legal(s, [Pass(0)] + ([Check(0)] + ([Wake(0)] + acts)), false)
    ensures After(s, [Pass(0)] + ([Check(0)] + ([Wake(0)] + acts))) == After(s3, acts)
  {
    Cons(s2, Wake(0), acts, true);
    Cons(s1, Check(0), [Wake(0)] + acts, true);
    Cons(s, Pass(0), [Check(0)] + ([Wake(0)] + acts), true);
  }

  lemma IdlingRound(spec: Spec, count: nat) returns (s1: Rate, s2: Rate)
    requires count < FirstInterval(spec)
    ensures Enabled(Idling(spec, count), Pass(0)) && s1 == Do(Idling(spec, count), Pass(0))
    ensures Enabled(s1, Check(0)) && s2 == Do(s1, Check(0))
    ensures Enabled(s2, Wake(0)) && Prompt(s2, Wake(0)) && Do(s2, Wake(0)) == Idling(spec, count + 1)
  {
    s1 := Do(Idling(spec, count), Pass(0));
    s2 := Do(s1, Check(0));
  }

  lemma RoundsUnfold(k: nat, acts: seq<Act>)
    requires k > 0
    ensures Rounds(k) + acts == [Pass(0)] + ([Check(0)] + ([Wake(0)] + (Rounds(k - 1) + acts)))
  {
  }

  lemma {:induction false} RoundsThen(spec: Spec, count: nat, k: nat, acts: seq<Act>)
    requires count + k <= FirstInterval(spec)
    requires Legal(Idling(spec, count + k), acts, true) && Legal(Idling(spec, count + k), acts, false)
    ensures Legal(Idling(spec, count), Rounds(k) + acts, true) && Legal(Idling(spec, count), Rounds(k) + acts, false)
    ensures After(Idling(spec, count), Rounds(k) + acts) == After(Idling(spec, count + k), acts)
    decreases k
  {
    if k == 0 {
      assert Rounds(0) + acts == acts;
    } else {
      RoundsThen(spec, count + 1, k - 1, acts);
      var rest := Rounds(k - 1) + acts;
      var s1, s2 := IdlingRound(spec, count);
      RoundThen(Idling(spec, count), s1, s2, Idling(spec, count + 1), rest);
      RoundsUnfold(k, acts);
    }
  }

  /** With a negative interval the first timer never gets to send a tick. */
  ghost predicate Silent(s: Rate) {
    && FirstInterval(s.spec) < 0 && s.ticks == 0 && s.counter.goingUp && !InTurn(s) && !s.pc.Offering?
    && |s.timers| == 1 && !s.timers[0].pc.Sending?
    && s.timers[0].interval == FirstInterval(s.spec) && s.timers[0].count >= 0
  }

  lemma {:induction false} SilentForever(s: Rate, acts: seq<Act>)
    requires Silent(s) && Legal(s, acts, false)
    ensures Silent(After(s, acts))
    decreases |acts|
  {
    if acts != [] {
      SilentForever(Do(s, acts[0]), acts[1..]);
    }
  }

  ghost predicate ReachesDeadlockedShutdown(spec: Spec, acts: seq<Act>) {
    && Legal(Launch(spec), acts, true) && Legal(Launch(spec), acts, false)
    && After(Launch(spec), acts).pc.QuitParked? && Blocked(After(Launch(spec), acts))
  }

  /** The shutdown hazard: poll with a full count, control message, stop send. */
  lemma ShutdownDeadlock(spec: Spec) returns (acts: seq<Act>)
    requires FirstInterval(spec) >= 0
    ensures ReachesDeadlockedShutdown(spec, acts)
  {
    var n := FirstInterval(spec);
    var s := Idling(spec, n);
    var tail := [];
    Extend(s, tail, Pass(0), true);
    tail := tail + [Pass(0)];
    Extend(s, tail, Control, true);
    tail := tail + [Control];
    Extend(s, tail, Park, true);
    tail := tail + [Park];
    Extend(s, tail, Check(0), true);
    tail := tail + [Check(0)];
    RoundsThen(spec, 0, n, tail);
    assert Idling(spec, 0) == Launch(spec);
    acts := Rounds(n) + tail;
    InvLaunch(spec);
    EveryRunKeepsInv(Launch(spec), acts);
    var s' := After(Launch(spec), acts);
    forall a
      ensures !Enabled(s', a)
    {
      if Enabled(s', a) {
        DoomedStep(s', a);
      }
    }
  }

  /** Shutdown can leave the rate and its timer blocked on each other, even under the
      timing assumption, exactly when the first timer ever ticks: the control message
      can arrive between the timer's poll and its send. */
  lemma ShutdownDeadlockIff(spec: Spec)
    ensures (exists acts :: ReachesDeadlockedShutdown(spec, acts)) <==> FirstInterval(spec) >= 0
  {
    if FirstInterval(spec) >= 0 {
      var acts := ShutdownDeadlock(spec);
    } else {
      forall acts
        ensures !ReachesDeadlockedShutdown(spec, acts)
      {
        if ReachesDeadlockedShutdown(spec, acts) {
          InvLaunch(spec);
          EveryRunKeepsInv(Launch(spec), acts);
          SilentForever(Launch(spec), acts);
          var s := After(Launch(spec), acts);
          CleanStep(s, NextTimerAct(s));
          assert false;
        }
      }
    }
  }
}
