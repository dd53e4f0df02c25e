/** Infinite runs: under strongly fair scheduling that keeps to the timing assumption, a
    stop that has begun sends all its messages. */
module Fairness {
  import opened Wrappers
  import opened RateMachine
  import opened RateStops
  import opened StopProtocol

  /** A run without an end.  Where no event happens the state stays. */
  datatype Run = Run(state: nat -> System, event: nat -> Option<Event>)

  ghost predicate IsStep(s: System, e: Option<Event>, s': System) {
    |s.rates| == |s.ops| &&
    match e
    case None => s' == s
    case Some(e) => Possible(s, e) && Prompted(s, e) && s' == Happen(s, e)
  }

  ghost predicate IsRun(r: Run) {
    forall n: nat :: IsStep(r.state(n), r.event(n), r.state(n + 1))
  }

  ghost predicate CanHappen(s: System, e: Event) {
    |s.rates| == |s.ops| && Possible(s, e)
  }

  /** From step k on an event is never possible, or never happens. */
  ghost predicate ImpossibleFrom(r: Run, e: Event, k: nat) {
    forall n: nat :: k <= n ==> !CanHappen(r.state(n), e)
  }

  ghost predicate AbsentFrom(r: Run, e: Event, k: nat) {
    forall n: nat :: k <= n ==> r.event(n) != Some(e)
  }

  /** Strong fairness: an event that is possible again and again happens again and again. */
  ghost predicate Fair(r: Run, e: Event) {
    (exists k: nat :: AbsentFrom(r, e, k)) ==> exists k: nat :: ImpossibleFrom(r, e, k)
  }

  // ----- what holds along a run -----

  lemma {:induction false} AlongRun(specs: seq<Spec>, r: Run, n: nat)
    requires IsRun(r) && r.state(0) == Start(specs)
    ensures Balanced(r.state(n)) && AllCalm(r.state(n))
  {
    if n == 0 {
      StartBalanced(specs);
    } else {
      AlongRun(specs, r, n - 1);
      assert IsStep(r.state(n - 1), r.event(n - 1), r.state(n - 1 + 1));
      var s := r.state(n - 1);
      if r.event(n - 1).Some? {
        BalancedStep(s, r.event(n - 1).value);
        CalmSystemStep(s, r.event(n - 1).value);
      }
    }
  }

  lemma CalmSystemStep(s: System, e: Event)
    requires Balanced(s) && AllCalm(s) && Possible(s, e) && Prompted(s, e)
    ensures AllCalm(Happen(s, e))
  {
    if e.RateActs? {
      CalmStep(s.rates[e.i], e.a);
    } else if e.StopRate? {
      CalmStep(s.rates[e.i], Control);
    }
  }

  /** While stopping, messages are only sent. */
  lemma StoppingStep(s: System, e: Option<Event>, s': System)
    requires Balanced(s) && IsStep(s, e, s') && s.stopping
    ensures s'.stopping && s'.toSend <= s.toSend
    ensures s'.toSend < s.toSend <==> e.Some? && (e.value.StopRate? || e.value.StopOps?)
  {
  }

  lemma {:induction false} StaysStopping(specs: seq<Spec>, r: Run, k: nat, n: nat)
    requires IsRun(r) && r.state(0) == Start(specs) && r.state(k).stopping && k <= n
    ensures r.state(n).stopping && r.state(n).toSend <= r.state(k).toSend
    decreases n
  {
    if k < n {
      StaysStopping(specs, r, k, n - 1);
      AlongRun(specs, r, n - 1);
      assert IsStep(r.state(n - 1), r.event(n - 1), r.state(n - 1 + 1));
      StoppingStep(r.state(n - 1), r.event(n - 1), r.state(n));
    }
  }

  /** From some point on no message is sent any more. */
  ghost predicate Settled(r: Run, k: nat) {
    forall n: nat :: k <= n ==> r.state(n).toSend == r.state(k).toSend
  }

  lemma {:induction false} SettlesEventually(specs: seq<Spec>, r: Run, k: nat) returns (n: nat)
    requires IsRun(r) && r.state(0) == Start(specs) && r.state(k).stopping
    ensures k <= n && r.state(n).stopping && Settled(r, n)
    decreases r.state(k).toSend
  {
    if m: nat :| k <= m && r.state(m).toSend < r.state(k).toSend {
      StaysStopping(specs, r, k, m);
      n := SettlesEventually(specs, r, m);
    } else {
      n := k;
      forall m: nat | k <= m
        ensures r.state(m).toSend == r.state(k).toSend
      {
        StaysStopping(specs, r, k, m);
      }
    }
  }

  lemma NoneSentOnceSettled(specs: seq<Spec>, r: Run, k: nat, n: nat)
    requires IsRun(r) && r.state(0) == Start(specs) && r.state(k).stopping && Settled(r, k) && k <= n
    ensures r.event(n).Some? ==> !r.event(n).value.StopRate? && !r.event(n).value.StopOps?
  {
    AlongRun(specs, r, n);
    StaysStopping(specs, r, k, n);
    assert IsStep(r.state(n), r.event(n), r.state(n + 1));
    StoppingStep(r.state(n), r.event(n), r.state(n + 1));
    assert r.state(n + 1).toSend == r.state(k).toSend == r.state(n).toSend;
  }

  // ----- leaving a condition -----

  ghost predicate PossibleAfter(r: Run, e: Event, k: nat) {
    exists n: nat :: k <= n && CanHappen(r.state(n), e)
  }

  /** What is possible again and again happens again and again. */
  lemma HappensAgain(r: Run, k: nat, e: Event) returns (n: nat)
    requires Fair(r, e) && forall d: nat :: PossibleAfter(r, e, d)
    ensures k <= n && r.event(n) == Some(e)
  {
    forall d: nat
      ensures !ImpossibleFrom(r, e, d)
    {
      assert PossibleAfter(r, e, d);
    }
    assert !AbsentFrom(r, e, k);
    n :| k <= n && r.event(n) == Some(e);
  }

  /** The condition holds on, or has ended in the next one. */
  lemma {:induction false} EndsInNext(r: Run, k: nat, here: System -> bool, next: System -> bool, m: nat) returns (n: nat)
    requires k <= m && here(r.state(k)) && !here(r.state(m))
    requires forall j: nat :: k <= j && here(r.state(j)) ==> here(r.state(j + 1)) || next(r.state(j + 1))
    ensures k <= n && next(r.state(n))
    decreases m
  {
    var j: nat := m - 1;
    if here(r.state(j)) {
      n := j + 1;
    } else {
      n := EndsInNext(r, k, here, next, j);
    }
  }

  /** A condition that only ends in the next one, and that keeps an event possible which
      ends it, ends. */
  lemma EndsEventually(r: Run, k: nat, here: System -> bool, next: System -> bool, e: Event) returns (n: nat)
    requires Fair(r, e) && here(r.state(k))
    requires forall m: nat :: k <= m && here(r.state(m)) ==> CanHappen(r.state(m), e)
    requires forall m: nat :: k <= m && here(r.state(m)) ==> here(r.state(m + 1)) || next(r.state(m + 1))
    requires forall m: nat :: k <= m && here(r.state(m)) && r.event(m) == Some(e) ==> next(r.state(m + 1))
    ensures k <= n && next(r.state(n))
  {
    if m: nat :| k <= m && !here(r.state(m)) {
      n := EndsInNext(r, k, here, next, m);
    } else {
      forall d: nat
        ensures PossibleAfter(r, e, d)
      {
        var m: nat := if d < k then k else d;
        assert here(r.state(m)) && CanHappen(r.state(m), e);
      }
      n := HappensAgain(r, k, e);
      n := n + 1;
    }
  }

  // ----- a routine that is still listening -----

  function OpsAt(s: System, i: nat): OpsPc {
    if i < |s.ops| then s.ops[i] else Finished
  }

  lemma {:induction false} OpsTaken(specs: seq<Spec>, r: Run, k: nat, i: nat, m: nat) returns (n: nat)
    requires IsRun(r) && r.state(0) == Start(specs) && k <= m
    requires Unfinished(OpsAt(r.state(k), i)) && !Unfinished(OpsAt(r.state(m), i))
    ensures k <= n && r.event(n) == Some(StopOps(i))
    decreases m
  {
    n := m - 1;
    if Unfinished(OpsAt(r.state(n), i)) {
      AlongRun(specs, r, n);
      assert IsStep(r.state(n), r.event(n), r.state(n + 1));
    } else {
      n := OpsTaken(specs, r, k, i, n);
    }
  }

  lemma OpsStep(s: System, e: Option<Event>, s': System, i: nat)
    requires Balanced(s) && IsStep(s, e, s') && OpsAt(s, i).Busy?
    ensures CanHappen(s, OpsDone(i))
    ensures OpsAt(s', i).Busy? || OpsAt(s', i).Listening?
    ensures e == Some(OpsDone(i)) ==> OpsAt(s', i).Listening?
  {
  }

  /** A busy routine listens again. */
  lemma OpsListenAgain(specs: seq<Spec>, r: Run, k: nat, i: nat) returns (n: nat)
    requires IsRun(r) && r.state(0) == Start(specs) && (forall e :: Fair(r, e))
    requires Unfinished(OpsAt(r.state(k), i))
    ensures k <= n && OpsAt(r.state(n), i).Listening?
  {
    if OpsAt(r.state(k), i).Listening? {
      n := k;
    } else {
      var here, next := (s: System) => OpsAt(s, i).Busy?, (s: System) => OpsAt(s, i).Listening?;
      forall m: nat | k <= m && here(r.state(m))
        ensures CanHappen(r.state(m), OpsDone(i)) && (here(r.state(m + 1)) || next(r.state(m + 1)))
        ensures r.event(m) == Some(OpsDone(i)) ==> next(r.state(m + 1))
      {
        AlongRun(specs, r, m);
        assert IsStep(r.state(m), r.event(m), r.state(m + 1));
        OpsStep(r.state(m), r.event(m), r.state(m + 1), i);
      }
      n := EndsEventually(r, k, here, next, OpsDone(i));
    }
  }

  /** A routine that is still listening takes its message in the end. */
  lemma OpsTakeTheirs(specs: seq<Spec>, r: Run, k: nat, i: nat) returns (n: nat)
    requires IsRun(r) && r.state(0) == Start(specs) && (forall e :: Fair(r, e))
    requires Unfinished(OpsAt(r.state(k), i)) && forall m: nat :: k <= m ==> r.state(m).toSend > 0
    ensures k <= n && r.event(n) == Some(StopOps(i))
  {
    if m: nat :| k <= m && !Unfinished(OpsAt(r.state(m), i)) {
      n := OpsTaken(specs, r, k, i, m);
    } else {
      forall d: nat
        ensures PossibleAfter(r, StopOps(i), d)
      {
        var late: nat := if d < k then k else d;
        var m := OpsListenAgain(specs, r, late, i);
        AlongRun(specs, r, m);
        assert CanHappen(r.state(m), StopOps(i));
      }
      n := HappensAgain(r, k, StopOps(i));
    }
  }

  // ----- a rate that is still listening -----

  predicate RateUnstopped(s: System, i: nat) {
    i < |s.rates| && Unstopped(s.rates[i])
  }

  lemma {:induction false} RateTaken(specs: seq<Spec>, r: Run, k: nat, i: nat, m: nat) returns (n: nat)
    requires IsRun(r) && r.state(0) == Start(specs) && k <= m
    requires RateUnstopped(r.state(k), i) && !RateUnstopped(r.state(m), i)
    ensures k <= n && r.event(n) == Some(StopRate(i))
    decreases m
  {
    n := m - 1;
    if RateUnstopped(r.state(n), i) {
      AlongRun(specs, r, n);
      assert IsStep(r.state(n), r.event(n), r.state(n + 1));
      if r.event(n).Some? && r.event(n).value.RateActs? {
        var e := r.event(n).value;
        RateActKeepsStatus(r.state(n).rates[e.i], e.a);
      }
    } else {
      n := RateTaken(specs, r, k, i, n);
    }
  }

  /** How many steps an unstopped calm rate is from its select. */
  function Stage(r: Rate): nat
    requires |r.timers| > 0
  {
    match r.pc
    case TurnPending => 5
    case TurnParked => if Current(r).pc.Sleeping? then 4 else 3
    case Spawning => 2
    case Offering => 1
    case _ => 0
  }

  /** The step that brings it nearer. */
  function StageAct(r: Rate): Act
    requires |r.timers| > 0
  {
    match r.pc
    case TurnPending => Park
    case TurnParked => if Current(r).pc.Sleeping? then Wake(|r.timers| - 1) else TakeStop(|r.timers| - 1)
    case Spawning => Spawn
    case _ => Offer(false)
  }

  lemma StageStep(r: Rate, a: Act)
    requires Inv(r) && Calm(r) && Unstopped(r) && Stage(r) > 0
    ensures Enabled(r, StageAct(r)) && Prompt(r, StageAct(r)) && !StageAct(r).Control?
    ensures Enabled(r, a) && Prompt(r, a) && !a.Control? ==>
              && |Do(r, a).timers| > 0
              && (Stage(Do(r, a)) == Stage(r) || Stage(Do(r, a)) == Stage(r) - 1)
              && (a == StageAct(r) ==> Stage(Do(r, a)) == Stage(r) - 1)
              && (Stage(Do(r, a)) == Stage(r) ==> StageAct(Do(r, a)) == StageAct(r))
  {
    if Enabled(r, a) {
      NewestOnly(r, a);
    }
  }

  predicate AtStage(s: System, i: nat, g: nat) {
    RateUnstopped(s, i) && |s.rates[i].timers| > 0 && Stage(s.rates[i]) == g
  }

  predicate DueTo(s: System, i: nat, g: nat, a: Act) {
    AtStage(s, i, g) && StageAct(s.rates[i]) == a
  }

  lemma StageSystemStep(s: System, e: Option<Event>, s': System, i: nat, g: nat, a: Act)
    requires Balanced(s) && AllCalm(s) && IsStep(s, e, s') && DueTo(s, i, g, a) && g > 0
    ensures CanHappen(s, RateActs(i, a))
    ensures DueTo(s', i, g, a) || AtStage(s', i, g - 1)
    ensures e == Some(RateActs(i, a)) ==> AtStage(s', i, g - 1)
  {
    StageStep(s.rates[i], a);
    if e.Some? && e.value.RateActs? && e.value.i == i {
      StageStep(s.rates[i], e.value.a);
      RateActKeepsStatus(s.rates[i], e.value.a);
    }
  }

  lemma NextStage(specs: seq<Spec>, r: Run, k: nat, i: nat, g: nat) returns (n: nat)
    requires IsRun(r) && r.state(0) == Start(specs) && (forall e :: Fair(r, e))
    requires AtStage(r.state(k), i, g) && g > 0
    ensures k <= n && AtStage(r.state(n), i, g - 1)
  {
    var a := StageAct(r.state(k).rates[i]);
    var here, next := (s: System) => DueTo(s, i, g, a), (s: System) => AtStage(s, i, g - 1);
    forall m: nat | k <= m && here(r.state(m))
      ensures CanHappen(r.state(m), RateActs(i, a)) && (here(r.state(m + 1)) || next(r.state(m + 1)))
      ensures r.event(m) == Some(RateActs(i, a)) ==> next(r.state(m + 1))
    {
      AlongRun(specs, r, m);
      assert IsStep(r.state(m), r.event(m), r.state(m + 1));
      StageSystemStep(r.state(m), r.event(m), r.state(m + 1), i, g, a);
    }
    n := EndsEventually(r, k, here, next, RateActs(i, a));
  }

  /** A calm rate gets back to its select. */
  lemma {:induction false} RateListensAgain(specs: seq<Spec>, r: Run, k: nat, i: nat, g: nat) returns (n: nat)
    requires IsRun(r) && r.state(0) == Start(specs) && (forall e :: Fair(r, e))
    requires AtStage(r.state(k), i, g)
    ensures k <= n && AtStage(r.state(n), i, 0)
    decreases g
  {
    if g == 0 {
      n := k;
    } else {
      n := NextStage(specs, r, k, i, g);
      n := RateListensAgain(specs, r, n, i, g - 1);
    }
  }

  /** A rate that is still listening takes its message in the end. */
  lemma RateTakesIts(specs: seq<Spec>, r: Run, k: nat, i: nat) returns (n: nat)
    requires IsRun(r) && r.state(0) == Start(specs) && (forall e :: Fair(r, e))
    requires RateUnstopped(r.state(k), i) && forall m: nat :: k <= m ==> r.state(m).toSend > 0
    ensures k <= n && r.event(n) == Some(StopRate(i))
  {
    if m: nat :| k <= m && !RateUnstopped(r.state(m), i) {
      n := RateTaken(specs, r, k, i, m);
    } else {
      forall d: nat
        ensures PossibleAfter(r, StopRate(i), d)
      {
        var late: nat := if d < k then k else d;
        AlongRun(specs, r, late);
        var m := RateListensAgain(specs, r, late, i, Stage(r.state(late).rates[i]));
        AlongRun(specs, r, m);
        assert CanHappen(r.state(m), StopRate(i));
      }
      n := HappensAgain(r, k, StopRate(i));
    }
  }

  // ----- the stop -----

  lemma SettledIsDone(specs: seq<Spec>, r: Run, k: nat)
    requires IsRun(r) && r.state(0) == Start(specs) && (forall e :: Fair(r, e))
    requires r.state(k).stopping && Settled(r, k)
    ensures r.state(k).toSend == 0
  {
    var s := r.state(k);
    AlongRun(specs, r, k);
    if s.toSend > 0 {
      CountZeroIff(s.rates, Unstopped);
      CountZeroIff(s.ops, Unfinished);
      var n;
      if i :| 0 <= i < |s.ops| && Unfinished(s.ops[i]) {
        n := OpsTakeTheirs(specs, r, k, i);
      } else {
        var i :| 0 <= i < |s.rates| && Unstopped(s.rates[i]);
        n := RateTakesIts(specs, r, k, i);
      }
      NoneSentOnceSettled(specs, r, k, n);
    }
  }

  /** Under every strongly fair scheduling that keeps to the timing assumption, a stop that
      has begun sends all its messages, and then nobody is listening any more. */
  lemma FairStopFinishes(specs: seq<Spec>, r: Run, k: nat) returns (n: nat)
    requires IsRun(r) && r.state(0) == Start(specs) && (forall e :: Fair(r, e))
    requires r.state(k).stopping
    ensures k <= n && r.state(n).stopping && r.state(n).toSend == 0 && Listeners(r.state(n)) == 0
  {
    n := SettlesEventually(specs, r, k);
    SettledIsDone(specs, r, n);
    AlongRun(specs, r, n);
  }
}
