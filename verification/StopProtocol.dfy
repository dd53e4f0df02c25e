/** Stopping a benchmark: R rates and the R routines that run their operations all
    listen on one unbuffered control channel, and stopRoutines sends 2 * R messages
    on it without knowing who will take which. */
module StopProtocol {
  import opened RateMachine
  import opened RateStops

  /** Busy: running volume, workload or control operations for a rate value. */
  datatype OpsPc = Listening | Busy | Finished

  datatype System = System(rates: seq<Rate>, ops: seq<OpsPc>, stopping: bool, toSend: nat)

  datatype Event =
    | RateActs(i: nat, a: Act)
    | OpsDone(i: nat)
    | Begin
    | StopRate(i: nat)
    | StopOps(i: nat)

  predicate Possible(s: System, e: Event)
    requires |s.rates| == |s.ops|
  {
    match e
    case RateActs(i, a) =>
      i < |s.rates| && !a.Control? && Enabled(s.rates[i], a) && (a.Offer? && a.taken ==> s.ops[i].Listening?)
    case OpsDone(i) => i < |s.ops| && s.ops[i].Busy?
    case Begin => !s.stopping
    case StopRate(i) => i < |s.rates| && s.toSend > 0 && Enabled(s.rates[i], Control)
    case StopOps(i) => i < |s.ops| && s.toSend > 0 && s.ops[i].Listening?
  }

  function Happen(s: System, e: Event): (s': System)
    requires |s.rates| == |s.ops| && Possible(s, e)
    ensures |s'.rates| == |s'.ops| == |s.rates|
  {
    match e
    case RateActs(i, a) =>
      s.(rates := s.rates[i := Do(s.rates[i], a)], ops := if a.Offer? && a.taken then s.ops[i := Busy] else s.ops)
    case OpsDone(i) => s.(ops := s.ops[i := Listening])
    case Begin => s.(stopping := true, toSend := 2 * |s.rates|)
    case StopRate(i) => s.(rates := s.rates[i := Do(s.rates[i], Control)], toSend := s.toSend - 1)
    case StopOps(i) => s.(ops := s.ops[i := Finished], toSend := s.toSend - 1)
  }

  predicate Prompted(s: System, e: Event)
    requires |s.rates| == |s.ops| && Possible(s, e)
  {
    e.RateActs? ==> Prompt(s.rates[e.i], e.a)
  }

  predicate Trace(s: System, es: seq<Event>, prompt: bool)
    requires |s.rates| == |s.ops|
    decreases |es|
  {
    es == [] ||
    (Possible(s, es[0]) && (prompt ==> Prompted(s, es[0])) && Trace(Happen(s, es[0]), es[1..], prompt))
  }

  function Outcome(s: System, es: seq<Event>): (s': System)
    requires |s.rates| == |s.ops| && Trace(s, es, false)
    ensures |s'.rates| == |s'.ops| == |s.rates|
    decreases |es|
  {
    if es == [] then s else Outcome(Happen(s, es[0]), es[1..])
  }

  function Start(specs: seq<Spec>): System {
    System(seq(|specs|, i requires 0 <= i < |specs| => Launch(specs[i])), seq(|specs|, _ => Listening), false, 0)
  }

  // ----- counting listeners -----

  /** The rate has not taken a control message yet. */
  predicate Unstopped(r: Rate) {
    !r.pc.QuitPending? && !r.pc.QuitParked? && !r.pc.Gone?
  }

  predicate Unfinished(o: OpsPc) {
    !o.Finished?
  }

  function Count<T>(xs: seq<T>, p: T -> bool): nat {
    if xs == [] then 0
    else Count(xs[..|xs| - 1], p) + if p(xs[|xs| - 1]) then 1 else 0
  }

  lemma {:induction false} CountUpdate<T>(xs: seq<T>, i: nat, x: T, p: T -> bool)
    requires i < |xs|
    ensures Count(xs[i := x], p) == Count(xs, p) - (if p(xs[i]) then 1 else 0) + (if p(x) then 1 else 0)
  {
    var n := |xs| - 1;
    if i == n {
      assert xs[i := x][..n] == xs[..n];
    } else {
      assert xs[i := x][..n] == xs[..n][i := x];
      CountUpdate(xs[..n], i, x, p);
    }
  }

  lemma {:induction false} CountZeroIff<T>(xs: seq<T>, p: T -> bool)
    ensures Count(xs, p) == 0 <==> forall i :: 0 <= i < |xs| ==> !p(xs[i])
    ensures Count(xs, p) == |xs| <==> forall i :: 0 <= i < |xs| ==> p(xs[i])
    ensures Count(xs, p) <= |xs|
  {
    if xs != [] {
      var n := |xs| - 1;
      CountZeroIff(xs[..n], p);
      assert forall i :: 0 <= i < n ==> xs[..n][i] == xs[i];
    }
  }

  function Listeners(s: System): nat {
    Count(s.rates, Unstopped) + Count(s.ops, Unfinished)
  }

  /** Messages still to send equal goroutines still listening, at every step. */
  ghost predicate Balanced(s: System) {
    && |s.rates| == |s.ops|
    && (forall i :: 0 <= i < |s.rates| ==> Inv(s.rates[i]))
    && (if s.stopping then s.toSend == Listeners(s) else s.toSend == 0 && Listeners(s) == 2 * |s.rates|)
  }

  lemma StartBalanced(specs: seq<Spec>)
    ensures Balanced(Start(specs))
  {
    var s := Start(specs);
    forall i | 0 <= i < |specs|
      ensures Inv(s.rates[i]) && Unstopped(s.rates[i])
    {
      InvLaunch(specs[i]);
    }
    CountZeroIff(s.rates, Unstopped);
    CountZeroIff(s.ops, Unfinished);
  }

  lemma RateActKeepsStatus(r: Rate, a: Act)
    requires Inv(r) && Enabled(r, a)
    ensures Inv(Do(r, a)) && Do(r, a).spec == r.spec
    ensures a.Control? ==> Unstopped(r) && !Unstopped(Do(r, a))
    ensures !a.Control? ==> (Unstopped(Do(r, a)) <==> Unstopped(r))
  {
    InvStep(r, a);
  }

  lemma RateCounted(s: System, i: nat, a: Act)
    requires Balanced(s) && i < |s.rates| && Enabled(s.rates[i], a)
    ensures var rates := s.rates[i := Do(s.rates[i], a)];
            && (forall j :: 0 <= j < |rates| ==> Inv(rates[j]))
            && Count(rates, Unstopped) == Count(s.rates, Unstopped) - if a.Control? then 1 else 0
  {
    RateActKeepsStatus(s.rates[i], a);
    CountUpdate(s.rates, i, Do(s.rates[i], a), Unstopped);
  }

  lemma RateEventBalanced(s: System, e: Event)
    requires Balanced(s) && Possible(s, e) && (e.RateActs? || e.StopRate?)
    ensures Balanced(Happen(s, e))
  {
    if e.RateActs? {
      RateCounted(s, e.i, e.a);
      CountUpdate(s.ops, e.i, Busy, Unfinished);
    } else {
      RateCounted(s, e.i, Control);
    }
  }

  lemma BalancedStep(s: System, e: Event)
    requires Balanced(s) && Possible(s, e)
    ensures Balanced(Happen(s, e))
  {
    match e
    case OpsDone(i) => CountUpdate(s.ops, i, Listening, Unfinished);
    case StopOps(i) => CountUpdate(s.ops, i, Finished, Unfinished);
    case Begin =>
    case _ => RateEventBalanced(s, e);
  }

  /** In every run, under any scheduling, the messages still to send equal the
      goroutines still listening. */
  lemma {:induction false} EveryTraceBalanced(s: System, es: seq<Event>)
    requires Balanced(s) && Trace(s, es, false)
    ensures Balanced(Outcome(s, es)) && (s.stopping ==> Outcome(s, es).stopping)
    decreases |es|
  {
    if es != [] {
      BalancedStep(s, es[0]);
      EveryTraceBalanced(Happen(s, es[0]), es[1..]);
    }
  }

  function Hits(es: seq<Event>, e: Event): nat {
    if es == [] then 0 else (if es[0] == e then 1 else 0) + Hits(es[1..], e)
  }

  /** A listener takes one message in a run if the run stops it, and none otherwise. */
  lemma {:induction false} MessagesTaken(s: System, es: seq<Event>, i: nat)
    requires Balanced(s) && Trace(s, es, false) && i < |s.rates|
    ensures Hits(es, StopRate(i)) == if Unstopped(s.rates[i]) && !Unstopped(Outcome(s, es).rates[i]) then 1 else 0
    ensures Hits(es, StopOps(i)) == if Unfinished(s.ops[i]) && !Unfinished(Outcome(s, es).ops[i]) then 1 else 0
    ensures Unstopped(Outcome(s, es).rates[i]) ==> Unstopped(s.rates[i])
    ensures Unfinished(Outcome(s, es).ops[i]) ==> Unfinished(s.ops[i])
    decreases |es|
  {
    if es != [] {
      BalancedStep(s, es[0]);
      if es[0].RateActs? {
        RateActKeepsStatus(s.rates[es[0].i], es[0].a);
      } else if es[0].StopRate? {
        RateActKeepsStatus(s.rates[es[0].i], Control);
      }
      MessagesTaken(Happen(s, es[0]), es[1..], i);
    }
  }

  /** Whenever stopRoutines has sent its last message, each of the 2 * R goroutines
      has taken exactly one; before that none has taken more than one. */
  lemma StopReachesEveryone(specs: seq<Spec>, es: seq<Event>, i: nat)
    requires Trace(Start(specs), es, false) && i < |specs|
    ensures Hits(es, StopRate(i)) <= 1 && Hits(es, StopOps(i)) <= 1
    ensures var s := Outcome(Start(specs), es);
            s.stopping && s.toSend == 0 ==> Hits(es, StopRate(i)) == 1 && Hits(es, StopOps(i)) == 1
  {
    StartBalanced(specs);
    EveryTraceBalanced(Start(specs), es);
    MessagesTaken(Start(specs), es, i);
    var s := Outcome(Start(specs), es);
    CountZeroIff(s.rates, Unstopped);
    CountZeroIff(s.ops, Unfinished);
  }

  // ----- stopRoutines is not stuck -----

  /** A rate blocked, or about to block, against its own timer at a turning point. */
  predicate Jammed(r: Rate) {
    (r.pc.TurnPending? || r.pc.TurnParked?) && |r.timers| > 0 && Doomed(Current(r))
  }

  /** Nobody is left to take a message but jammed rates. */
  ghost predicate Stuck(s: System) {
    && (forall i :: 0 <= i < |s.ops| ==> s.ops[i].Finished?)
    && (forall i :: 0 <= i < |s.rates| ==> Unstopped(s.rates[i]) ==> Jammed(s.rates[i]))
  }

  predicate Private(a: Act) {
    !a.Control? && (a.Offer? ==> !a.taken)
  }

  /** A rate that is not jammed can get back to its select on its own. */
  lemma ToWaiting(r: Rate) returns (acts: seq<Act>)
    requires Inv(r) && Unstopped(r) && !Jammed(r)
    ensures Legal(r, acts, true) && Legal(r, acts, false) && After(r, acts).pc.Waiting?
    ensures forall a :: a in acts ==> Private(a)
  {
    acts := [];
    if r.pc.TurnPending? {
      Extend(r, acts, Park, true);
      acts := acts + [Park];
    }
    var r' := After(r, acts);
    if r'.pc.TurnParked? {
      var release := ToRelease(r');
      Join(r, acts, release);
      acts := acts + release;
    }
    if After(r, acts).pc.Spawning? {
      Extend(r, acts, Spawn, true);
      acts := acts + [Spawn];
    }
    if After(r, acts).pc.Offering? {
      Extend(r, acts, Offer(false), true);
      acts := acts + [Offer(false)];
    }
  }

  lemma {:induction false} Join(r: Rate, xs: seq<Act>, ys: seq<Act>)
    requires Legal(r, xs, true) && Legal(r, xs, false) && Legal(After(r, xs), ys, true) && Legal(After(r, xs), ys, false)
    ensures Legal(r, xs + ys, true) && Legal(r, xs + ys, false) && After(r, xs + ys) == After(After(r, xs), ys)
    decreases |xs|
  {
    if xs == [] {
      assert xs + ys == ys;
    } else {
      assert (xs + ys)[1..] == xs[1..] + ys;
      Join(Do(r, xs[0]), xs[1..], ys);
    }
  }

  /** A run of one rate, as a run of the system. */
  lemma {:induction false} Embed(s: System, i: nat, acts: seq<Act>) returns (es: seq<Event>)
    requires |s.rates| == |s.ops| && i < |s.rates|
    requires Legal(s.rates[i], acts, true) && Legal(s.rates[i], acts, false) && forall a :: a in acts ==> Private(a)
    ensures Trace(s, es, true) && Trace(s, es, false)
    ensures Outcome(s, es) == s.(rates := s.rates[i := After(s.rates[i], acts)])
    decreases |acts|
  {
    if acts == [] {
      es := [];
    } else {
      var e := RateActs(i, acts[0]);
      assert acts[0] in acts;
      var rest := Embed(Happen(s, e), i, acts[1..]);
      es := [e] + rest;
      assert es[1..] == rest;
    }
  }

  lemma {:induction false} ExtendTrace(s: System, es: seq<Event>, e: Event, prompt: bool)
    requires |s.rates| == |s.ops| && Trace(s, es, prompt) && Trace(s, es, false)
    requires Possible(Outcome(s, es), e) && (prompt ==> Prompted(Outcome(s, es), e))
    ensures Trace(s, es + [e], prompt) && Trace(s, es + [e], false)
    ensures Outcome(s, es + [e]) == Happen(Outcome(s, es), e)
    decreases |es|
  {
    if es == [] {
      assert (es + [e])[1..] == [];
      assert Trace(Happen(s, e), [], prompt);
    } else {
      assert (es + [e])[1..] == es[1..] + [e];
      ExtendTrace(Happen(s, es[0]), es[1..], e, prompt);
    }
  }

  /** From any state that is not stuck, the next message gets through. */
  lemma NextMessage(s: System) returns (es: seq<Event>)
    requires Balanced(s) && s.stopping && s.toSend > 0 && !Stuck(s)
    ensures Trace(s, es, true) && Trace(s, es, false) && Outcome(s, es).toSend == s.toSend - 1
  {
    if i :| 0 <= i < |s.ops| && !s.ops[i].Finished? {
      es := [];
      if s.ops[i].Busy? {
        ExtendTrace(s, es, OpsDone(i), true);
        es := es + [OpsDone(i)];
      }
      ExtendTrace(s, es, StopOps(i), true);
      es := es + [StopOps(i)];
    } else {
      var i :| 0 <= i < |s.rates| && Unstopped(s.rates[i]) && !Jammed(s.rates[i]);
      var acts := ToWaiting(s.rates[i]);
      es := Embed(s, i, acts);
      ExtendTrace(s, es, StopRate(i), true);
      es := es + [StopRate(i)];
    }
  }

  lemma JammedStep(r: Rate, a: Act)
    requires Inv(r) && Jammed(r) && Enabled(r, a)
    ensures Jammed(Do(r, a))
  {
    OneTimerStep(r, a);
  }

  lemma StuckStep(s: System, e: Event)
    requires Balanced(s) && s.stopping && Stuck(s) && Possible(s, e)
    ensures Happen(s, e).toSend == s.toSend && Happen(s, e).stopping && Stuck(Happen(s, e))
  {
    if e.RateActs? {
      RateActKeepsStatus(s.rates[e.i], e.a);
      if Unstopped(s.rates[e.i]) {
        JammedStep(s.rates[e.i], e.a);
      }
    }
  }

  lemma {:induction false} StuckForever(s: System, es: seq<Event>)
    requires Balanced(s) && s.stopping && Stuck(s) && Trace(s, es, false)
    ensures Outcome(s, es).toSend == s.toSend && Stuck(Outcome(s, es))
    decreases |es|
  {
    if es != [] {
      BalancedStep(s, es[0]);
      StuckStep(s, es[0]);
      StuckForever(Happen(s, es[0]), es[1..]);
    }
  }

  /** A stop that still has messages to send can get the next one through exactly when
      somebody other than a jammed rate is still listening. */
  lemma CanSendIff(s: System)
    requires Balanced(s) && s.stopping && s.toSend > 0
    ensures (exists es :: Trace(s, es, false) && Outcome(s, es).toSend < s.toSend) <==> !Stuck(s)
  {
    if Stuck(s) {
      forall es | Trace(s, es, false)
        ensures Outcome(s, es).toSend == s.toSend
      {
        StuckForever(s, es);
      }
    } else {
      var es := NextMessage(s);
    }
  }

  ghost predicate AllCalm(s: System) {
    forall i :: 0 <= i < |s.rates| ==> Calm(s.rates[i])
  }

  lemma {:induction false} PromptTracesAreCalm(s: System, es: seq<Event>)
    requires Balanced(s) && AllCalm(s) && Trace(s, es, true)
    ensures Trace(s, es, false) && Balanced(Outcome(s, es)) && AllCalm(Outcome(s, es))
    ensures s.stopping ==> Outcome(s, es).stopping
    decreases |es|
  {
    if es != [] {
      var e := es[0];
      BalancedStep(s, e);
      if e.RateActs? {
        CalmStep(s.rates[e.i], e.a);
      } else if e.StopRate? {
        CalmStep(s.rates[e.i], Control);
      }
      PromptTracesAreCalm(Happen(s, e), es[1..]);
    }
  }

  lemma CalmIsNotStuck(s: System)
    requires Balanced(s) && AllCalm(s) && s.stopping && s.toSend > 0
    ensures !Stuck(s)
  {
    CountZeroIff(s.rates, Unstopped);
    CountZeroIff(s.ops, Unfinished);
  }

  lemma {:induction false} JoinTraces(s: System, xs: seq<Event>, ys: seq<Event>)
    requires |s.rates| == |s.ops| && Trace(s, xs, true) && Trace(s, xs, false)
    requires Trace(Outcome(s, xs), ys, true) && Trace(Outcome(s, xs), ys, false)
    ensures Trace(s, xs + ys, true) && Trace(s, xs + ys, false)
    ensures Outcome(s, xs + ys) == Outcome(Outcome(s, xs), ys)
    decreases |xs|
  {
    if xs == [] {
      assert xs + ys == ys;
    } else {
      assert (xs + ys)[1..] == xs[1..] + ys;
      JoinTraces(Happen(s, xs[0]), xs[1..], ys);
    }
  }

  lemma {:induction false} FinishFrom(s: System) returns (es: seq<Event>)
    requires Balanced(s) && AllCalm(s) && s.stopping
    ensures Trace(s, es, true) && Trace(s, es, false) && Outcome(s, es).toSend == 0
    decreases s.toSend
  {
    es := [];
    if s.toSend > 0 {
      CalmIsNotStuck(s);
      var first := NextMessage(s);
      PromptTracesAreCalm(s, first);
      var rest := FinishFrom(Outcome(s, first));
      JoinTraces(s, first, rest);
      es := first + rest;
    }
  }

  /** Whatever has happened before and since stopRoutines was called, under the timing
      assumption it can still send all its messages: no reachable state is a trap. */
  lemma StopCanAlwaysFinish(specs: seq<Spec>, es: seq<Event>) returns (more: seq<Event>)
    requires Trace(Start(specs), es, true)
    ensures Trace(Start(specs), es, false)
    ensures var s := Outcome(Start(specs), es);
            s.stopping ==> Trace(s, more, true) && Trace(s, more, false) && Outcome(s, more).toSend == 0
  {
    StartBalanced(specs);
    PromptTracesAreCalm(Start(specs), es);
    more := [];
    if Outcome(Start(specs), es).stopping {
      more := FinishFrom(Outcome(Start(specs), es));
    }
  }
}
