/** What the consumer of a rate gets in a run, and how long the timers take. */
module Deliveries {
  import opened TriangleWave
  import opened RateMachine

  /** The value after t ticks: always 1 at a constant rate, otherwise the wave. */
  function ValueAt(spec: Spec, t: nat): int {
    match spec
    case Single(_) => 1
    case IncDec(_, _, min, max) => Wave(min, max, t)
  }

  function Ticks(acts: seq<Act>): nat {
    if acts == [] then 0 else (if acts[0].Tick? then 1 else 0) + Ticks(acts[1..])
  }

  /** The values that the consumer takes in a run that starts after t ticks: at each offer
      it is ready for, the value after the ticks so far. */
  function Taken(spec: Spec, t: nat, acts: seq<Act>): seq<int>
    decreases |acts|
  {
    if acts == [] then []
    else
      (if acts[0] == Offer(true) then [ValueAt(spec, t)] else []) +
      Taken(spec, if acts[0].Tick? then t + 1 else t, acts[1..])
  }

  lemma ValueIsLevel(spec: Spec, t: nat)
    ensures Level(spec, t) == ValueAt(spec, t)
  {
    if spec.IncDec? {
      if spec.min < spec.max {
        ClosedForm(spec.min, spec.max, t);
      } else {
        NeverTurns(spec.min, spec.max, t);
      }
    }
  }

  lemma StepDelivers(s: Rate, a: Act)
    requires Inv(s) && Enabled(s, a)
    ensures Do(s, a).delivered == s.delivered + if a == Offer(true) then [ValueAt(s.spec, s.ticks)] else []
    ensures Do(s, a).ticks == s.ticks + if a.Tick? then 1 else 0
  {
    ValueIsLevel(s.spec, s.ticks);
  }

  lemma {:induction false} DeliversFrom(s: Rate, acts: seq<Act>)
    requires Inv(s) && Legal(s, acts, false)
    ensures After(s, acts).delivered == s.delivered + Taken(s.spec, s.ticks, acts)
    ensures After(s, acts).ticks == s.ticks + Ticks(acts)
    decreases |acts|
  {
    if acts != [] {
      StepDelivers(s, acts[0]);
      InvStep(s, acts[0]);
      DeliversFrom(Do(s, acts[0]), acts[1..]);
      Joined(s.delivered, if acts[0] == Offer(true) then [ValueAt(s.spec, s.ticks)] else [], Taken(s.spec, Do(s, acts[0]).ticks, acts[1..]));
    }
  }

  lemma Joined(a: seq<int>, b: seq<int>, c: seq<int>)
    ensures (a + b) + c == a + (b + c)
  {
  }

  /** In every run the consumer gets, at each offer it is ready for and at no other time,
      the value of the wave after the ticks so far. */
  lemma DeliversTheWave(spec: Spec, acts: seq<Act>)
    requires Legal(Launch(spec), acts, false)
    ensures After(Launch(spec), acts).delivered == Taken(spec, 0, acts)
    ensures After(Launch(spec), acts).ticks == Ticks(acts)
  {
    InvLaunch(spec);
    DeliversFrom(Launch(spec), acts);
  }

  // ----- seconds -----

  /** How often timer i sleeps for a second, and how often its tick is received. */
  function Seconds(acts: seq<Act>, i: nat): nat {
    if acts == [] then 0 else (if acts[0] == Wake(i) then 1 else 0) + Seconds(acts[1..], i)
  }

  function TicksOf(acts: seq<Act>, i: nat): nat {
    if acts == [] then 0 else (if acts[0] == Tick(i) then 1 else 0) + TicksOf(acts[1..], i)
  }

  /** The seconds since the last tick; a full interval when the next tick is due. */
  function Since(t: Timer): int {
    if t.pc.Sending? then t.interval else t.count
  }

  function SinceAt(s: Rate, i: nat): int {
    if i < |s.timers| then Since(s.timers[i]) else 0
  }

  lemma StepSeconds(s: Rate, a: Act, i: nat)
    requires Inv(s) && Enabled(s, a)
    requires forall j :: 0 <= j < |s.timers| ==> s.timers[j].pc.Sending? ==> s.timers[j].count == 0
    ensures forall j :: 0 <= j < |Do(s, a).timers| ==> Do(s, a).timers[j].pc.Sending? ==> Do(s, a).timers[j].count == 0
    ensures |s.timers| <= |Do(s, a).timers|
    ensures i < |s.timers| ==> Do(s, a).timers[i].interval == s.timers[i].interval
    ensures i < |Do(s, a).timers| ==>
              SinceAt(Do(s, a), i) + (if a == Tick(i) then Do(s, a).timers[i].interval else 0) ==
                SinceAt(s, i) + if a == Wake(i) then 1 else 0
    ensures i >= |Do(s, a).timers| ==> a != Wake(i) && a != Tick(i)
  {
    NewestOnly(s, a);
  }

  lemma {:induction false} SecondsFrom(s: Rate, acts: seq<Act>, i: nat)
    requires Inv(s) && Legal(s, acts, false) && i < |After(s, acts).timers|
    requires forall j :: 0 <= j < |s.timers| ==> s.timers[j].pc.Sending? ==> s.timers[j].count == 0
    ensures i < |s.timers| ==> After(s, acts).timers[i].interval == s.timers[i].interval
    ensures SinceAt(After(s, acts), i) + TicksOf(acts, i) * After(s, acts).timers[i].interval == SinceAt(s, i) + Seconds(acts, i)
    decreases |acts|
  {
    if acts != [] {
      StepSeconds(s, acts[0], i);
      InvStep(s, acts[0]);
      SecondsFrom(Do(s, acts[0]), acts[1..], i);
      OneMoreTick(if acts[0] == Tick(i) then 1 else 0, TicksOf(acts[1..], i), After(s, acts).timers[i].interval);
      TimersStay(Do(s, acts[0]), acts[1..], i);
    }
  }

  lemma OneMoreTick(k: nat, n: nat, interval: int)
    requires k <= 1
    ensures (k + n) * interval == (if k == 1 then interval else 0) + n * interval
  {
  }

  lemma {:induction false} TimersStay(s: Rate, acts: seq<Act>, i: nat)
    requires Legal(s, acts, false)
    ensures |s.timers| <= |After(s, acts).timers|
    ensures i < |s.timers| ==> After(s, acts).timers[i].interval == s.timers[i].interval
    decreases |acts|
  {
    if acts != [] {
      TimersStay(Do(s, acts[0]), acts[1..], i);
    }
  }

  /** In every run each timer ticks once for every `interval` seconds it has slept: what it
      slept since the last tick is its count, or a full interval when a tick is due. */
  lemma TicksEveryInterval(spec: Spec, acts: seq<Act>, i: nat)
    requires Legal(Launch(spec), acts, false) && i < |After(Launch(spec), acts).timers|
    ensures var t := After(Launch(spec), acts).timers[i];
            Seconds(acts, i) == TicksOf(acts, i) * t.interval + if t.pc.Sending? then t.interval else t.count
    ensures i == 0 ==> After(Launch(spec), acts).timers[i].interval == if spec.Single? then spec.interval else spec.inc
  {
    InvLaunch(spec);
    SecondsFrom(Launch(spec), acts, i);
  }
}
