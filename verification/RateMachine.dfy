/** One rate goroutine, the timer goroutines it starts, and the unbuffered channel
    `pin` they share, as a machine whose actions interleave freely.  A timer sends
    its ticks on `pin`; the rate sends on the same channel to stop a timer. */
module RateMachine {
  import opened TriangleWave

  datatype Spec =
    | Single(interval: int)
    | IncDec(inc: int, dec: int, min: int, max: int)

  /** AtSelect: about to poll `pin`.  Passed: the poll fell through to its default,
      the count is still to be compared.  Sending: blocked on a tick. */
  datatype TimerPc = AtSelect | Passed | Sending | Sleeping | Exited

  datatype Timer = Timer(rising: bool, interval: int, count: int, pc: TimerPc)

  /** Pending: running the code between the last receive and a stop send.
      Parked: blocked in that send.  Turn stops belong to a turning point of the
      wave, Quit stops to a message on the control channel. */
  datatype RatePc =
    | Waiting | TurnPending | TurnParked | Spawning | Offering
    | QuitPending | QuitParked | Gone

  /** `ticks` and `delivered` are histories: ticks received, values the consumer took. */
  datatype Rate = Rate(spec: Spec, pc: RatePc, counter: Counter, timers: seq<Timer>,
                       ticks: nat, delivered: seq<int>)

  datatype Act =
    | Pass(i: nat) | Check(i: nat) | Wake(i: nat)
    | TakeStop(i: nat) | TakeTick(i: nat, j: nat)
    | Tick(i: nat) | Control | Park | Spawn | Offer(taken: bool)

  function NewTimer(spec: Spec, rising: bool): Timer {
    Timer(rising, if spec.Single? then spec.interval else if rising then spec.inc else spec.dec, 0, AtSelect)
  }

  function Launch(spec: Spec): Rate {
    Rate(spec, Waiting, if spec.Single? then Counter(1, true) else Counter(spec.min, true),
         [NewTimer(spec, true)], 0, [])
  }

  predicate TimerAt(s: Rate, i: nat, pc: TimerPc) {
    i < |s.timers| && s.timers[i].pc == pc
  }

  predicate Parked(s: Rate) {
    s.pc.TurnParked? || s.pc.QuitParked?
  }

  /** A poll takes its default only when no rate is already blocked sending. */
  predicate Enabled(s: Rate, a: Act) {
    match a
    case Pass(i) => TimerAt(s, i, AtSelect) && !Parked(s)
    case Check(i) => TimerAt(s, i, Passed)
    case Wake(i) => TimerAt(s, i, Sleeping)
    case TakeStop(i) => TimerAt(s, i, AtSelect) && Parked(s)
    case TakeTick(i, j) => TimerAt(s, i, AtSelect) && TimerAt(s, j, Sending)
    case Tick(i) => TimerAt(s, i, Sending) && s.pc.Waiting?
    case Control => s.pc.Waiting?
    case Park => s.pc.TurnPending? || s.pc.QuitPending?
    case Spawn => s.pc.Spawning?
    case Offer(taken) => s.pc.Offering?
  }

  function Move(s: Rate, i: nat, pc: TimerPc, count: int): Rate
    requires i < |s.timers|
  {
    s.(timers := s.timers[i := s.timers[i].(pc := pc, count := count)])
  }

  function Do(s: Rate, a: Act): Rate
    requires Enabled(s, a)
  {
    match a
    case Pass(i) => Move(s, i, Passed, s.timers[i].count)
    case Check(i) =>
      if s.timers[i].count == s.timers[i].interval then Move(s, i, Sending, 0)
      else Move(s, i, Sleeping, s.timers[i].count)
    case Wake(i) => Move(s, i, AtSelect, s.timers[i].count + 1)
    case TakeStop(i) => Move(s, i, Exited, s.timers[i].count).(pc := if s.pc.TurnParked? then Spawning else Gone)
    case TakeTick(i, j) => Move(Move(s, i, Exited, s.timers[i].count), j, Sleeping, s.timers[j].count)
    case Tick(i) =>
      var s := Move(s, i, Sleeping, s.timers[i].count).(ticks := s.ticks + 1);
      if s.spec.Single? then s.(pc := Offering)
      else
        var c := Advance(s.counter, s.spec.min, s.spec.max);
        s.(counter := c, pc := if c.goingUp == s.counter.goingUp then Offering else TurnPending)
    case Control => s.(pc := QuitPending)
    case Park => s.(pc := if s.pc.TurnPending? then TurnParked else QuitParked)
    case Spawn => s.(timers := s.timers + [NewTimer(s.spec, s.counter.goingUp)], pc := Offering)
    case Offer(taken) =>
      if taken then s.(pc := Waiting, delivered := s.delivered + [s.counter.value]) else s.(pc := Waiting)
  }

  /** The timing assumption behind a turning point: a timer's one-second sleep
      outlasts the few instructions between the rate's receive and its next send. */
  predicate Prompt(s: Rate, a: Act) {
    a.Wake? ==> !s.pc.TurnPending? && !s.pc.QuitPending?
  }

  /** `acts` can be performed in order from `s`, keeping to the timing assumption if `prompt`. */
  predicate Legal(s: Rate, acts: seq<Act>, prompt: bool)
    decreases |acts|
  {
    acts == [] ||
    (Enabled(s, acts[0]) && (prompt ==> Prompt(s, acts[0])) && Legal(Do(s, acts[0]), acts[1..], prompt))
  }

  function After(s: Rate, acts: seq<Act>): Rate
    requires Legal(s, acts, false)
    decreases |acts|
  {
    if acts == [] then s else After(Do(s, acts[0]), acts[1..])
  }

  lemma {:induction false} PromptIsLegal(s: Rate, acts: seq<Act>)
    requires Legal(s, acts, true)
    ensures Legal(s, acts, false)
    decreases |acts|
  {
    if acts != [] {
      PromptIsLegal(Do(s, acts[0]), acts[1..]);
    }
  }

  /** A run extended by one action at the end. */
  lemma {:induction false} Extend(s: Rate, acts: seq<Act>, a: Act, prompt: bool)
    requires Legal(s, acts, prompt) && Legal(s, acts, false)
    requires Enabled(After(s, acts), a) && (prompt ==> Prompt(After(s, acts), a))
    ensures Legal(s, acts + [a], prompt) && Legal(s, acts + [a], false)
    ensures After(s, acts + [a]) == Do(After(s, acts), a)
    decreases |acts|
  {
    if acts == [] {
      assert (acts + [a])[1..] == [];
      assert Legal(Do(s, a), [], prompt);
    } else {
      assert (acts + [a])[1..] == acts[1..] + [a];
      Extend(Do(s, acts[0]), acts[1..], a, prompt);
    }
  }

  /** A run built front to back. */
  lemma Cons(s: Rate, a: Act, acts: seq<Act>, prompt: bool)
    requires Enabled(s, a) && (prompt ==> Prompt(s, a))
    requires Legal(Do(s, a), acts, prompt) && Legal(Do(s, a), acts, false)
    ensures Legal(s, [a] + acts, prompt) && Legal(s, [a] + acts, false)
    ensures After(s, [a] + acts) == After(Do(s, a), acts)
  {
    assert ([a] + acts)[1..] == acts;
  }

  // ----- what every step keeps -----

  function Current(s: Rate): Timer
    requires |s.timers| > 0
  {
    s.timers[|s.timers| - 1]
  }

  /** xs can be obtained from ys by leaving elements out. */
  ghost predicate Subsequence(xs: seq<int>, ys: seq<int>) {
    xs == [] ||
    (ys != [] &&
     ((xs[|xs| - 1] == ys[|ys| - 1] && Subsequence(xs[..|xs| - 1], ys[..|ys| - 1])) ||
      Subsequence(xs, ys[..|ys| - 1])))
  }

  /** The value on offer after the t-th tick. */
  function Level(spec: Spec, t: nat): int {
    if spec.Single? then 1 else CounterAt(spec.min, spec.max, t).value
  }

  ghost function Levels(spec: Spec, t: nat): seq<int> {
    if t == 0 then [] else Levels(spec, t - 1) + [Level(spec, t)]
  }

  /** The rate is between receiving a tick and offering its value. */
  predicate Owing(s: Rate) {
    InTurn(s) || s.pc.Offering?
  }

  predicate InTurn(s: Rate) {
    s.pc.TurnPending? || s.pc.TurnParked? || s.pc.Spawning?
  }

  /** At most the newest timer is alive, and it is gone exactly when the rate has just
      stopped it; outside a turn the live timer is the one for the current direction. */
  ghost predicate OneTimer(s: Rate) {
    && |s.timers| > 0
    && (forall i :: 0 <= i < |s.timers| - 1 ==> s.timers[i].pc.Exited?)
    && (Current(s).pc.Exited? <==> s.pc.Spawning? || s.pc.Gone?)
    && (Current(s).rising == if InTurn(s) then !s.counter.goingUp else s.counter.goingUp)
    && (Current(s).interval == NewTimer(s.spec, Current(s).rising).interval)
  }

  /** The counter is on the wave. */
  ghost predicate OnWave(s: Rate) {
    && (s.spec.Single? ==> s.counter == Counter(1, true) && !InTurn(s))
    && (s.spec.IncDec? ==> s.counter == CounterAt(s.spec.min, s.spec.max, s.ticks))
  }

  /** The consumer saw part of the wave, in order. */
  ghost predicate SentWave(s: Rate) {
    (Owing(s) ==> s.ticks > 0) && Subsequence(s.delivered, Levels(s.spec, OfferedTicks(s)))
  }

  /** The number of ticks whose value the rate is done offering. */
  ghost function OfferedTicks(s: Rate): nat {
    if Owing(s) && s.ticks > 0 then s.ticks - 1 else s.ticks
  }

  ghost predicate Inv(s: Rate) {
    OneTimer(s) && OnWave(s) && SentWave(s)
  }

  lemma NewestOnly(s: Rate, a: Act)
    requires OneTimer(s) && OnWave(s) && Enabled(s, a)
    ensures a.Tick? || a.TakeStop? || a.Pass? || a.Check? || a.Wake? ==> a.i == |s.timers| - 1
    ensures !a.TakeTick?
  {
  }

  lemma TimersStep(s: Rate, a: Act)
    requires OneTimer(s) && OnWave(s) && Enabled(s, a)
    ensures OneTimer(Do(s, a))
  {
    NewestOnly(s, a);
  }

  lemma WaveStep(s: Rate, a: Act)
    requires OneTimer(s) && OnWave(s) && Enabled(s, a)
    ensures OnWave(Do(s, a)) && Do(s, a).spec == s.spec
  {
    NewestOnly(s, a);
  }

  lemma OneTimerStep(s: Rate, a: Act)
    requires OneTimer(s) && OnWave(s) && Enabled(s, a)
    ensures OneTimer(Do(s, a)) && OnWave(Do(s, a)) && Do(s, a).spec == s.spec
    ensures !a.TakeTick?
  {
    NewestOnly(s, a);
    TimersStep(s, a);
    WaveStep(s, a);
  }

  lemma SubsequenceGrows(xs: seq<int>, ys: seq<int>, y: int)
    requires Subsequence(xs, ys)
    ensures Subsequence(xs, ys + [y]) && Subsequence(xs + [y], ys + [y])
  {
    assert (ys + [y])[..|ys|] == ys && (xs + [y])[..|xs|] == xs;
  }

  lemma OnlyOffersDeliver(s: Rate, a: Act)
    requires (s.spec.Single? ==> !InTurn(s)) && (Owing(s) ==> s.ticks > 0)
    requires Enabled(s, a) && !a.Offer?
    ensures Do(s, a).delivered == s.delivered && OfferedTicks(Do(s, a)) == OfferedTicks(s)
    ensures Owing(Do(s, a)) ==> Do(s, a).ticks > 0
  {
  }

  lemma OfferDelivers(s: Rate, taken: bool, s': Rate)
    requires OnWave(s) && SentWave(s) && s.pc.Offering?
    requires s' == s.(pc := Waiting, delivered := if taken then s.delivered + [s.counter.value] else s.delivered)
    ensures SentWave(s')
  {
    SubsequenceGrows(s.delivered, Levels(s.spec, s.ticks - 1), s.counter.value);
  }

  lemma SentWaveStep(s: Rate, a: Act, s': Rate)
    requires OnWave(s) && SentWave(s) && Enabled(s, a) && s' == Do(s, a) && s'.spec == s.spec
    ensures SentWave(s')
  {
    if a.Offer? {
      OfferDelivers(s, a.taken, s');
    } else {
      OnlyOffersDeliver(s, a);
    }
  }

  lemma InvStep(s: Rate, a: Act)
    requires Inv(s) && Enabled(s, a)
    ensures Inv(Do(s, a)) && Do(s, a).spec == s.spec
  {
    OneTimerStep(s, a);
    SentWaveStep(s, a, Do(s, a));
  }

  lemma InvLaunch(spec: Spec)
    ensures Inv(Launch(spec))
  {
  }

  /** In every run, under any scheduling: at most one timer can still operate on
      `pin`, outside a turn it is the increment timer exactly when the counter is
      going up, the counter is on the wave, and the consumer received a subsequence
      of the wave. */
  lemma {:induction false} EveryRunKeepsInv(s: Rate, acts: seq<Act>)
    requires Inv(s) && Legal(s, acts, false)
    ensures Inv(After(s, acts)) && After(s, acts).spec == s.spec
    decreases |acts|
  {
    if acts != [] {
      InvStep(s, acts[0]);
      EveryRunKeepsInv(Do(s, acts[0]), acts[1..]);
    }
  }
}
