/** Workload instances: the first launch and the passes that replace completed instances,
    interleaved with completions.  One document, of a bare pod or of a job, marked as a
    duplicate, on a fresh instance counter. */
module TopUp {

  // ----- instances -----

  /** How far an instance is.  A bare pod is there at once; the pod of a job comes later,
      and the job is done some time after its pod has succeeded. */
  datatype Stage = NoPod | Running | Succeeded | Done

  datatype Instance = Instance(number: int, isJob: bool, stage: Stage)

  function Fresh(number: int, asJob: bool): Instance {
    Instance(number, asJob, if asJob then NoPod else Running)
  }

  function NextStage(x: Instance): Stage {
    if !x.isJob then Done
    else match x.stage
      case NoPod => Running
      case Running => Succeeded
      case Succeeded => Done
      case Done => Done
  }

  function Sum(xs: seq<Instance>, f: Instance -> nat): nat {
    if xs == [] then 0 else Sum(xs[..|xs| - 1], f) + f(xs[|xs| - 1])
  }

  function PodSucceeded(x: Instance): nat {
    if x.stage.Succeeded? || x.stage.Done? then 1 else 0
  }

  function PodRunning(x: Instance): nat {
    if x.stage.Running? then 1 else 0
  }

  function JobDone(x: Instance): nat {
    if x.isJob && x.stage.Done? then 1 else 0
  }

  function JobGoing(x: Instance): nat {
    if x.isJob && !x.stage.Done? then 1 else 0
  }

  /** What an instance adds to the two counts: its pod and, if it is a job, the job too. */
  function CompleteIn(x: Instance): nat {
    PodSucceeded(x) + JobDone(x)
  }

  function NotCompleteIn(x: Instance): nat {
    PodRunning(x) + JobGoing(x)
  }

  /** Whether the instance itself is still to be done. */
  function GoingIn(x: Instance): nat {
    if x.stage.Done? then 0 else 1
  }

  function HasPod(x: Instance): nat {
    if x.stage.NoPod? then 0 else 1
  }

  function Objects(x: Instance): nat {
    CompleteIn(x) + NotCompleteIn(x)
  }

  function Completed(xs: seq<Instance>): nat {
    Sum(xs, CompleteIn)
  }

  function NotComplete(xs: seq<Instance>): nat {
    Sum(xs, NotCompleteIn)
  }

  function Going(xs: seq<Instance>): nat {
    Sum(xs, GoingIn)
  }

  lemma {:induction false} SumUpdate(xs: seq<Instance>, i: nat, x: Instance, f: Instance -> nat)
    requires i < |xs|
    ensures Sum(xs[i := x], f) == Sum(xs, f) - f(xs[i]) + f(x)
  {
    var n := |xs| - 1;
    if i == n {
      assert xs[i := x][..n] == xs[..n];
    } else {
      assert xs[i := x][..n] == xs[..n][i := x];
      SumUpdate(xs[..n], i, x, f);
    }
  }

  lemma SumAppend(xs: seq<Instance>, x: Instance, f: Instance -> nat)
    ensures Sum(xs + [x], f) == Sum(xs, f) + f(x)
  {
    assert (xs + [x])[..|xs|] == xs;
  }

  lemma {:induction false} SumSplits(xs: seq<Instance>, f: Instance -> nat, g: Instance -> nat, h: Instance -> nat)
    requires forall i :: 0 <= i < |xs| ==> f(xs[i]) == g(xs[i]) + h(xs[i])
    ensures Sum(xs, f) == Sum(xs, g) + Sum(xs, h)
  {
    if xs != [] {
      SumSplits(xs[..|xs| - 1], f, g, h);
    }
  }

  predicate Exists(xs: seq<Instance>, w: int) {
    exists i :: 0 <= i < |xs| && xs[i].number == w
  }

  /** Creating an instance; that it exists already is not an error. */
  function Created(xs: seq<Instance>, w: int, asJob: bool): seq<Instance> {
    if Exists(xs, w) then xs else xs + [Fresh(w, asJob)]
  }

  /** How many of the numbers from lo up to hi are free. */
  function Free(xs: seq<Instance>, lo: int, hi: int): nat
    decreases hi - lo
  {
    if hi <= lo then 0 else Free(xs, lo, hi - 1) + if Exists(xs, hi - 1) then 0 else 1
  }

  // ----- steps -----

  /** How many instances are wanted, and of which kind. */
  datatype Config = Config(count: nat, asJob: bool)

  /** What the controller is doing: going through the first launch, between passes, or in
      a pass that is about to create number `next` and stops before `end`. */
  datatype Activity = Launching(made: nat) | Idle | TopUp(next: int, end: int)

  datatype State = State(instances: seq<Instance>, counter: int, activity: Activity)

  const INITIAL := State([], -1, Launching(0))

  datatype Event =
    | Advance(i: nat)
    | LaunchOne(accepted: bool)
    | LaunchDone
    | Begin
    | CreateNext(accepted: bool)
    | EndPass

  predicate Enabled(c: Config, s: State, e: Event) {
    match e
    case Advance(i) => i < |s.instances| && !s.instances[i].stage.Done?
    case LaunchOne(_) => s.activity.Launching? && s.activity.made < c.count
    case LaunchDone => s.activity.Launching? && s.activity.made >= c.count
    case Begin => s.activity.Idle?
    case CreateNext(_) => s.activity.TopUp? && s.activity.next < s.activity.end
    case EndPass => s.activity.TopUp? && s.activity.next >= s.activity.end
  }

  function Advanced(xs: seq<Instance>, i: nat): seq<Instance>
    requires i < |xs|
  {
    xs[i := xs[i].(stage := NextStage(xs[i]))]
  }

  /** A creation that fails ends a pass, and makes the launch start over with the counter
      where it is.  A pass numbers from what it has counted. */
  function Do(c: Config, s: State, e: Event): State
    requires Enabled(c, s, e)
  {
    match e
    case Advance(i) => s.(instances := Advanced(s.instances, i))
    case LaunchOne(accepted) =>
      if accepted then State(Created(s.instances, s.counter + 1, c.asJob), s.counter + 1, Launching(s.activity.made + 1))
      else s.(counter := s.counter + 1, activity := Launching(0))
    case LaunchDone => s.(activity := Idle)
    case Begin =>
      if c.count - NotComplete(s.instances) <= 0 then s
      else s.(activity := TopUp(Completed(s.instances) + NotComplete(s.instances), Completed(s.instances) + c.count))
    case CreateNext(accepted) =>
      if accepted then
        s.(instances := Created(s.instances, s.activity.next, c.asJob), activity := TopUp(s.activity.next + 1, s.activity.end))
      else s.(activity := Idle)
    case EndPass => s.(activity := Idle)
  }

  /** Runs: sequences of events, each enabled where it happens. */
  predicate Legal(c: Config, s: State, run: seq<Event>)
    decreases |run|, 0
  {
    run == [] || (Legal(c, s, run[..|run| - 1]) && Enabled(c, After(c, s, run[..|run| - 1]), run[|run| - 1]))
  }

  function After(c: Config, s: State, run: seq<Event>): State
    requires Legal(c, s, run)
    decreases |run|, 1
  {
    if run == [] then s else Do(c, After(c, s, run[..|run| - 1]), run[|run| - 1])
  }

  lemma Extend(c: Config, s: State, run: seq<Event>, e: Event)
    requires Legal(c, s, run) && Enabled(c, After(c, s, run), e)
    ensures Legal(c, s, run + [e])
    ensures After(c, s, run + [e]) == Do(c, After(c, s, run), e)
  {
    assert (run + [e])[..|run|] == run;
  }

  function Tally(run: seq<Event>, e: Event): nat {
    if run == [] then 0
    else Tally(run[..|run| - 1], e) + if run[|run| - 1] == e then 1 else 0
  }

  /** How many creations the API server accepts in a run. */
  function Accepted(run: seq<Event>): nat {
    Tally(run, LaunchOne(true)) + Tally(run, CreateNext(true))
  }

  /** How many instances are done in a run. */
  function Finishes(c: Config, s: State, run: seq<Event>): nat
    requires Legal(c, s, run)
    decreases |run|
  {
    if run == [] then 0
    else
      var init, e := run[..|run| - 1], run[|run| - 1];
      Finishes(c, s, init) +
      if e.Advance? && NextStage(After(c, s, init).instances[e.i]).Done? then 1 else 0
  }

  // ----- instances of one kind -----

  ghost predicate AllOf(xs: seq<Instance>, asJob: bool) {
    forall i :: 0 <= i < |xs| ==> xs[i].isJob == asJob && (!asJob ==> xs[i].stage.Running? || xs[i].stage.Done?)
  }

  lemma StepKeepsKind(c: Config, s: State, e: Event)
    requires AllOf(s.instances, c.asJob) && Enabled(c, s, e)
    ensures AllOf(Do(c, s, e).instances, c.asJob)
  {
  }

  lemma {:induction false} EveryRunKeepsKind(c: Config, run: seq<Event>)
    requires Legal(c, INITIAL, run)
    ensures AllOf(After(c, INITIAL, run).instances, c.asJob)
    decreases |run|
  {
    if run != [] {
      EveryRunKeepsKind(c, run[..|run| - 1]);
      StepKeepsKind(c, After(c, INITIAL, run[..|run| - 1]), run[|run| - 1]);
    }
  }

  function One(x: Instance): nat {
    1
  }

  function Zero(x: Instance): nat {
    0
  }

  lemma {:induction false} LengthIsSum(xs: seq<Instance>)
    ensures Sum(xs, One) == |xs|
  {
    if xs != [] {
      LengthIsSum(xs[..|xs| - 1]);
    }
  }

  /** Bare pods are counted once each. */
  lemma PodsCountOnce(xs: seq<Instance>)
    requires AllOf(xs, false)
    ensures Completed(xs) + NotComplete(xs) == |xs| && NotComplete(xs) == Going(xs)
  {
    LengthIsSum(xs);
    SumSplits(xs, One, CompleteIn, NotCompleteIn);
    SumSplits(xs, NotCompleteIn, GoingIn, Zero);
    ZeroSum(xs);
  }

  lemma {:induction false} ZeroSum(xs: seq<Instance>)
    ensures Sum(xs, Zero) == 0
  {
    if xs != [] {
      ZeroSum(xs[..|xs| - 1]);
    }
  }

  /** A job is counted together with its pod, once it has one. */
  lemma JobsCountTwice(xs: seq<Instance>)
    requires AllOf(xs, true)
    ensures NotComplete(xs) == Going(xs) + Sum(xs, PodRunning)
    ensures |xs| <= Completed(xs) + NotComplete(xs)
    ensures Completed(xs) + NotComplete(xs) == |xs| + Sum(xs, HasPod)
  {
    SumSplits(xs, NotCompleteIn, GoingIn, PodRunning);
    LengthIsSum(xs);
    SumSplits(xs, Objects, One, HasPod);
    SumSplits(xs, Objects, CompleteIn, NotCompleteIn);
  }

  // ----- what a pass creates -----

  /** The events between the two ends of a pass that is not cut short. */
  predicate Undisturbed(e: Event) {
    e.Advance? || e == CreateNext(true)
  }

  ghost predicate AllUndisturbed(run: seq<Event>) {
    forall i :: 0 <= i < |run| ==> Undisturbed(run[i])
  }

  lemma {:induction false} FreeBound(xs: seq<Instance>, lo: int, hi: int)
    requires lo <= hi
    ensures Free(xs, lo, hi) <= hi - lo
    ensures Free(xs, lo, hi) == hi - lo <==> forall w :: lo <= w < hi ==> !Exists(xs, w)
    decreases hi - lo
  {
    if lo < hi {
      FreeBound(xs, lo, hi - 1);
    }
  }

  lemma AdvanceCounts(xs: seq<Instance>, i: nat)
    requires i < |xs| && !xs[i].stage.Done?
    ensures Going(Advanced(xs, i)) == Going(xs) - if NextStage(xs[i]).Done? then 1 else 0
    ensures forall w :: Exists(Advanced(xs, i), w) <==> Exists(xs, w)
  {
    SumUpdate(xs, i, xs[i].(stage := NextStage(xs[i])), GoingIn);
    var ys := Advanced(xs, i);
    forall w
      ensures Exists(ys, w) <==> Exists(xs, w)
    {
      if j :| 0 <= j < |xs| && xs[j].number == w {
        assert ys[j].number == w;
      }
      if j :| 0 <= j < |ys| && ys[j].number == w {
        assert xs[j].number == w;
      }
    }
  }

  lemma CreateCounts(xs: seq<Instance>, w: int, asJob: bool)
    ensures Going(Created(xs, w, asJob)) == Going(xs) + if Exists(xs, w) then 0 else 1
    ensures forall v :: Exists(Created(xs, w, asJob), v) <==> Exists(xs, v) || v == w
  {
    if !Exists(xs, w) {
      var x := Fresh(w, asJob);
      SumAppend(xs, x, GoingIn);
      assert (xs + [x])[|xs|] == x;
      assert forall i :: 0 <= i < |xs| ==> (xs + [x])[i] == xs[i];
    }
  }

  lemma FreeStep(xs: seq<Instance>, lo: int, hi: int)
    requires lo <= hi
    ensures Free(xs, lo, hi + 1) == Free(xs, lo, hi) + if Exists(xs, hi) then 0 else 1
  {
  }

  /** In a pass that began in s, with `finished` instances done since: which numbers exist,
      and how many instances are going. */
  ghost predicate PassSoFar(s: State, t: State, finished: nat) {
    && s.activity.TopUp? && t.activity.TopUp? && t.activity.end == s.activity.end
    && s.activity.next <= t.activity.next
    && (t.activity.next <= t.activity.end || t.activity.next == s.activity.next)
    && (forall w :: Exists(t.instances, w) <==> Exists(s.instances, w) || s.activity.next <= w < t.activity.next)
    && Going(t.instances) + finished == Going(s.instances) + Free(s.instances, s.activity.next, t.activity.next)
  }

  lemma PassAdvance(c: Config, s: State, t: State, finished: nat, i: nat)
    requires PassSoFar(s, t, finished) && Enabled(c, t, Advance(i))
    ensures PassSoFar(s, Do(c, t, Advance(i)), finished + if NextStage(t.instances[i]).Done? then 1 else 0)
  {
    AdvanceCounts(t.instances, i);
  }

  lemma PassCreate(c: Config, s: State, t: State, finished: nat)
    requires PassSoFar(s, t, finished) && Enabled(c, t, CreateNext(true))
    ensures PassSoFar(s, Do(c, t, CreateNext(true)), finished)
  {
    CreateCounts(t.instances, t.activity.next, c.asJob);
    FreeStep(s.instances, s.activity.next, t.activity.next);
  }

  lemma {:induction false} DuringPass(c: Config, s: State, mid: seq<Event>)
    requires s.activity.TopUp? && Legal(c, s, mid) && AllUndisturbed(mid)
    ensures PassSoFar(s, After(c, s, mid), Finishes(c, s, mid))
    decreases |mid|
  {
    if mid != [] {
      var init, e := mid[..|mid| - 1], mid[|mid| - 1];
      DuringPass(c, s, init);
      if e.Advance? {
        PassAdvance(c, s, After(c, s, init), Finishes(c, s, init), e.i);
      } else {
        PassCreate(c, s, After(c, s, init), Finishes(c, s, init));
      }
    }
  }

  /** The state at the end of a pass that is not cut short. */
  ghost predicate IsPass(c: Config, s: State, mid: seq<Event>) {
    && s.activity.Idle? && NotComplete(s.instances) < c.count
    && var m := Do(c, s, Begin);
       Legal(c, m, mid) && AllUndisturbed(mid) && Enabled(c, After(c, m, mid), EndPass)
  }

  ghost function PassEnd(c: Config, s: State, mid: seq<Event>): State
    requires IsPass(c, s, mid)
  {
    Do(c, After(c, Do(c, s, Begin), mid), EndPass)
  }

  /** Instances that are going at the end of a pass, and those that finished during it. */
  ghost function Reached(c: Config, s: State, mid: seq<Event>): nat
    requires IsPass(c, s, mid)
  {
    Going(PassEnd(c, s, mid).instances) + Finishes(c, Do(c, s, Begin), mid)
  }

  /** From any state, of any kind of document: a pass adds as many instances as there are
      free numbers in its range. */
  lemma PassAddsFree(c: Config, s: State, mid: seq<Event>)
    requires IsPass(c, s, mid)
    ensures var complete, notComplete := Completed(s.instances), NotComplete(s.instances);
            Reached(c, s, mid) == Going(s.instances) + Free(s.instances, complete + notComplete, complete + c.count)
  {
    var m := Do(c, s, Begin);
    DuringPass(c, m, mid);
    assert After(c, m, mid).activity.next == m.activity.end;
  }

  /** A pass over bare pods tops up exactly when no number in its range is taken, and
      otherwise comes short by as many as are. */
  lemma TopsUpIff(c: Config, s: State, mid: seq<Event>)
    requires IsPass(c, s, mid) && AllOf(s.instances, false)
    ensures var n, end := |s.instances|, Completed(s.instances) + c.count;
            && Reached(c, s, mid) == c.count - ((end - n) - Free(s.instances, n, end))
            && (Reached(c, s, mid) == c.count <==> forall w :: n <= w < end ==> !Exists(s.instances, w))
  {
    PassAddsFree(c, s, mid);
    PodsCountOnce(s.instances);
    FreeBound(s.instances, |s.instances|, Completed(s.instances) + c.count);
  }

  // ----- skipped numbers -----

  ghost predicate NumbersBelow(xs: seq<Instance>, n: int) {
    forall i :: 0 <= i < |xs| ==> xs[i].number < n
  }

  ghost predicate Distinct(xs: seq<Instance>) {
    forall i, j :: 0 <= i < j < |xs| ==> xs[i].number != xs[j].number
  }

  /** What holds in every run, however many creations fail. */
  ghost predicate Sound(s: State) {
    && Distinct(s.instances) && (forall i :: 0 <= i < |s.instances| ==> s.instances[i].number >= 0)
    && s.counter >= -1 && (s.activity.TopUp? ==> s.activity.next >= 0)
  }

  lemma StepKeepsSound(c: Config, s: State, e: Event)
    requires Sound(s) && Enabled(c, s, e)
    ensures Sound(Do(c, s, e))
  {
  }

  lemma {:induction false} EveryRunIsSound(c: Config, run: seq<Event>)
    requires Legal(c, INITIAL, run)
    ensures Sound(After(c, INITIAL, run))
    decreases |run|
  {
    if run != [] {
      EveryRunIsSound(c, run[..|run| - 1]);
      StepKeepsSound(c, After(c, INITIAL, run[..|run| - 1]), run[|run| - 1]);
    }
  }

  function Below(hi: int): Instance -> nat {
    (x: Instance) => if x.number < hi then 1 else 0
  }

  lemma {:induction false} OneMoreBelow(xs: seq<Instance>, hi: int)
    requires Distinct(xs)
    ensures Sum(xs, Below(hi + 1)) == Sum(xs, Below(hi)) + if Exists(xs, hi) then 1 else 0
  {
    if xs != [] {
      var n := |xs| - 1;
      OneMoreBelow(xs[..n], hi);
      assert Exists(xs, hi) <==> Exists(xs[..n], hi) || xs[n].number == hi by {
        if i :| 0 <= i < n && xs[i].number == hi {
          assert xs[..n][i].number == hi;
        }
        if i :| 0 <= i < n && xs[..n][i].number == hi {
          assert xs[i].number == hi;
        }
      }
      if xs[n].number == hi {
        assert forall i :: 0 <= i < n ==> xs[..n][i].number != hi;
      }
    }
  }

  /** Free numbers below a bound, by counting the others. */
  lemma {:induction false} FreeIsRest(xs: seq<Instance>, hi: nat)
    requires Distinct(xs) && forall i :: 0 <= i < |xs| ==> xs[i].number >= 0
    ensures Free(xs, 0, hi) + Sum(xs, Below(hi)) == hi
  {
    if hi == 0 {
      SumSplits(xs, Below(0), Zero, Zero);
      ZeroSum(xs);
    } else {
      FreeIsRest(xs, hi - 1);
      OneMoreBelow(xs, hi - 1);
    }
  }

  lemma {:induction false} FreeAdds(xs: seq<Instance>, lo: int, mid: int, hi: int)
    requires lo <= mid <= hi
    ensures Free(xs, lo, hi) == Free(xs, lo, mid) + Free(xs, mid, hi)
    decreases hi - mid
  {
    if mid < hi {
      FreeAdds(xs, lo, mid, hi - 1);
    }
  }

  lemma {:induction false} BelowIsAllIff(xs: seq<Instance>, hi: int)
    ensures Sum(xs, Below(hi)) <= |xs|
    ensures Sum(xs, Below(hi)) == |xs| <==> forall i :: 0 <= i < |xs| ==> xs[i].number < hi
  {
    if xs != [] {
      BelowIsAllIff(xs[..|xs| - 1], hi);
    }
  }

  /** Numbers are taken from n = |xs| on only because as many below n were skipped. */
  lemma TakenBySkipping(xs: seq<Instance>, end: nat)
    requires Distinct(xs) && (forall i :: 0 <= i < |xs| ==> xs[i].number >= 0) && |xs| <= end
    ensures var taken, skipped := (end - |xs|) - Free(xs, |xs|, end), Free(xs, 0, |xs|);
            && 0 <= taken <= skipped
            && (taken == skipped <==> NumbersBelow(xs, end))
  {
    FreeBound(xs, |xs|, end);
    FreeAdds(xs, 0, |xs|, end);
    FreeIsRest(xs, |xs|);
    FreeIsRest(xs, end);
    BelowIsAllIff(xs, end);
  }

  /** The pass comes short by at most as many instances as numbers have been skipped, and by
      exactly that many if and only if its range reaches past all numbers that exist. */
  ghost predicate IsShortBySkipped(c: Config, s: State, mid: seq<Event>)
    requires IsPass(c, s, mid)
  {
    var xs, skipped := s.instances, Free(s.instances, 0, |s.instances|);
    && c.count - skipped <= Reached(c, s, mid) <= c.count
    && (Reached(c, s, mid) == c.count - skipped <==> NumbersBelow(xs, Completed(xs) + c.count))
  }

  lemma SoundIsShortBySkipped(c: Config, s: State, mid: seq<Event>)
    requires Sound(s) && AllOf(s.instances, false) && IsPass(c, s, mid)
    ensures IsShortBySkipped(c, s, mid)
  {
    TopsUpIff(c, s, mid);
    PodsCountOnce(s.instances);
    TakenBySkipping(s.instances, Completed(s.instances) + c.count);
  }

  /** Over every run of bare pods, however many creations failed. */
  lemma ShortBySkipped(c: Config, run: seq<Event>, mid: seq<Event>)
    requires !c.asJob && Legal(c, INITIAL, run) && IsPass(c, After(c, INITIAL, run), mid)
    ensures IsShortBySkipped(c, After(c, INITIAL, run), mid)
  {
    EveryRunKeepsKind(c, run);
    EveryRunIsSound(c, run);
    SoundIsShortBySkipped(c, After(c, INITIAL, run), mid);
  }
}
