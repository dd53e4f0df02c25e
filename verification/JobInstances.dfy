/** Instances that are jobs, which are counted together with their pods. */
module JobInstances {
  import opened TopUp
  import opened PodInstances

  /** Over a run of jobs whose launch does not fail: numbers stay below the number of
      objects that a pass counts, and no more than the wanted number of jobs are going. */
  ghost predicate JobInv(c: Config, s: State) {
    var xs := s.instances;
    && AllOf(xs, true)
    && match s.activity
       case Launching(made) => made <= c.count && |xs| == made && s.counter == made - 1 && Numbered(xs, NoGap)
       case Idle => Going(xs) <= c.count && NumbersBelow(xs, Sum(xs, Objects))
       case TopUp(next, end) =>
         next <= end && Going(xs) + (end - next) <= c.count && next <= Sum(xs, Objects) && NumbersBelow(xs, next)
  }

  /** A job never takes an object away. */
  lemma ObjectsGrow(xs: seq<Instance>, i: nat)
    requires i < |xs| && xs[i].isJob
    ensures Sum(Advanced(xs, i), Objects) >= Sum(xs, Objects)
  {
    SumUpdate(xs, i, xs[i].(stage := NextStage(xs[i])), Objects);
  }

  lemma AdvanceKeepsNumbers(xs: seq<Instance>, i: nat)
    requires i < |xs| && AllOf(xs, true)
    ensures AllOf(Advanced(xs, i), true)
    ensures forall n :: NumbersBelow(xs, n) ==> NumbersBelow(Advanced(xs, i), n)
    ensures Numbered(xs, NoGap) ==> Numbered(Advanced(xs, i), NoGap)
  {
  }

  lemma AdvanceKeepsJobs(c: Config, s: State, i: nat)
    requires JobInv(c, s) && Enabled(c, s, Advance(i))
    ensures JobInv(c, Do(c, s, Advance(i)))
  {
    AdvanceCounts(s.instances, i);
    ObjectsGrow(s.instances, i);
    AdvanceKeepsNumbers(s.instances, i);
    MoreRoom(Advanced(s.instances, i), Sum(s.instances, Objects), Sum(Advanced(s.instances, i), Objects));
  }

  lemma MoreRoom(xs: seq<Instance>, n: int, m: int)
    requires n <= m
    ensures NumbersBelow(xs, n) ==> NumbersBelow(xs, m)
  {
  }

  lemma CreateKeepsJobs(c: Config, s: State)
    requires c.asJob && JobInv(c, s) && Enabled(c, s, CreateNext(true))
    ensures JobInv(c, Do(c, s, CreateNext(true)))
  {
    CreateCounts(s.instances, s.activity.next, true);
    SumAppend(s.instances, Fresh(s.activity.next, true), Objects);
  }

  lemma CountsAreObjects(xs: seq<Instance>)
    ensures Completed(xs) + NotComplete(xs) == Sum(xs, Objects)
  {
    SumSplits(xs, Objects, CompleteIn, NotCompleteIn);
  }

  lemma BeginKeepsJobs(c: Config, s: State)
    requires JobInv(c, s) && Enabled(c, s, Begin)
    ensures JobInv(c, Do(c, s, Begin))
  {
    JobsCountTwice(s.instances);
    CountsAreObjects(s.instances);
  }

  lemma LaunchKeepsJobs(c: Config, s: State, e: Event)
    requires c.asJob && JobInv(c, s) && Enabled(c, s, e) && (e == LaunchOne(true) || e == LaunchDone)
    ensures JobInv(c, Do(c, s, e))
  {
    GoingBound(s.instances);
    JobsCountTwice(s.instances);
    CountsAreObjects(s.instances);
  }

  lemma StepKeepsJobs(c: Config, s: State, e: Event)
    requires c.asJob && JobInv(c, s) && Enabled(c, s, e) && Keeps(e)
    ensures JobInv(c, Do(c, s, e))
  {
    match e
    case Advance(i) => AdvanceKeepsJobs(c, s, i);
    case LaunchOne(_) => LaunchKeepsJobs(c, s, e);
    case LaunchDone => LaunchKeepsJobs(c, s, e);
    case Begin => BeginKeepsJobs(c, s);
    case CreateNext(accepted) =>
      if accepted {
        CreateKeepsJobs(c, s);
      }
    case EndPass =>
  }

  lemma {:induction false} EveryRunKeepsJobs(c: Config, run: seq<Event>)
    requires c.asJob && Legal(c, INITIAL, run) && Tally(run, LaunchOne(false)) == 0
    ensures JobInv(c, After(c, INITIAL, run))
    decreases |run|
  {
    if run != [] {
      EveryRunKeepsJobs(c, run[..|run| - 1]);
      StepKeepsJobs(c, After(c, INITIAL, run[..|run| - 1]), run[|run| - 1]);
    }
  }

  lemma JobsComeShort(c: Config, s: State, mid: seq<Event>)
    requires c.asJob && JobInv(c, s) && IsPass(c, s, mid)
    ensures Reached(c, s, mid) + Sum(s.instances, PodRunning) == c.count
  {
    var xs := s.instances;
    JobsCountTwice(xs);
    CountsAreObjects(xs);
    PassAddsFree(c, s, mid);
    NothingAbove(xs, Sum(xs, Objects), Completed(xs) + c.count);
  }

  /** Over every run of jobs whose launch does not fail: a pass that creates anything comes
      short by exactly as many jobs as had a running pod when it began, because those are
      counted twice; so it tops up if and only if there was none. */
  lemma JobPassIff(c: Config, run: seq<Event>, mid: seq<Event>)
    requires c.asJob && Legal(c, INITIAL, run) && Tally(run, LaunchOne(false)) == 0
    requires IsPass(c, After(c, INITIAL, run), mid)
    ensures var s := After(c, INITIAL, run);
            && Reached(c, s, mid) == c.count - Sum(s.instances, PodRunning)
            && (Reached(c, s, mid) == c.count <==> Sum(s.instances, PodRunning) == 0)
  {
    EveryRunKeepsJobs(c, run);
    JobsComeShort(c, After(c, INITIAL, run), mid);
  }

  lemma NothingAbove(xs: seq<Instance>, lo: int, hi: int)
    requires lo <= hi && NumbersBelow(xs, lo)
    ensures Free(xs, lo, hi) == hi - lo
  {
    FreeBound(xs, lo, hi);
  }

  /** A pass over jobs does nothing exactly when no more jobs are missing than have a
      running pod. */
  lemma JobPassSkipsIff(c: Config, run: seq<Event>)
    requires c.asJob && Legal(c, INITIAL, run) && Tally(run, LaunchOne(false)) == 0
    requires After(c, INITIAL, run).activity.Idle?
    ensures var s := After(c, INITIAL, run);
            var missing := c.count - Going(s.instances);
            && missing >= 0
            && (Do(c, s, Begin) == s <==> missing <= Sum(s.instances, PodRunning))
  {
    EveryRunKeepsJobs(c, run);
    JobsCountTwice(After(c, INITIAL, run).instances);
  }

  /** It numbers new jobs from how many jobs and pods there are, which leaves holes as soon
      as there is a pod. */
  lemma JobPassNumbers(c: Config, s: State)
    requires AllOf(s.instances, true) && s.activity.Idle? && NotComplete(s.instances) < c.count
    ensures var first := Do(c, s, Begin).activity.next;
            && first == |s.instances| + Sum(s.instances, HasPod)
            && (first == |s.instances| <==> forall i :: 0 <= i < |s.instances| ==> s.instances[i].stage.NoPod?)
  {
    JobsCountTwice(s.instances);
    NoPodsIff(s.instances);
  }

  lemma {:induction false} NoPodsIff(xs: seq<Instance>)
    ensures Sum(xs, HasPod) == 0 <==> forall i :: 0 <= i < |xs| ==> xs[i].stage.NoPod?
  {
    if xs != [] {
      NoPodsIff(xs[..|xs| - 1]);
    }
  }
}
