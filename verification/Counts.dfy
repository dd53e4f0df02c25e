/** What the sums over instances count, and how often a launch starts over. */
module Counts {
  import opened TopUp

  /** The positions of the instances for which f is not zero. */
  function Where(xs: seq<Instance>, f: Instance -> nat): set<nat> {
    set i: nat | i < |xs| && f(xs[i]) != 0
  }

  lemma {:induction false} SumCounts(xs: seq<Instance>, f: Instance -> nat)
    requires forall x :: f(x) <= 1
    ensures Sum(xs, f) == |Where(xs, f)|
  {
    if xs == [] {
      assert Where(xs, f) == {};
    } else {
      var n := |xs| - 1;
      SumCounts(xs[..n], f);
      var before := Where(xs[..n], f);
      assert Where(xs, f) == if f(xs[n]) != 0 then before + {n} else before;
      assert n !in before;
    }
  }

  /** A pass counts as complete the pods that have succeeded, those of jobs included, and
      the jobs that are done; as not complete the pods that run and the jobs that go on. */
  lemma PassCounts(xs: seq<Instance>)
    ensures Completed(xs) == |set i: nat | i < |xs| && (xs[i].stage == Succeeded || xs[i].stage == Done)| +
                             |set i: nat | i < |xs| && xs[i].isJob && xs[i].stage == Done|
    ensures NotComplete(xs) == |set i: nat | i < |xs| && xs[i].stage == Running| +
                               |set i: nat | i < |xs| && xs[i].isJob && xs[i].stage != Done|
  {
    SumSplits(xs, CompleteIn, PodSucceeded, JobDone);
    SumSplits(xs, NotCompleteIn, PodRunning, JobGoing);
    SumCounts(xs, PodSucceeded);
    SumCounts(xs, JobDone);
    SumCounts(xs, PodRunning);
    SumCounts(xs, JobGoing);
    assert Where(xs, PodSucceeded) == set i: nat | i < |xs| && (xs[i].stage == Succeeded || xs[i].stage == Done);
    assert Where(xs, JobDone) == set i: nat | i < |xs| && xs[i].isJob && xs[i].stage == Done;
    assert Where(xs, PodRunning) == set i: nat | i < |xs| && xs[i].stage == Running;
    assert Where(xs, JobGoing) == set i: nat | i < |xs| && xs[i].isJob && xs[i].stage != Done;
  }

  /** Kept going are the instances that are not done; with a running pod those that run;
      with a pod those past the first stage. */
  lemma KindsCount(xs: seq<Instance>)
    ensures Going(xs) == |set i: nat | i < |xs| && xs[i].stage != Done|
    ensures Sum(xs, PodRunning) == |set i: nat | i < |xs| && xs[i].stage == Running|
    ensures Sum(xs, HasPod) == |set i: nat | i < |xs| && xs[i].stage != NoPod|
  {
    SumCounts(xs, GoingIn);
    SumCounts(xs, PodRunning);
    SumCounts(xs, HasPod);
    assert Where(xs, GoingIn) == set i: nat | i < |xs| && xs[i].stage != Done;
    assert Where(xs, PodRunning) == set i: nat | i < |xs| && xs[i].stage == Running;
    assert Where(xs, HasPod) == set i: nat | i < |xs| && xs[i].stage != NoPod;
  }

  /** The creations of a launch that were accepted since the last one that failed. */
  function SinceFailure(run: seq<Event>): nat {
    if run == [] then 0
    else
      var before := SinceFailure(run[..|run| - 1]);
      match run[|run| - 1]
      case LaunchOne(accepted) => if accepted then before + 1 else 0
      case _ => before
  }

  /** In every run a failed creation has the launch start over, with the next number, and it
      ends once Count creations in a row were accepted. */
  lemma {:induction false} LaunchStartsOver(c: Config, run: seq<Event>)
    requires Legal(c, INITIAL, run)
    ensures var s := After(c, INITIAL, run);
            && s.counter == Tally(run, LaunchOne(true)) + Tally(run, LaunchOne(false)) - 1
            && SinceFailure(run) == (if s.activity.Launching? then s.activity.made else c.count)
            && SinceFailure(run) <= c.count
    decreases |run|
  {
    if run != [] {
      LaunchStartsOver(c, run[..|run| - 1]);
    }
  }
}
