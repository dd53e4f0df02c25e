/** The controller's launch and passes, proved against the machine of instances. */
module InstanceController {
  import opened TopUp

  /** What happens before the controller's next creation: instances that get on in the
      meantime, and whether the API server accepts it. */
  datatype Turn = Turn(advance: seq<nat>, accepted: bool)

  function TurnAt(turns: seq<Turn>, i: nat): Turn {
    if i < |turns| then turns[i] else Turn([], true)
  }

  /** The run goes on with instances getting on and nothing else. */
  ghost predicate OnlyAdvances(before: seq<Event>, run: seq<Event>) {
    before <= run && forall i :: |before| <= i < |run| ==> run[i].Advance?
  }

  lemma OneMoreAdvance(before: seq<Event>, run: seq<Event>, p: nat)
    requires OnlyAdvances(before, run)
    ensures OnlyAdvances(before, run + [Advance(p)])
  {
  }

  lemma StillUndisturbed(before: seq<Event>, run: seq<Event>)
    requires AllUndisturbed(before) && OnlyAdvances(before, run)
    ensures AllUndisturbed(run) && AllUndisturbed(run + [CreateNext(true)])
  {
  }

  lemma TallyMore(run: seq<Event>, e: Event)
    ensures forall f :: Tally(run + [e], f) == Tally(run, f) + if f == e then 1 else 0
  {
    assert (run + [e])[..|run|] == run;
  }

  lemma {:induction false} TallyOfAdvances(before: seq<Event>, run: seq<Event>)
    requires OnlyAdvances(before, run)
    ensures Tally(run, LaunchOne(false)) == Tally(before, LaunchOne(false))
    decreases |run|
  {
    if |run| == |before| {
      assert run == before;
    } else {
      TallyOfAdvances(before, run[..|run| - 1]);
    }
  }

  class Controller {
    var instances: seq<Instance>
    var counter: int

    constructor ()
      ensures State(instances, counter, Launching(0)) == INITIAL
    {
      instances, counter := [], -1;
    }

    function During(activity: Activity): State
      reads this
    {
      State(instances, counter, activity)
    }

    /** The pods under the workload's labels: bare ones, and those of jobs that have one. */
    method PodsComplete() returns (complete: nat, notComplete: nat)
      ensures complete == Sum(instances, PodSucceeded) && notComplete == Sum(instances, PodRunning)
    {
      complete, notComplete := 0, 0;
      for i := 0 to |instances|
        invariant complete == Sum(instances[..i], PodSucceeded) && notComplete == Sum(instances[..i], PodRunning)
      {
        assert instances[..i + 1][..i] == instances[..i];
        if !instances[i].stage.NoPod? {
          if instances[i].stage.Running? {
            notComplete := notComplete + 1;
          } else {
            complete := complete + 1;
          }
        }
      }
      assert instances[..|instances|] == instances;
    }

    method JobsComplete() returns (complete: nat, notComplete: nat)
      ensures complete == Sum(instances, JobDone) && notComplete == Sum(instances, JobGoing)
    {
      complete, notComplete := 0, 0;
      for i := 0 to |instances|
        invariant complete == Sum(instances[..i], JobDone) && notComplete == Sum(instances[..i], JobGoing)
      {
        assert instances[..i + 1][..i] == instances[..i];
        if instances[i].isJob {
          if instances[i].stage.Done? {
            complete := complete + 1;
          } else {
            notComplete := notComplete + 1;
          }
        }
      }
      assert instances[..|instances|] == instances;
    }

    /** Pods and jobs are counted side by side. */
    method CountCompletions() returns (complete: nat, notComplete: nat)
      ensures complete == Completed(instances) && notComplete == NotComplete(instances)
    {
      var podsComplete, podsNot := PodsComplete();
      var jobsComplete, jobsNot := JobsComplete();
      SumSplits(instances, CompleteIn, PodSucceeded, JobDone);
      SumSplits(instances, NotCompleteIn, PodRunning, JobGoing);
      return podsComplete + jobsComplete, podsNot + jobsNot;
    }

    /** An instance gets on, if it is there and not yet done. */
    method GetOn(c: Config, p: nat, activity: Activity, ghost start: State, ghost before: seq<Event>)
      returns (ghost run: seq<Event>)
      requires Legal(c, start, before) && After(c, start, before) == During(activity)
      modifies `instances
      ensures Legal(c, start, run) && After(c, start, run) == During(activity)
      ensures run == before || run == before + [Advance(p)]
    {
      run := before;
      if p < |instances| && !instances[p].stage.Done? {
        Extend(c, start, before, Advance(p));
        run := before + [Advance(p)];
        instances := instances[p := instances[p].(stage := NextStage(instances[p]))];
      }
    }

    /** The instances that get on while the controller is busy. */
    method Meanwhile(c: Config, advance: seq<nat>, activity: Activity, ghost start: State, ghost before: seq<Event>)
      returns (ghost run: seq<Event>)
      requires Legal(c, start, before) && After(c, start, before) == During(activity)
      modifies `instances
      ensures Legal(c, start, run) && After(c, start, run) == During(activity)
      ensures OnlyAdvances(before, run)
    {
      run := before;
      for i := 0 to |advance|
        invariant Legal(c, start, run) && After(c, start, run) == During(activity)
        invariant OnlyAdvances(before, run)
      {
        OneMoreAdvance(before, run, advance[i]);
        run := GetOn(c, advance[i], activity, start, run);
      }
    }

    /** One creation of the launch. */
    method LaunchNext(c: Config, made: nat, turn: Turn, ghost start: State, ghost before: seq<Event>)
      returns (ghost run: seq<Event>)
      requires made < c.count && Tally(before, LaunchOne(false)) == 0
      requires Legal(c, start, before) && After(c, start, before) == During(Launching(made))
      modifies this
      ensures Legal(c, start, run)
      ensures After(c, start, run) == During(Launching(if turn.accepted then made + 1 else 0))
      ensures Tally(run, LaunchOne(false)) == if turn.accepted then 0 else 1
    {
      run := Meanwhile(c, turn.advance, Launching(made), start, before);
      TallyOfAdvances(before, run);
      counter := counter + 1;
      Extend(c, start, run, LaunchOne(turn.accepted));
      TallyMore(run, LaunchOne(turn.accepted));
      run := run + [LaunchOne(turn.accepted)];
      if turn.accepted {
        instances := Created(instances, counter, c.asJob);
      }
    }

    /** The launch, up to its end or to the first creation that fails. */
    method RunWorkload(c: Config, turns: seq<Turn>) returns (ok: bool, ghost run: seq<Event>)
      modifies this
      ensures Legal(c, old(During(Launching(0))), run)
      ensures After(c, old(During(Launching(0))), run) == During(if ok then Idle else Launching(0))
      ensures ok <==> Tally(run, LaunchOne(false)) == 0
    {
      ghost var start := During(Launching(0));
      run := [];
      for w := 0 to c.count
        invariant Legal(c, start, run) && After(c, start, run) == During(Launching(w))
        invariant Tally(run, LaunchOne(false)) == 0
      {
        var turn := TurnAt(turns, w);
        run := LaunchNext(c, w, turn, start, run);
        if !turn.accepted {
          return false, run;
        }
      }
      Extend(c, start, run, LaunchDone);
      TallyMore(run, LaunchDone);
      return true, run + [LaunchDone];
    }

    /** One creation of a pass. */
    method Replace(c: Config, w: int, end: int, turn: Turn, ghost start: State, ghost before: seq<Event>)
      returns (ghost run: seq<Event>)
      requires w < end && AllUndisturbed(before)
      requires Legal(c, start, before) && After(c, start, before) == During(TopUp(w, end))
      modifies `instances
      ensures AllUndisturbed(run) && Legal(c, start, run)
      ensures After(c, start, run) == During(TopUp(if turn.accepted then w + 1 else w, end))
    {
      run := Meanwhile(c, turn.advance, TopUp(w, end), start, before);
      StillUndisturbed(before, run);
      if turn.accepted {
        Extend(c, start, run, CreateNext(true));
        run := run + [CreateNext(true)];
        instances := Created(instances, w, c.asJob);
      }
    }

    /** The creations of a pass, up to its end or to the first that fails. */
    method CreateMissing(c: Config, first: int, end: int, turns: seq<Turn>, ghost start: State) returns (ok: bool, ghost mid: seq<Event>)
      requires first <= end && start == During(TopUp(first, end))
      modifies `instances
      ensures AllUndisturbed(mid) && Legal(c, start, mid)
      ensures var t := After(c, start, mid);
              && t.activity.TopUp? && t == During(t.activity) && t.activity.end == end
              && (if ok then t.activity.next >= end else t.activity.next < end)
    {
      mid := [];
      var w := first;
      while w < end
        invariant w <= end
        invariant Legal(c, start, mid) && After(c, start, mid) == During(TopUp(w, end))
        invariant AllUndisturbed(mid)
      {
        var turn := TurnAt(turns, w - first);
        mid := Replace(c, w, end, turn, start, mid);
        if !turn.accepted {
          return false, mid;
        }
        w := w + 1;
      }
      return true, mid;
    }

    /** A pass, of pods or jobs: a snapshot of the completions, then the missing instances.
        It does nothing if enough are counted; otherwise, unless a creation fails, it is a
        pass of the machine and adds an instance for every free number in its range. */
    method ReconcileInstances(c: Config, turns: seq<Turn>) returns (ok: bool, ghost mid: seq<Event>)
      modifies `instances
      ensures old(NotComplete(instances)) >= c.count ==> ok && instances == old(instances)
      ensures old(NotComplete(instances)) < c.count ==>
                var s := old(During(Idle));
                && Legal(c, Do(c, s, Begin), mid) && AllUndisturbed(mid)
                && var t, last := After(c, Do(c, s, Begin), mid), if ok then EndPass else CreateNext(false);
                   && Enabled(c, t, last) && Do(c, t, last) == During(Idle)
                   && (ok ==> IsPass(c, s, mid) && PassEnd(c, s, mid) == During(Idle))
    {
      mid := [];
      var complete, notComplete := CountCompletions();
      var needed := c.count - notComplete;
      if needed <= 0 {
        return true, mid;
      }
      ghost var s := During(Idle);
      ok, mid := CreateMissing(c, complete + notComplete, complete + c.count, turns, Do(c, s, Begin));
    }
  }
}
