/** Instances that are bare pods: how they are numbered and how many are kept going. */
module PodInstances {
  import opened TopUp

  // ----- numbering of bare pods, with at most one failed creation in the launch -----

  /** The number the launch skipped, if a creation failed in it. */
  datatype Gap = NoGap | At(k: nat)

  function Size(gap: Gap): nat {
    if gap.NoGap? then 0 else 1
  }

  function NumberOf(i: nat, gap: Gap): nat {
    if gap.At? && i >= gap.k then i + 1 else i
  }

  ghost predicate Numbered(xs: seq<Instance>, gap: Gap) {
    forall i :: 0 <= i < |xs| ==> xs[i].number == NumberOf(i, gap)
  }

  ghost predicate Inv(c: Config, s: State, gap: Gap) {
    var xs, n, skipped := s.instances, |s.instances|, if gap.At? then gap.k else 0;
    && AllOf(xs, false) && Numbered(xs, gap)
    && match s.activity
       case Launching(made) => made <= c.count && n == skipped + made && s.counter == n + Size(gap) - 1 && (gap.At? ==> skipped < c.count)
       case Idle => Going(xs) <= c.count + skipped && (gap.At? ==> skipped < n)
       case TopUp(next, end) =>
         && next <= end && Going(xs) + (end - next) <= c.count
         && (gap.At? ==> skipped < n)
         && (next == n + Size(gap) || (next == n && next < end))
  }

  lemma NextNumber(xs: seq<Instance>, gap: Gap)
    requires Numbered(xs, gap) && (gap.At? ==> gap.k <= |xs|)
    ensures !Exists(xs, |xs| + Size(gap))
    ensures Numbered(xs + [Fresh(|xs| + Size(gap), false)], gap)
    ensures gap.At? && gap.k < |xs| ==> Exists(xs, |xs|)
  {
    if gap.At? && gap.k < |xs| {
      assert xs[|xs| - 1].number == |xs|;
    }
  }

  /** All events but a failed creation in the launch. */
  predicate Keeps(e: Event) {
    e != LaunchOne(false)
  }

  lemma AdvanceKeepsInv(c: Config, s: State, i: nat, gap: Gap)
    requires Inv(c, s, gap) && Enabled(c, s, Advance(i))
    ensures Inv(c, Do(c, s, Advance(i)), gap)
  {
    AdvanceCounts(s.instances, i);
  }

  lemma CreateKeepsInv(c: Config, s: State, gap: Gap)
    requires !c.asJob && Inv(c, s, gap) && Enabled(c, s, CreateNext(true))
    ensures Inv(c, Do(c, s, CreateNext(true)), gap)
  {
    NextNumber(s.instances, gap);
    CreateCounts(s.instances, s.activity.next, false);
  }

  lemma LaunchKeepsInv(c: Config, s: State, gap: Gap)
    requires !c.asJob && Inv(c, s, gap) && Enabled(c, s, LaunchOne(true))
    ensures Inv(c, Do(c, s, LaunchOne(true)), gap)
  {
    NextNumber(s.instances, gap);
  }

  lemma BeginKeepsInv(c: Config, s: State, gap: Gap)
    requires Inv(c, s, gap) && Enabled(c, s, Begin)
    ensures Inv(c, Do(c, s, Begin), gap)
  {
    PodsCountOnce(s.instances);
  }

  lemma {:induction false} GoingBound(xs: seq<Instance>)
    ensures Going(xs) <= |xs|
  {
    if xs != [] {
      GoingBound(xs[..|xs| - 1]);
    }
  }

  lemma StepKeepsInv(c: Config, s: State, e: Event, gap: Gap)
    requires !c.asJob && Inv(c, s, gap) && Enabled(c, s, e) && Keeps(e)
    ensures Inv(c, Do(c, s, e), gap)
  {
    match e
    case Advance(i) => AdvanceKeepsInv(c, s, i, gap);
    case LaunchOne(_) => LaunchKeepsInv(c, s, gap);
    case LaunchDone => GoingBound(s.instances);
    case Begin => BeginKeepsInv(c, s, gap);
    case CreateNext(accepted) =>
      if accepted {
        CreateKeepsInv(c, s, gap);
      }
    case EndPass =>
  }

  /** The first creation that fails leaves a gap. */
  lemma FailureLeavesGap(c: Config, s: State)
    requires Inv(c, s, NoGap) && Enabled(c, s, LaunchOne(false))
    ensures Inv(c, Do(c, s, LaunchOne(false)), At(|s.instances|))
  {
  }

  /** Over every run of bare pods: as long as at most one creation of the launch has failed,
      the i-th instance created has number i, or i + 1 from the failed number on. */
  lemma {:induction false} EveryRunIsNumbered(c: Config, run: seq<Event>) returns (gap: Gap)
    requires !c.asJob && Legal(c, INITIAL, run) && Tally(run, LaunchOne(false)) <= 1
    ensures Inv(c, After(c, INITIAL, run), gap)
    ensures gap.NoGap? <==> Tally(run, LaunchOne(false)) == 0
    decreases |run|
  {
    if run == [] {
      gap := NoGap;
    } else {
      var init, e := run[..|run| - 1], run[|run| - 1];
      gap := EveryRunIsNumbered(c, init);
      var s := After(c, INITIAL, init);
      if Keeps(e) {
        StepKeepsInv(c, s, e, gap);
      } else {
        FailureLeavesGap(c, s);
        gap := At(|s.instances|);
      }
    }
  }

  lemma {:induction false} EveryAcceptedIsNew(c: Config, run: seq<Event>)
    requires !c.asJob && Legal(c, INITIAL, run) && Tally(run, LaunchOne(false)) == 0
    ensures |After(c, INITIAL, run).instances| == Accepted(run)
    decreases |run|
  {
    if run != [] {
      var init := run[..|run| - 1];
      EveryAcceptedIsNew(c, init);
      var g := EveryRunIsNumbered(c, init);
      NextNumber(After(c, INITIAL, init).instances, NoGap);
    }
  }

  /** Over every run of bare pods whose launch does not fail: the numbers are 0, 1, 2, ...
      in order of creation, every accepted creation makes a new instance, and never are
      more than the wanted number of instances going. */
  lemma NoneIsCreatedTwice(c: Config, run: seq<Event>)
    requires !c.asJob && Legal(c, INITIAL, run) && Tally(run, LaunchOne(false)) == 0
    ensures var xs := After(c, INITIAL, run).instances;
            && (forall i :: 0 <= i < |xs| ==> xs[i].number == i)
            && |xs| == Accepted(run)
            && Going(xs) == NotComplete(xs) <= c.count
  {
    var gap := EveryRunIsNumbered(c, run);
    EveryAcceptedIsNew(c, run);
    PodsCountOnce(After(c, INITIAL, run).instances);
    GoingBound(After(c, INITIAL, run).instances);
  }

  /** A pass that is not cut short tops the instances up: counting those that finished
      while it ran, the wanted number of them are going at its end.  After one failed
      creation in the launch it is one fewer, in every pass. */
  lemma PassTopsUp(c: Config, s: State, mid: seq<Event>, gap: Gap)
    requires Inv(c, s, gap) && IsPass(c, s, mid)
    ensures Reached(c, s, mid) == c.count - Size(gap)
  {
    var xs, n, end := s.instances, |s.instances|, Completed(s.instances) + c.count;
    PodsCountOnce(xs);
    PassAddsFree(c, s, mid);
    NextNumber(xs, gap);
    FreeAdds(xs, n, n + Size(gap), end);
    FreeBound(xs, n + Size(gap), end);
    assert forall w :: n + Size(gap) <= w < end ==> !Exists(xs, w);
    if gap.At? {
      assert Free(xs, n, n) == 0;
    }
  }

  /** A pass that finds enough instances does nothing, and unless the launch has failed
      that is exactly enough. */
  lemma PassSkips(c: Config, s: State, gap: Gap)
    requires Inv(c, s, gap) && s.activity.Idle? && NotComplete(s.instances) >= c.count
    ensures Do(c, s, Begin) == s
    ensures gap.NoGap? ==> NotComplete(s.instances) == c.count
  {
    PodsCountOnce(s.instances);
  }

  // ----- exactly when the numbers of bare pods have no holes -----

  /** The numbers in existence are 0 to one less than how many there are. */
  ghost predicate Contiguous(xs: seq<Instance>) {
    forall w :: Exists(xs, w) <==> 0 <= w < |xs|
  }

  /** A number the launch has passed by, and nothing will ever create. */
  ghost predicate Skipped(c: Config, s: State, k: nat) {
    && !Exists(s.instances, k)
    && match s.activity
       case Launching(made) =>
         && made <= c.count && |s.instances| >= k + made && c.count > 0
         && k <= s.counter && (forall i :: 0 <= i < |s.instances| ==> s.instances[i].number <= s.counter)
       case Idle => |s.instances| > k
       case TopUp(next, _) => |s.instances| > k && next > k
  }

  lemma StepKeepsSkipped(c: Config, s: State, e: Event, k: nat)
    requires AllOf(s.instances, c.asJob) && !c.asJob && Skipped(c, s, k) && Enabled(c, s, e)
    ensures Skipped(c, Do(c, s, e), k)
  {
    match e
    case Advance(i) => AdvanceCounts(s.instances, i);
    case LaunchOne(_) => CreateCounts(s.instances, s.counter + 1, false);
    case CreateNext(_) => CreateCounts(s.instances, s.activity.next, false);
    case Begin => PodsCountOnce(s.instances);
    case _ =>
  }

  lemma {:induction false} FailedNumberIsSkipped(c: Config, run: seq<Event>) returns (k: nat)
    requires !c.asJob && Legal(c, INITIAL, run) && Tally(run, LaunchOne(false)) > 0
    ensures Skipped(c, After(c, INITIAL, run), k)
    decreases |run|
  {
    var init, e := run[..|run| - 1], run[|run| - 1];
    var s := After(c, INITIAL, init);
    if Tally(init, LaunchOne(false)) > 0 {
      k := FailedNumberIsSkipped(c, init);
      EveryRunKeepsKind(c, init);
      StepKeepsSkipped(c, s, e, k);
    } else {
      var gap := EveryRunIsNumbered(c, init);
      NextNumber(s.instances, gap);
      k := |s.instances|;
    }
  }

  /** Once the launch is over, the numbers in existence have no holes exactly when no
      creation in the launch ever failed, however many failed. */
  lemma ContiguousIff(c: Config, run: seq<Event>)
    requires !c.asJob && Legal(c, INITIAL, run) && !After(c, INITIAL, run).activity.Launching?
    ensures Contiguous(After(c, INITIAL, run).instances) <==> Tally(run, LaunchOne(false)) == 0
  {
    var xs := After(c, INITIAL, run).instances;
    if Tally(run, LaunchOne(false)) == 0 {
      var gap := EveryRunIsNumbered(c, run);
      forall w
        ensures Exists(xs, w) <==> 0 <= w < |xs|
      {
        if 0 <= w < |xs| {
          assert xs[w].number == w;
        }
      }
    } else {
      var k := FailedNumberIsSkipped(c, run);
      assert !Exists(xs, k) && 0 <= k < |xs|;
    }
  }
}
