/** When a benchmark moves from one phase to the next: in one pass, and in every run. */
module Phases {
  import opened Lifecycle

  /** A pass acts on the phase of the object only in this state. */
  predicate Acts(w: World) {
    w.present && !w.blocked && !w.deleting
  }

  /** The runtime is over or, without one, the workloads are done. */
  predicate IsOver(v: View) {
    (v.hasRuntime && v.timeUp) || (!v.hasRuntime && v.workloadsDone)
  }

  predicate KindsKnown(s: Spec) {
    forall r :: r in s.rates ==> r.interval != 0 || r.incInterval != 0
  }

  predicate HasDefaults(outputs: set<string>) {
    "defaultWorkloadsOutput" in outputs && "defaultMetadataOutput" in outputs && "defaultMetricsOutput" in outputs
  }

  /** A pass completes a running benchmark exactly if it sees that it is over, and then
      stops two listeners for each running rate and lets go of the finalizer; otherwise
      it does nothing. */
  lemma CompletesIff(s: Spec, w: World, v: View)
    requires Acts(w) && w.phase == Running
    ensures Reconciled(s, w, v).phase == if IsOver(v) then Complete else Running
    ensures !IsOver(v) ==> Reconciled(s, w, v) == w
    ensures IsOver(v) && w.listeners >= 2 * w.runningRates ==>
              Reconciled(s, w, v) == w.(phase := Complete, listeners := w.listeners - 2 * w.runningRates, rateFinalizer := false)
  {
  }

  /** A pass has an initializing benchmark run exactly if its workloads are initialized and
      its rates are all of a known kind; it then has two listeners for each rate. */
  lemma RunsIff(s: Spec, w: World, v: View)
    requires Acts(w) && w.phase == Initializing
    ensures Reconciled(s, w, v).phase == if v.doneInit && KindsKnown(s) then Running else Initializing
    ensures !v.doneInit ==> Reconciled(s, w, v) == w
    ensures v.doneInit && KindsKnown(s) ==>
              Reconciled(s, w, v) == w.(phase := Running, channelOpen := true, listeners := 2 * |s.rates|, runningRates := |s.rates|,
                                        rateFinalizer := w.rateFinalizer || s.rates != [])
    ensures v.doneInit && !KindsKnown(s) ==> Reconciled(s, w, v) == w.(channelOpen := true, listeners := 0)
  {
    StartableAll(s.rates);
    StartableBounds(s.rates, 0);
    assert KindsKnown(s) <==> forall r :: r in s.rates ==> Known(r);
  }

  /** A pass starts a fresh benchmark exactly if it has the default outputs; otherwise it
      adds them. */
  lemma InitializesIff(s: Spec, w: World, v: View)
    requires Acts(w) && w.phase == Fresh
    ensures HasDefaults(w.outputs) ==> Reconciled(s, w, v) == w.(phase := Initializing)
    ensures !HasDefaults(w.outputs) ==>
              Reconciled(s, w, v) ==
                w.(outputs := w.outputs + {"defaultWorkloadsOutput", "defaultMetadataOutput", "defaultMetricsOutput"})
  {
    assert HasDefaults(w.outputs) <==> DEFAULTS <= w.outputs;
  }

  /** A pass over a deleted object stops its rates exactly if there is a control channel
      for it, and it does not touch the phase; over anything else it does nothing. */
  lemma DeletesIff(s: Spec, w: World, v: View)
    ensures w.present && !w.blocked && w.deleting ==>
              && Reconciled(s, w, v).phase == w.phase
              && (!w.channelOpen ==> Reconciled(s, w, v) == w)
              && (w.channelOpen && w.listeners < 2 * w.runningRates ==> Reconciled(s, w, v) == w.(listeners := 0, blocked := true))
              && (w.channelOpen && w.listeners >= 2 * w.runningRates ==>
                    Reconciled(s, w, v) == w.(listeners := w.listeners - 2 * w.runningRates, rateFinalizer := false,
                                              channelOpen := false, present := s.held))
    ensures !w.present || w.blocked ==> Reconciled(s, w, v) == w
    ensures Acts(w) && w.phase == Complete ==> Reconciled(s, w, v) == w
  {
  }

  lemma {:induction false} RunOneMore(s: Spec, w: World, es: seq<Event>, e: Event)
    ensures Run(s, w, es + [e]) == Next(s, Run(s, w, es), e)
    decreases |es|
  {
    if es == [] {
      assert [e][1..] == [];
    } else {
      assert (es + [e])[1..] == es[1..] + [e];
      RunOneMore(s, Next(s, w, es[0]), es[1..], e);
    }
  }

  /** The world before event k of a run. */
  function Before(s: Spec, w: World, es: seq<Event>, k: nat): World
    requires k <= |es|
  {
    Run(s, w, es[..k])
  }

  /** Event k is a pass over the running object that sees that it is over. */
  predicate CompletesAt(s: Spec, w: World, es: seq<Event>, k: nat) {
    k < |es| && es[k].Pass? && Acts(Before(s, w, es, k)) && Before(s, w, es, k).phase == Running && IsOver(es[k].v)
  }

  /** Event k is a pass over the initializing object that finds everything ready. */
  predicate RunsAt(s: Spec, w: World, es: seq<Event>, k: nat) {
    && k < |es| && es[k].Pass? && Acts(Before(s, w, es, k)) && Before(s, w, es, k).phase == Initializing
    && es[k].v.doneInit && KindsKnown(s)
  }

  lemma PhaseMoves(s: Spec, w: World, e: Event)
    ensures Next(s, w, e).phase == Complete <==>
              w.phase == Complete || (e.Pass? && Acts(w) && w.phase == Running && IsOver(e.v))
    ensures Rank(Next(s, w, e).phase) >= 2 <==>
              Rank(w.phase) >= 2 || (e.Pass? && Acts(w) && w.phase == Initializing && e.v.doneInit && KindsKnown(s))
  {
    if e.Pass? {
      DeletesIff(s, w, e.v);
      if Acts(w) && w.phase == Running {
        CompletesIff(s, w, e.v);
      } else if Acts(w) && w.phase == Initializing {
        RunsIff(s, w, e.v);
      } else if Acts(w) && w.phase == Fresh {
        InitializesIff(s, w, e.v);
      }
    }
  }

  ghost predicate CompletesSome(s: Spec, w: World, es: seq<Event>) {
    exists k :: CompletesAt(s, w, es, k)
  }

  ghost predicate RunsSome(s: Spec, w: World, es: seq<Event>) {
    exists k :: RunsAt(s, w, es, k)
  }

  lemma SomeOneMore(s: Spec, w: World, es: seq<Event>, e: Event)
    ensures CompletesSome(s, w, es + [e]) <==> CompletesSome(s, w, es) || CompletesAt(s, w, es + [e], |es|)
    ensures RunsSome(s, w, es + [e]) <==> RunsSome(s, w, es) || RunsAt(s, w, es + [e], |es|)
  {
    forall k: nat | k < |es|
      ensures CompletesAt(s, w, es + [e], k) == CompletesAt(s, w, es, k) && RunsAt(s, w, es + [e], k) == RunsAt(s, w, es, k)
    {
      assert (es + [e])[..k] == es[..k];
    }
    if k: nat :| CompletesAt(s, w, es, k) {
      assert CompletesAt(s, w, es + [e], k);
    }
    if k: nat :| RunsAt(s, w, es, k) {
      assert RunsAt(s, w, es + [e], k);
    }
  }

  /** In every run a benchmark is complete exactly if some pass over it while it was running
      saw that it was over, and past initialization exactly if some pass over it while it
      was initializing found its workloads initialized and its rates known. */
  lemma {:induction false} EveryRunMovesIff(s: Spec, outputs: set<string>, es: seq<Event>)
    ensures Run(s, Created(outputs), es).phase == Complete <==> CompletesSome(s, Created(outputs), es)
    ensures Run(s, Created(outputs), es).phase == Running || Run(s, Created(outputs), es).phase == Complete <==>
              RunsSome(s, Created(outputs), es)
    decreases |es|
  {
    var w := Created(outputs);
    if es != [] {
      var n := |es| - 1;
      var before := es[..n];
      assert es == before + [es[n]];
      EveryRunMovesIff(s, outputs, before);
      RunOneMore(s, w, before, es[n]);
      PhaseMoves(s, Run(s, w, before), es[n]);
      SomeOneMore(s, w, before, es[n]);
      assert Before(s, w, es, n) == Run(s, w, before);
    }
  }
}
