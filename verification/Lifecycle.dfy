/** The Benchmark reconciler: the life of one Benchmark object, the rates it starts
    and stops, and the control channel entry kept for it. */
module Lifecycle {

  datatype Phase = Fresh | Initializing | Running | Complete

  /** The two interval fields that tell the kinds of rate apart. */
  datatype RateSpec = RateSpec(interval: int, incInterval: int)

  predicate Known(r: RateSpec) {
    r.interval != 0 || r.incInterval != 0
  }

  /** How many rates startRates starts: those before the first unknown one. */
  function Startable(rates: seq<RateSpec>): nat {
    if rates == [] || !Known(rates[0]) then 0 else 1 + Startable(rates[1..])
  }

  lemma {:induction false} StartableBounds(rates: seq<RateSpec>, k: nat)
    requires k <= |rates| && forall i :: 0 <= i < k ==> Known(rates[i])
    ensures k <= Startable(rates) <= |rates|
    ensures k == |rates| ==> Startable(rates) == k
    ensures k < |rates| && !Known(rates[k]) ==> Startable(rates) == k
    decreases |rates|
  {
    if k > 0 {
      StartableBounds(rates[1..], k - 1);
    } else if rates != [] && Known(rates[0]) {
      StartableBounds(rates[1..], 0);
    }
  }

  const DEFAULTS := {"defaultWorkloadsOutput", "defaultMetadataOutput", "defaultMetricsOutput"}

  function Names(outputs: seq<string>): set<string> {
    set o | o in outputs
  }

  ghost predicate Distinct(xs: seq<string>) {
    forall i, j :: 0 <= i < j < |xs| ==> xs[i] != xs[j]
  }

  lemma AppendedName(outputs: seq<string>, name: string)
    ensures Names(outputs + [name]) == Names(outputs) + {name}
  {
    assert forall o :: o in outputs + [name] <==> o in outputs || o == name;
  }

  /** What the reconciler can see of the cluster and the clock in one pass. */
  datatype View = View(doneInit: bool, hasRuntime: bool, timeUp: bool, workloadsDone: bool)

  /** The stored object, and what the controller process holds for it.  `listeners`
      are goroutines that will still take one control message each; `blocked` means
      that a pass is stuck in a send that nobody will receive. */
  datatype World = World(
    present: bool, phase: Phase, deleting: bool, runningRates: nat, rateFinalizer: bool, outputs: set<string>,
    channelOpen: bool, listeners: nat, blocked: bool)

  /** What the user writes: the rates, and whether another party's finalizer holds the object. */
  datatype Spec = Spec(rates: seq<RateSpec>, held: bool)

  function Stopped(w: World, running: nat): World {
    if w.listeners >= 2 * running then w.(listeners := w.listeners - 2 * running)
    else w.(listeners := 0, blocked := true)
  }

  /** A deleted object goes away with its last finalizer. */
  function Collected(s: Spec, w: World): World {
    if w.deleting && !w.rateFinalizer && !s.held then w.(present := false) else w
  }

  function CleanedUp(s: Spec, w: World): World {
    var w := Stopped(w, w.runningRates);
    if w.blocked then w else Collected(s, w.(rateFinalizer := false))
  }

  /** One reconcile pass. */
  function Reconciled(s: Spec, w: World, v: View): World {
    if !w.present || w.blocked then w
    else if w.deleting then
      if !w.channelOpen then w
      else
        var w := CleanedUp(s, w);
        if w.blocked then w else w.(channelOpen := false)
    else match w.phase
      case Complete => w
      case Running =>
        if (if v.hasRuntime then !v.timeUp else !v.workloadsDone) then w
        else CleanedUp(s, w.(phase := Complete))
      case Initializing =>
        if !v.doneInit then w
        else
          var n := Startable(s.rates);
          var started := w.(channelOpen := true, listeners := 2 * n);
          if n < |s.rates| then Stopped(started, n)
          else started.(phase := Running, runningRates := n, rateFinalizer := w.rateFinalizer || n > 0)
      case Fresh =>
        if DEFAULTS <= w.outputs then w.(phase := Initializing) else w.(outputs := w.outputs + DEFAULTS)
  }

  /** The pass was the one that adds the default outputs and requeues. */
  predicate FixesUp(w: World) {
    w.present && !w.blocked && !w.deleting && w.phase.Fresh? && !(DEFAULTS <= w.outputs)
  }

  datatype Event = Pass(v: View) | UserDeletes

  function Next(s: Spec, w: World, e: Event): World {
    match e
    case Pass(v) => Reconciled(s, w, v)
    case UserDeletes => if w.present then Collected(s, w.(deleting := true)) else w
  }

  function Run(s: Spec, w: World, es: seq<Event>): World
    decreases |es|
  {
    if es == [] then w else Run(s, Next(s, w, es[0]), es[1..])
  }

  function Created(outputs: set<string>): World {
    World(true, Fresh, false, 0, false, outputs, false, 0, false)
  }

  /** What every pass keeps: listeners are exactly two per running rate while the
      benchmark is Running and its deletion has not been acted on, and none otherwise. */
  ghost predicate WellKept(s: Spec, w: World) {
    && (w.listeners > 0 ==> w.present && w.phase.Running? && w.channelOpen)
    && (w.present && w.phase.Running? ==>
          w.runningRates == |s.rates| == Startable(s.rates) &&
          (w.channelOpen || w.deleting) && (w.channelOpen ==> w.listeners == 2 * w.runningRates))
    && (w.present && w.phase.Complete? ==> w.runningRates == |s.rates| == Startable(s.rates) && (w.channelOpen || w.deleting))
    && (w.phase.Fresh? || w.phase.Initializing? ==> w.runningRates == 0)
    && (w.rateFinalizer ==> w.phase.Running? && w.channelOpen)
    && (w.present && w.phase.Running? && w.channelOpen && w.runningRates > 0 ==> w.rateFinalizer)
    && (w.present && w.deleting ==> s.held || w.rateFinalizer)
    && (w.blocked ==> w.present && w.phase.Complete? && w.deleting && s.held && |s.rates| > 0 && w.listeners == 0)
  }

  lemma WellKeptStep(s: Spec, w: World, e: Event)
    requires WellKept(s, w)
    ensures WellKept(s, Next(s, w, e))
  {
    StartableBounds(s.rates, 0);
  }

  function Rank(p: Phase): nat {
    match p case Fresh => 0 case Initializing => 1 case Running => 2 case Complete => 3
  }

  /** In every run the bookkeeping is kept and the phase only advances, one phase at
      most per pass; so Complete is absorbing. */
  lemma {:induction false} EveryRunAdvances(s: Spec, w: World, es: seq<Event>)
    requires WellKept(s, w)
    ensures WellKept(s, Run(s, w, es))
    ensures Rank(w.phase) <= Rank(Run(s, w, es).phase) <= Rank(w.phase) + |es|
    decreases |es|
  {
    if es != [] {
      WellKeptStep(s, w, es[0]);
      EveryRunAdvances(s, Next(s, w, es[0]), es[1..]);
    }
  }

  /** Passes of a run that only add default outputs and requeue. */
  function Fixups(s: Spec, w: World, es: seq<Event>): nat
    decreases |es|
  {
    if es == [] then 0
    else (if es[0].Pass? && FixesUp(w) then 1 else 0) + Fixups(s, Next(s, w, es[0]), es[1..])
  }

  /** Passes of a run that go through the rates to start them. */
  function StartAttempts(s: Spec, w: World, es: seq<Event>): nat
    decreases |es|
  {
    if es == [] then 0
    else (if es[0].Pass? && Attempts(w, es[0].v) then 1 else 0) + StartAttempts(s, Next(s, w, es[0]), es[1..])
  }

  predicate Attempts(w: World, v: View) {
    w.present && !w.blocked && !w.deleting && w.phase.Initializing? && v.doneInit
  }

  /** Passes of a run that put listeners on a fresh control channel and leave them there. */
  function RateStarts(s: Spec, w: World, es: seq<Event>): nat
    decreases |es|
  {
    if es == [] then 0
    else (if w.listeners < Next(s, w, es[0]).listeners then 1 else 0) + RateStarts(s, Next(s, w, es[0]), es[1..])
  }

  /** Adding the default outputs costs at most one extra round, and the rates of a
      benchmark are started and stay started at most once in its life. */
  lemma {:induction false} AtMostOnce(s: Spec, w: World, es: seq<Event>)
    requires WellKept(s, w)
    ensures Fixups(s, w, es) <= if w.phase.Fresh? && !(DEFAULTS <= w.outputs) then 1 else 0
    ensures RateStarts(s, w, es) <= if Rank(w.phase) < 2 then 1 else 0
    decreases |es|
  {
    if es != [] {
      WellKeptStep(s, w, es[0]);
      AtMostOnce(s, Next(s, w, es[0]), es[1..]);
    }
  }

  lemma {:induction false} KnownStartOnce(s: Spec, w: World, es: seq<Event>)
    requires WellKept(s, w) && Startable(s.rates) == |s.rates|
    ensures StartAttempts(s, w, es) <= if Rank(w.phase) < 2 then 1 else 0
    decreases |es|
  {
    if es != [] {
      WellKeptStep(s, w, es[0]);
      KnownStartOnce(s, Next(s, w, es[0]), es[1..]);
    }
  }

  /** With a rate of unknown kind every attempt is undone and the next pass tries again. */
  lemma UnknownTriesAgain(s: Spec, outputs: set<string>) returns (es: seq<Event>)
    requires Startable(s.rates) < |s.rates|
    ensures StartAttempts(s, Created(outputs), es) == 2
  {
    var v := Pass(View(true, true, true, true));
    var w := Created(outputs + DEFAULTS);
    var w1 := Next(s, w, v);
    assert DEFAULTS <= w.outputs;
    var w2 := Next(s, w1, v);
    assert w2.phase.Initializing? && w2.listeners == 0 && !w2.blocked;
    var rest := [v, v, v];
    assert rest[1..] == [v, v] && [v, v][1..] == [v];
    assert StartAttempts(s, w2, [v]) == 1 + StartAttempts(s, Next(s, w2, v), []);
    assert StartAttempts(s, w1, [v, v]) == 2;
    assert StartAttempts(s, w, rest) == 2;
    if DEFAULTS <= outputs {
      assert outputs + DEFAULTS == outputs;
      es := rest;
    } else {
      es := [v] + rest;
      assert es[1..] == rest;
    }
  }

  /** The rates are gone through to start them at most once in every run if and only if all
      of them are of a known kind. */
  lemma AttemptsOnceIff(s: Spec, outputs: set<string>)
    ensures (forall es :: StartAttempts(s, Created(outputs), es) <= 1) <==> forall r :: r in s.rates ==> Known(r)
  {
    StartableAll(s.rates);
    StartableBounds(s.rates, 0);
    if Startable(s.rates) == |s.rates| {
      forall es
        ensures StartAttempts(s, Created(outputs), es) <= 1
      {
        KnownStartOnce(s, Created(outputs), es);
      }
    } else {
      var es := UnknownTriesAgain(s, outputs);
    }
  }

  /** A benchmark whose deletion is held up by somebody else's finalizer after it
      completed: its control channel entry is still there, so it is stopped again. */
  lemma StoppedTwice(s: Spec, outputs: set<string>) returns (es: seq<Event>)
    requires s.held && |s.rates| > 0 && Startable(s.rates) == |s.rates|
    ensures Run(s, Created(outputs), es).blocked
  {
    var v := Pass(View(true, true, true, true));
    var rest := [v, v, v, UserDeletes, v];
    var w := Created(outputs + DEFAULTS);
    assert w.outputs >= DEFAULTS;
    var w1 := Next(s, w, v);
    var w2 := Next(s, w1, v);
    var w3 := Next(s, w2, v);
    assert w3.phase.Complete? && w3.listeners == 0 && w3.channelOpen;
    var w4 := Next(s, w3, UserDeletes);
    assert Next(s, w4, v).blocked;
    var last2, last3, last4 := [UserDeletes, v], [v, UserDeletes, v], [v, v, UserDeletes, v];
    assert last2[1..] == [v] && last3[1..] == last2 && last4[1..] == last3 && rest[1..] == last4;
    assert Run(s, w4, [v]) == Run(s, Next(s, w4, v), []);
    assert Run(s, w3, last2) == Run(s, w4, [v]);
    assert Run(s, w2, last3) == Run(s, w3, last2);
    assert Run(s, w1, last4) == Run(s, w2, last3);
    assert Run(s, w, rest) == Run(s, w1, last4);
    if DEFAULTS <= outputs {
      assert outputs + DEFAULTS == outputs;
      es := rest;
    } else {
      es := [v] + rest;
      assert es[1..] == rest;
    }
  }

  /** The reconciler can get stuck in stopRoutines exactly when the benchmark has rates,
      all of a known kind, and another finalizer can keep the completed object around
      long enough for its deletion to be reconciled. */
  lemma BlocksIff(s: Spec, outputs: set<string>)
    ensures (exists es :: Run(s, Created(outputs), es).blocked) <==>
            s.held && |s.rates| > 0 && forall r :: r in s.rates ==> Known(r)
  {
    StartableBounds(s.rates, 0);
    StartableAll(s.rates);
    if s.held && |s.rates| > 0 && Startable(s.rates) == |s.rates| {
      var es := StoppedTwice(s, outputs);
    } else {
      forall es
        ensures !Run(s, Created(outputs), es).blocked
      {
        EveryRunAdvances(s, Created(outputs), es);
      }
    }
  }

  lemma {:induction false} StartableAll(rates: seq<RateSpec>)
    ensures Startable(rates) == |rates| <==> forall r :: r in rates ==> Known(r)
  {
    if rates != [] {
      StartableAll(rates[1..]);
      StartableBounds(rates, 0);
      assert forall r :: r in rates <==> r == rates[0] || r in rates[1..];
    }
  }

  // ----- the reconciler itself -----

  class BenchmarkReconciler {
    const spec: Spec
    var present: bool
    var phase: Phase
    var deleting: bool
    var runningRates: nat
    var rateFinalizer: bool
    var outputs: seq<string>
    var channelOpen: bool
    var listeners: nat
    var blocked: bool

    ghost function State(): World
      reads this
    {
      World(present, phase, deleting, runningRates, rateFinalizer, Names(outputs), channelOpen, listeners, blocked)
    }

    constructor (spec: Spec, outputs: seq<string>)
      ensures this.spec == spec && State() == Created(Names(outputs))
    {
      this.spec, this.outputs := spec, outputs;
      present, phase, deleting, runningRates, rateFinalizer := true, Fresh, false, 0, false;
      channelOpen, listeners, blocked := false, 0, false;
    }

    /** Starts two listeners per rate on a new channel, up to an unknown rate. */
    method StartRates() returns (running: nat, ok: bool)
      requires listeners == 0
      modifies `channelOpen, `listeners
      ensures running == Startable(spec.rates) && (ok <==> running == |spec.rates|)
      ensures channelOpen && listeners == 2 * running
      ensures ok <==> forall r :: r in spec.rates ==> Known(r)
    {
      running := 0;
      channelOpen := true;
      while running < |spec.rates|
        invariant running <= |spec.rates| && listeners == 2 * running && channelOpen
        invariant forall i :: 0 <= i < running ==> Known(spec.rates[i])
      {
        if spec.rates[running].interval == 0 && spec.rates[running].incInterval == 0 {
          StartableBounds(spec.rates, running);
          assert spec.rates[running] in spec.rates && !Known(spec.rates[running]);
          return running, false;
        }
        listeners := listeners + 2;
        running := running + 1;
      }
      StartableBounds(spec.rates, running);
      return running, true;
    }

    /** One message.  With nobody listening the sender blocks for good. */
    method Send()
      modifies `listeners, `blocked
      ensures if old(blocked) || old(listeners) == 0 then blocked && listeners == old(listeners)
              else !blocked && listeners == old(listeners) - 1
    {
      if !blocked {
        if listeners == 0 {
          blocked := true;
        } else {
          listeners := listeners - 1;
        }
      }
    }

    /** Two messages for each rate. */
    method StopRoutines(running: nat)
      requires !blocked
      modifies `listeners, `blocked
      ensures State() == Stopped(old(State()), running)
    {
      var i := 0;
      while i < running
        invariant i <= running
        invariant blocked <==> old(listeners) < 2 * i
        invariant listeners == if blocked then 0 else old(listeners) - 2 * i
      {
        Send();
        Send();
        i := i + 1;
      }
    }

    method Cleanup()
      requires !blocked
      modifies this
      ensures State() == CleanedUp(spec, old(State()))
    {
      StopRoutines(runningRates);
      if !blocked {
        rateFinalizer := false;
        if deleting && !spec.held {
          present := false;
        }
      }
    }

    /** Appends each missing name once, in an unspecified order. */
    method AppendMissing(names: set<string>) returns (updated: bool, ghost added: seq<string>)
      modifies `outputs
      ensures outputs == old(outputs) + added && Distinct(added)
      ensures Names(added) == names - Names(old(outputs))
      ensures updated <==> added != []
    {
      updated, added := false, [];
      var todo := names;
      while todo != {}
        invariant todo <= names && outputs == old(outputs) + added && Distinct(added)
        invariant Names(added) == (names - todo) - Names(old(outputs))
        invariant updated <==> added != []
        decreases todo
      {
        var name :| name in todo;
        if name !in outputs {
          AppendedName(added, name);
          outputs, added := outputs + [name], added + [name];
          updated := true;
        }
        todo := todo - {name};
      }
    }

    /** Adds the default outputs; the spec changed exactly when one was missing. */
    method FixupSpec() returns (updated: bool)
      requires present && !blocked && !deleting && phase.Fresh?
      modifies `outputs
      ensures updated <==> FixesUp(old(State()))
      ensures Names(outputs) == old(Names(outputs)) + DEFAULTS && old(outputs) <= outputs
    {
      ghost var added;
      updated, added := AppendMissing(DEFAULTS);
      assert forall o :: o in outputs <==> o in old(outputs) || o in Names(added);
      assert updated ==> added[0] in Names(added);
    }

    method ReconcileDeleted(v: View)
      requires present && !blocked && deleting
      modifies this
      ensures State() == Reconciled(spec, old(State()), v)
    {
      if channelOpen {
        Cleanup();
        if !blocked {
          channelOpen := false;
        }
      }
    }

    method ReconcileRunning(v: View)
      requires present && !blocked && !deleting && phase.Running?
      modifies this
      ensures State() == Reconciled(spec, old(State()), v)
    {
      if v.hasRuntime && !v.timeUp {
        return;
      } else if !v.hasRuntime && !v.workloadsDone {
        return;
      }
      phase := Complete;
      Cleanup();
    }

    method ReconcileInitializing(v: View) returns (requeue: bool)
      requires present && !blocked && !deleting && phase.Initializing? && listeners == 0
      modifies this
      ensures State() == Reconciled(spec, old(State()), v)
      ensures requeue <==> !v.doneInit
    {
      requeue := !v.doneInit;
      if !v.doneInit {
        return;
      }
      var running, ok := StartRates();
      StartableBounds(spec.rates, 0);
      if !ok {
        StopRoutines(running);
        return;
      }
      phase := Running;
      runningRates := running;
      if running > 0 {
        rateFinalizer := true;
      }
    }

    method Reconcile(v: View) returns (requeue: bool)
      requires WellKept(spec, State())
      modifies this
      ensures State() == Reconciled(spec, old(State()), v)
      ensures WellKept(spec, State())
    {
      WellKeptStep(spec, State(), Pass(v));
      requeue := false;
      if !present || blocked {
        return;
      }
      if deleting {
        ReconcileDeleted(v);
      } else if phase == Complete {
        return;
      } else if phase == Running {
        ReconcileRunning(v);
      } else if phase == Initializing {
        requeue := ReconcileInitializing(v);
      } else {
        var updated := FixupSpec();
        requeue := true;
        if !updated {
          phase := Initializing;
        }
        assert DEFAULTS <= old(State()).outputs ==> old(State()).outputs + DEFAULTS == old(State()).outputs;
      }
    }
  }
}
