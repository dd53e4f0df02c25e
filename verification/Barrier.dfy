/** The barrier between pods: the last init container of each synced pod runs a script
    that polls the pods under its workload's label, and then those in its group, until
    enough init containers have completed. */
module Barrier {

  // ----- the script -----

  /** Where the script is: in its first loop with the last reading, about to read how many
      containers the group has, in its second loop, or at its end. */
  datatype Script = NotStarted | Polling(d: nat) | Asking | GroupPolling(needed: nat, d: nat) | Finished

  /** Leaving a loop whose threshold the last reading reaches. */
  function Settled(script: Script, need: nat, grouped: bool): Script {
    match script
    case Polling(d) => if d < need then script else if grouped then Asking else Finished
    case GroupPolling(needed, d) => if d < needed then script else Finished
    case _ => script
  }

  /** Taking in one reading. */
  function Read(script: Script, reading: nat): Script {
    match script
    case Polling(_) => Polling(reading)
    case Asking => GroupPolling(reading, 0)
    case GroupPolling(needed, _) => GroupPolling(needed, reading)
    case _ => script
  }

  /** The script after a sequence of readings, waiting for the next one or finished. */
  function Fed(script: Script, need: nat, grouped: bool, readings: seq<nat>): Script
    decreases |readings|
  {
    if readings == [] then Settled(script, need, grouped)
    else Fed(Read(Settled(script, need, grouped), readings[0]), need, grouped, readings[1..])
  }

  lemma {:induction false} FedFinished(need: nat, grouped: bool, readings: seq<nat>)
    ensures Fed(Finished, need, grouped, readings) == Finished
    decreases |readings|
  {
    if readings != [] {
      FedFinished(need, grouped, readings[1..]);
    }
  }

  /** The script's two loops over the readings it gets. */
  method Ready(need: nat, grouped: bool, readings: seq<nat>) returns (script: Script)
    ensures script == Fed(Polling(0), need, grouped, readings)
  {
    var d: nat, i := 0, 0;
    while d < need && i < |readings|
      invariant i <= |readings|
      invariant Fed(Polling(0), need, grouped, readings) == Fed(Polling(d), need, grouped, readings[i..])
      decreases |readings| - i
    {
      d := readings[i];
      i := i + 1;
      assert readings[i - 1..][1..] == readings[i..];
    }
    FedFinished(need, grouped, readings[i..]);
    if d < need {
      return Polling(d);
    }
    if !grouped {
      return Finished;
    }
    if i == |readings| {
      return Asking;
    }
    var needed := readings[i];
    d, i := 0, i + 1;
    assert readings[i - 1..][1..] == readings[i..];
    while d < needed && i < |readings|
      invariant i <= |readings|
      invariant Fed(Polling(0), need, grouped, readings) == Fed(GroupPolling(needed, d), need, grouped, readings[i..])
      decreases |readings| - i
    {
      d := readings[i];
      i := i + 1;
      assert readings[i - 1..][1..] == readings[i..];
    }
    FedFinished(need, grouped, readings[i..]);
    return if d < needed then GroupPolling(needed, d) else Finished;
  }

  // ----- the pods -----

  /** A label query. */
  datatype Selector = Workload(name: nat) | Group(id: nat)

  /** A pod to be created: its labels, how many init containers it has of its own, and,
      if it is synced, the threshold given to its script. */
  datatype Spec = Spec(workload: nat, grouped: bool, group: nat, reals: nat, synced: bool, need: nat)

  predicate Carries(spec: Spec, sel: Selector) {
    match sel
    case Workload(name) => spec.workload == name
    case Group(id) => spec.grouped && spec.group == id
  }

  /** A pod so far: whether it exists, how many of its own init containers have completed,
      and its script. */
  datatype Pod = Pod(created: bool, done: nat, script: Script)

  type Pods = seq<Pod>

  /** How many init containers of their own the pods with a label have. */
  function Total(specs: seq<Spec>, sel: Selector): nat {
    if specs == [] then 0
    else
      var n := |specs| - 1;
      Total(specs[..n], sel) + if Carries(specs[n], sel) then specs[n].reals else 0
  }

  /** The same for the pods that exist. */
  function Existing(specs: seq<Spec>, pods: Pods, sel: Selector): nat
    requires |specs| == |pods|
    decreases |specs|
  {
    if specs == [] then 0
    else
      var n := |specs| - 1;
      Existing(specs[..n], pods[..n], sel) + if pods[n].created && Carries(specs[n], sel) then specs[n].reals else 0
  }

  /** How many init containers have completed under a label, the scripts' included. */
  function Completed(specs: seq<Spec>, pods: Pods, sel: Selector): nat
    requires |specs| == |pods|
    decreases |specs|
  {
    if specs == [] then 0
    else
      var n := |specs| - 1;
      Completed(specs[..n], pods[..n], sel) +
      if Carries(specs[n], sel) then pods[n].done + (if pods[n].script.Finished? then 1 else 0) else 0
  }

  /** All own init containers under a label have completed. */
  ghost predicate AllDone(specs: seq<Spec>, pods: Pods, sel: Selector)
    requires |specs| == |pods|
  {
    forall p :: 0 <= p < |specs| && Carries(specs[p], sel) ==> pods[p].done == specs[p].reals
  }

  // ----- the threshold -----

  /** A workload of `count` pods that all have `k` init containers of their own. */
  lemma {:induction false} ThresholdIsTotal(specs: seq<Spec>, name: nat, k: nat, count: nat)
    requires forall p :: 0 <= p < |specs| && specs[p].workload == name ==> specs[p].reals == k
    requires Members(specs, name) == count
    ensures Total(specs, Workload(name)) == k * count
    decreases |specs|
  {
    if specs != [] {
      var n := |specs| - 1;
      ThresholdIsTotal(specs[..n], name, k, Members(specs[..n], name));
      assert k * (Members(specs[..n], name) + 1) == k * Members(specs[..n], name) + k;
    }
  }

  function Members(specs: seq<Spec>, name: nat): nat {
    if specs == [] then 0
    else Members(specs[..|specs| - 1], name) + if specs[|specs| - 1].workload == name then 1 else 0
  }

  /** The thresholds are right: only the pods of one generation are under each label. */
  ghost predicate RightThresholds(specs: seq<Spec>) {
    forall p :: 0 <= p < |specs| && specs[p].synced ==> specs[p].need == Total(specs, Workload(specs[p].workload))
  }

  // ----- steps -----

  datatype Event =
    | Create(p: nat)
    | Complete(p: nat)
    | Start(p: nat)
    | Reading(p: nat, answered: bool)
    | Leave(p: nat)

  predicate Enabled(specs: seq<Spec>, pods: Pods, e: Event)
    requires |specs| == |pods|
  {
    && e.p < |specs|
    && var spec, pod := specs[e.p], pods[e.p];
       match e
       case Create(_) => !pod.created
       case Complete(_) => pod.created && pod.done < spec.reals
       case Start(_) => pod.created && pod.done == spec.reals && spec.synced && pod.script.NotStarted?
       case Reading(_, _) => !pod.script.NotStarted? && Settled(pod.script, spec.need, spec.grouped) == pod.script != Finished
       case Leave(_) => Settled(pod.script, spec.need, spec.grouped) != pod.script
  }

  /** What a script reads; a request that is not answered reads as nothing completed. */
  function ReadingOf(specs: seq<Spec>, pods: Pods, p: nat, answered: bool): nat
    requires |specs| == |pods| && p < |specs|
  {
    if !answered then 0
    else
      match pods[p].script
      case Asking => Existing(specs, pods, Group(specs[p].group))
      case GroupPolling(_, _) => Completed(specs, pods, Group(specs[p].group))
      case _ => Completed(specs, pods, Workload(specs[p].workload))
  }

  function Do(specs: seq<Spec>, pods: Pods, e: Event): Pods
    requires |specs| == |pods| && Enabled(specs, pods, e)
    ensures |Do(specs, pods, e)| == |pods|
  {
    var pod := pods[e.p];
    pods[e.p := match e
                case Create(_) => pod.(created := true)
                case Complete(_) => pod.(done := pod.done + 1)
                case Start(_) => pod.(script := Polling(0))
                case Reading(_, answered) => pod.(script := Read(pod.script, ReadingOf(specs, pods, e.p, answered)))
                case Leave(_) => pod.(script := Settled(pod.script, specs[e.p].need, specs[e.p].grouped))]
  }

  // ----- runs -----

  predicate Legal(specs: seq<Spec>, pods: Pods, run: seq<Event>)
    requires |specs| == |pods|
    decreases |run|, 0
  {
    run == [] || (Legal(specs, pods, run[..|run| - 1]) && Enabled(specs, After(specs, pods, run[..|run| - 1]), run[|run| - 1]))
  }

  function After(specs: seq<Spec>, pods: Pods, run: seq<Event>): Pods
    requires |specs| == |pods| && Legal(specs, pods, run)
    ensures |After(specs, pods, run)| == |pods|
    decreases |run|, 1
  {
    if run == [] then pods else Do(specs, After(specs, pods, run[..|run| - 1]), run[|run| - 1])
  }

  lemma Extend(specs: seq<Spec>, pods: Pods, run: seq<Event>, e: Event)
    requires |specs| == |pods| && Legal(specs, pods, run) && Enabled(specs, After(specs, pods, run), e)
    ensures Legal(specs, pods, run + [e])
    ensures After(specs, pods, run + [e]) == Do(specs, After(specs, pods, run), e)
  {
    assert (run + [e])[..|run|] == run;
  }

  /** Nothing exists yet. */
  function Initial(specs: seq<Spec>): Pods {
    seq(|specs|, _ => Pod(false, 0, NotStarted))
  }

  // ----- safety of the first loop -----

  ghost predicate PodInv(specs: seq<Spec>, pods: Pods, p: nat)
    requires |specs| == |pods| && p < |specs|
  {
    var spec, pod := specs[p], pods[p];
    && pod.done <= spec.reals
    && (!pod.created ==> pod.done == 0)
    && (!pod.script.NotStarted? ==> pod.created && spec.synced && pod.done == spec.reals)
    && match pod.script
       case NotStarted => true
       case Polling(d) => d >= spec.need ==> AllDone(specs, pods, Workload(spec.workload))
       case Asking => spec.grouped && AllDone(specs, pods, Workload(spec.workload))
       case GroupPolling(needed, _) =>
         && spec.grouped && AllDone(specs, pods, Workload(spec.workload))
         && needed <= Total(specs, Group(spec.group))
       case Finished => AllDone(specs, pods, Workload(spec.workload))
  }

  ghost predicate Inv(specs: seq<Spec>, pods: Pods) {
    |specs| == |pods| && forall p :: 0 <= p < |specs| ==> PodInv(specs, pods, p)
  }

  lemma AllDoneStays(specs: seq<Spec>, pods: Pods, e: Event, sel: Selector)
    requires |specs| == |pods| && Enabled(specs, pods, e) && AllDone(specs, pods, sel)
    ensures AllDone(specs, Do(specs, pods, e), sel)
  {
  }

  /** No more can have completed than the pods have, except for scripts. */
  lemma {:induction false} WithoutScripts(specs: seq<Spec>, pods: Pods, sel: Selector)
    requires |specs| == |pods| && forall p :: 0 <= p < |specs| ==> pods[p].done <= specs[p].reals
    requires forall p :: 0 <= p < |specs| && Carries(specs[p], sel) ==> !pods[p].script.Finished?
    ensures Completed(specs, pods, sel) <= Total(specs, sel)
    ensures Completed(specs, pods, sel) == Total(specs, sel) ==> AllDone(specs, pods, sel)
    decreases |specs|
  {
    if specs != [] {
      var n := |specs| - 1;
      WithoutScripts(specs[..n], pods[..n], sel);
      if Completed(specs, pods, sel) == Total(specs, sel) {
        forall p | 0 <= p < |specs| && Carries(specs[p], sel)
          ensures pods[p].done == specs[p].reals
        {
          assert p < n ==> specs[..n][p] == specs[p] && pods[..n][p] == pods[p];
        }
      }
    }
  }

  /** The first script to finish cannot have been fooled by others. */
  lemma {:induction false} EnoughMeansAll(specs: seq<Spec>, pods: Pods, sel: Selector)
    requires |specs| == |pods| && forall p :: 0 <= p < |specs| ==> pods[p].done <= specs[p].reals
    requires forall p :: 0 <= p < |specs| && Carries(specs[p], sel) && pods[p].script.Finished? ==> AllDone(specs, pods, sel)
    requires Completed(specs, pods, sel) >= Total(specs, sel)
    ensures AllDone(specs, pods, sel)
  {
    if forall p :: 0 <= p < |specs| && Carries(specs[p], sel) ==> !pods[p].script.Finished? {
      WithoutScripts(specs, pods, sel);
    }
  }

  lemma {:induction false} ExistingBound(specs: seq<Spec>, pods: Pods, sel: Selector)
    requires |specs| == |pods|
    ensures Existing(specs, pods, sel) <= Total(specs, sel)
    decreases |specs|
  {
    if specs != [] {
      ExistingBound(specs[..|specs| - 1], pods[..|specs| - 1], sel);
    }
  }

  lemma StartKeepsInv(specs: seq<Spec>, pods: Pods, p: nat)
    requires Inv(specs, pods) && RightThresholds(specs) && Enabled(specs, pods, Start(p))
    ensures PodInv(specs, Do(specs, pods, Start(p)), p)
  {
    var sel := Workload(specs[p].workload);
    if specs[p].need == 0 {
      assert PodInv(specs, pods, p);
      EnoughMeansAllDone(specs, pods, p);
      AllDoneStays(specs, pods, Start(p), sel);
    }
  }

  lemma EnoughMeansAllDone(specs: seq<Spec>, pods: Pods, p: nat)
    requires Inv(specs, pods) && RightThresholds(specs) && p < |specs| && specs[p].synced
    requires Completed(specs, pods, Workload(specs[p].workload)) >= specs[p].need
    ensures AllDone(specs, pods, Workload(specs[p].workload))
  {
    var sel := Workload(specs[p].workload);
    forall q | 0 <= q < |specs|
      ensures pods[q].done <= specs[q].reals
      ensures Carries(specs[q], sel) && pods[q].script.Finished? ==> AllDone(specs, pods, sel)
    {
      assert PodInv(specs, pods, q);
    }
    EnoughMeansAll(specs, pods, sel);
  }

  lemma ReadingKeepsInv(specs: seq<Spec>, pods: Pods, p: nat, answered: bool)
    requires Inv(specs, pods) && RightThresholds(specs) && Enabled(specs, pods, Reading(p, answered))
    ensures PodInv(specs, Do(specs, pods, Reading(p, answered)), p)
  {
    assert PodInv(specs, pods, p);
    var e, sel := Reading(p, answered), Workload(specs[p].workload);
    if pods[p].script.Polling? {
      if ReadingOf(specs, pods, p, answered) >= specs[p].need {
        EnoughMeansAllDone(specs, pods, p);
        AllDoneStays(specs, pods, e, sel);
      }
    } else {
      AllDoneStays(specs, pods, e, sel);
      ExistingBound(specs, pods, Group(specs[p].group));
    }
  }

  lemma OthersKeepInv(specs: seq<Spec>, pods: Pods, e: Event, q: nat)
    requires Inv(specs, pods) && Enabled(specs, pods, e) && q < |specs| && q != e.p
    ensures PodInv(specs, Do(specs, pods, e), q)
  {
    assert PodInv(specs, pods, q);
    if AllDone(specs, pods, Workload(specs[q].workload)) {
      AllDoneStays(specs, pods, e, Workload(specs[q].workload));
    }
  }

  lemma StepKeepsInv(specs: seq<Spec>, pods: Pods, e: Event)
    requires Inv(specs, pods) && RightThresholds(specs) && Enabled(specs, pods, e)
    ensures Inv(specs, Do(specs, pods, e))
  {
    forall q | 0 <= q < |specs|
      ensures PodInv(specs, Do(specs, pods, e), q)
    {
      if q != e.p {
        OthersKeepInv(specs, pods, e, q);
      } else {
        assert PodInv(specs, pods, q);
        if AllDone(specs, pods, Workload(specs[q].workload)) {
          AllDoneStays(specs, pods, e, Workload(specs[q].workload));
        }
        match e
        case Start(p) => StartKeepsInv(specs, pods, p);
        case Reading(p, answered) => ReadingKeepsInv(specs, pods, p, answered);
        case _ =>
      }
    }
  }

  predicate PastFirstLoop(script: Script) {
    script.Asking? || script.GroupPolling? || script.Finished?
  }

  /** Over every run: when a script has finished, or has left its first loop, every init
      container of its workload's pods has completed, although the readings count
      finished scripts as well. */
  lemma {:induction false} NoScriptIsEarly(specs: seq<Spec>, run: seq<Event>)
    requires RightThresholds(specs) && Legal(specs, Initial(specs), run)
    ensures var pods := After(specs, Initial(specs), run);
            && Inv(specs, pods)
            && forall p :: 0 <= p < |specs| && PastFirstLoop(pods[p].script) ==> AllDone(specs, pods, Workload(specs[p].workload))
    decreases |run|
  {
    var pods := After(specs, Initial(specs), run);
    if run != [] {
      var init := run[..|run| - 1];
      NoScriptIsEarly(specs, init);
      StepKeepsInv(specs, After(specs, Initial(specs), init), run[|run| - 1]);
    }
    forall p | 0 <= p < |specs| && PastFirstLoop(pods[p].script)
      ensures AllDone(specs, pods, Workload(specs[p].workload))
    {
      assert PodInv(specs, pods, p);
    }
  }

  // ----- safety of the second loop -----

  /** What the group's containers add up to when the script asks for it: all pods that
      have any exist by then, or all that will ever be are done already. */
  ghost predicate AskedInTime(specs: seq<Spec>, pods: Pods, e: Event)
    requires |specs| == |pods| && Enabled(specs, pods, e)
  {
    e.Reading? && pods[e.p].script.Asking? && specs[e.p].grouped ==>
      var sel := Group(specs[e.p].group);
      ReadingOf(specs, pods, e.p, e.answered) >= Total(specs, sel) || AllDone(specs, pods, sel)
  }

  ghost predicate AllInTime(specs: seq<Spec>, pods: Pods, run: seq<Event>)
    requires |specs| == |pods| && Legal(specs, pods, run)
    decreases |run|
  {
    run == [] ||
    (AllInTime(specs, pods, run[..|run| - 1]) && AskedInTime(specs, After(specs, pods, run[..|run| - 1]), run[|run| - 1]))
  }

  ghost predicate GroupInvOf(specs: seq<Spec>, pods: Pods, p: nat)
    requires |specs| == |pods| && p < |specs|
  {
    specs[p].grouped ==>
      var sel := Group(specs[p].group);
      match pods[p].script
      case GroupPolling(needed, d) =>
        && (needed >= Total(specs, sel) || AllDone(specs, pods, sel))
        && (d >= needed ==> AllDone(specs, pods, sel))
      case Finished => AllDone(specs, pods, sel)
      case _ => true
  }

  ghost predicate GroupInv(specs: seq<Spec>, pods: Pods) {
    Inv(specs, pods) && forall p :: 0 <= p < |specs| ==> GroupInvOf(specs, pods, p)
  }

  lemma EnoughInGroup(specs: seq<Spec>, pods: Pods, p: nat)
    requires GroupInv(specs, pods) && p < |specs| && specs[p].grouped
    requires Completed(specs, pods, Group(specs[p].group)) >= Total(specs, Group(specs[p].group))
    ensures AllDone(specs, pods, Group(specs[p].group))
  {
    var sel := Group(specs[p].group);
    forall q | 0 <= q < |specs|
      ensures pods[q].done <= specs[q].reals
      ensures Carries(specs[q], sel) && pods[q].script.Finished? ==> AllDone(specs, pods, sel)
    {
      assert PodInv(specs, pods, q) && GroupInvOf(specs, pods, q);
    }
    EnoughMeansAll(specs, pods, sel);
  }

  lemma ReadingKeepsGroupInv(specs: seq<Spec>, pods: Pods, e: Event)
    requires GroupInv(specs, pods) && Enabled(specs, pods, e) && e.Reading? && AskedInTime(specs, pods, e)
    ensures GroupInvOf(specs, Do(specs, pods, e), e.p)
  {
    var p := e.p;
    assert PodInv(specs, pods, p) && GroupInvOf(specs, pods, p);
    var sel := Group(specs[p].group);
    if specs[p].grouped && !pods[p].script.Polling? {
      var reading := ReadingOf(specs, pods, p, e.answered);
      if AllDone(specs, pods, sel) {
        AllDoneStays(specs, pods, e, sel);
      } else if pods[p].script.GroupPolling? && reading >= pods[p].script.needed {
        EnoughInGroup(specs, pods, p);
      } else if pods[p].script.Asking? && reading == 0 {
        EnoughInGroup(specs, pods, p);
      }
    }
  }

  lemma StepKeepsGroupInv(specs: seq<Spec>, pods: Pods, e: Event)
    requires GroupInv(specs, pods) && RightThresholds(specs) && Enabled(specs, pods, e) && AskedInTime(specs, pods, e)
    ensures GroupInv(specs, Do(specs, pods, e))
  {
    StepKeepsInv(specs, pods, e);
    forall q | 0 <= q < |specs|
      ensures GroupInvOf(specs, Do(specs, pods, e), q)
    {
      assert PodInv(specs, pods, q) && GroupInvOf(specs, pods, q);
      if e.Reading? && q == e.p {
        ReadingKeepsGroupInv(specs, pods, e);
      } else if AllDone(specs, pods, Group(specs[q].group)) {
        AllDoneStays(specs, pods, e, Group(specs[q].group));
      }
    }
  }

  /** Over every continuation in which the scripts ask in time, no script of a group
      finishes before every init container of the group has completed. */
  lemma {:induction false} GroupIsNotEarly(specs: seq<Spec>, pods: Pods, run: seq<Event>)
    requires GroupInv(specs, pods) && RightThresholds(specs) && Legal(specs, pods, run) && AllInTime(specs, pods, run)
    ensures var after := After(specs, pods, run);
            && GroupInv(specs, after)
            && forall p :: 0 <= p < |specs| && specs[p].grouped && after[p].script.Finished? ==>
                 AllDone(specs, after, Group(specs[p].group))
    decreases |run|
  {
    var after := After(specs, pods, run);
    if run != [] {
      var init := run[..|run| - 1];
      GroupIsNotEarly(specs, pods, init);
      StepKeepsGroupInv(specs, After(specs, pods, init), run[|run| - 1]);
    }
    forall p | 0 <= p < |specs| && specs[p].grouped && after[p].script.Finished?
      ensures AllDone(specs, after, Group(specs[p].group))
    {
      assert GroupInvOf(specs, after, p);
    }
  }

  lemma InitialGroupInv(specs: seq<Spec>)
    ensures GroupInv(specs, Initial(specs))
  {
  }

  // ----- asking too early -----

  lemma {:induction false} CompleteCounts(specs: seq<Spec>, pods: Pods, p: nat, sel: Selector)
    requires |specs| == |pods| && p < |specs| && Carries(specs[p], sel) && Enabled(specs, pods, Complete(p))
    ensures var after := Do(specs, pods, Complete(p));
            && Completed(specs, after, sel) == Completed(specs, pods, sel) + 1
            && Existing(specs, after, sel) == Existing(specs, pods, sel)
    decreases |specs|
  {
    var n, after := |specs| - 1, Do(specs, pods, Complete(p));
    if p == n {
      assert after[..n] == pods[..n];
    } else {
      CompleteCounts(specs[..n], pods[..n], p, sel);
      assert after[..n] == Do(specs[..n], pods[..n], Complete(p));
    }
  }

  /** Some existing pod has something left to do, unless enough has completed. */
  lemma {:induction false} LeftToDo(specs: seq<Spec>, pods: Pods, sel: Selector) returns (p: nat)
    requires |specs| == |pods| && Completed(specs, pods, sel) < Existing(specs, pods, sel)
    ensures p < |specs| && Carries(specs[p], sel) && pods[p].created && pods[p].done < specs[p].reals
    decreases |specs|
  {
    p := |specs| - 1;
    if !(Carries(specs[p], sel) && pods[p].created && pods[p].done < specs[p].reals) {
      p := LeftToDo(specs[..p], pods[..p], sel);
    }
  }

  /** Only own init containers of existing pods go on. */
  ghost predicate OnlyDone(pods: Pods, after: Pods) {
    && |pods| == |after|
    && forall p :: 0 <= p < |pods| ==>
         after[p] == pods[p].(done := after[p].done) && (!pods[p].created ==> after[p] == pods[p])
  }

  /** The existing pods under a label can go on until as much has completed as they have. */
  lemma ExistingCanComplete(specs: seq<Spec>, pods: Pods, sel: Selector) returns (run: seq<Event>)
    requires |specs| == |pods|
    ensures Legal(specs, pods, run) && AllInTime(specs, pods, run)
    ensures var after := After(specs, pods, run);
            && OnlyDone(pods, after)
            && Completed(specs, after, sel) >= Existing(specs, pods, sel)
    decreases Existing(specs, pods, sel) - Completed(specs, pods, sel)
  {
    run := [];
    while Completed(specs, After(specs, pods, run), sel) < Existing(specs, pods, sel)
      invariant Legal(specs, pods, run) && AllInTime(specs, pods, run)
      invariant OnlyDone(pods, After(specs, pods, run))
      invariant Existing(specs, After(specs, pods, run), sel) == Existing(specs, pods, sel)
      decreases Existing(specs, pods, sel) - Completed(specs, After(specs, pods, run), sel)
    {
      var m := After(specs, pods, run);
      var p := LeftToDo(specs, m, sel);
      CompleteCounts(specs, m, p, sel);
      Extend(specs, pods, run, Complete(p));
      assert (run + [Complete(p)])[..|run|] == run;
      run := run + [Complete(p)];
    }
  }

  lemma {:induction false} SomeMissing(specs: seq<Spec>, pods: Pods, sel: Selector) returns (p: nat)
    requires |specs| == |pods| && Existing(specs, pods, sel) < Total(specs, sel)
    ensures p < |specs| && Carries(specs[p], sel) && !pods[p].created && specs[p].reals > 0
    decreases |specs|
  {
    p := |specs| - 1;
    if !(Carries(specs[p], sel) && !pods[p].created && specs[p].reals > 0) {
      p := SomeMissing(specs[..p], pods[..p], sel);
    }
  }

  /** A script that has finished although its group has not. */
  ghost predicate TooEarly(specs: seq<Spec>, pods: Pods, p: nat)
    requires |specs| == |pods| && p < |specs|
  {
    pods[p].script.Finished? && !AllDone(specs, pods, Group(specs[p].group))
  }

  ghost predicate LeadsTooEarly(specs: seq<Spec>, pods: Pods, p: nat, run: seq<Event>)
    requires |specs| == |pods| && p < |specs|
  {
    Legal(specs, pods, run) && AllInTime(specs, pods, run) && TooEarly(specs, After(specs, pods, run), p)
  }

  lemma ExtendInTime(specs: seq<Spec>, pods: Pods, run: seq<Event>, e: Event)
    requires |specs| == |pods| && Legal(specs, pods, run) && AllInTime(specs, pods, run)
    requires Enabled(specs, After(specs, pods, run), e) && AskedInTime(specs, After(specs, pods, run), e)
    ensures Legal(specs, pods, run + [e]) && AllInTime(specs, pods, run + [e])
    ensures After(specs, pods, run + [e]) == Do(specs, After(specs, pods, run), e)
  {
    Extend(specs, pods, run, e);
    assert (run + [e])[..|run|] == run;
  }

  /** A script that has heard too little from its group can finish while a pod that was
      missing then, or was overlooked, is not done. */
  lemma {:induction false} TooLittleCanFinish(specs: seq<Spec>, pods: Pods, p: nat, answered: bool) returns (run: seq<Event>)
    requires Inv(specs, pods) && p < |specs| && specs[p].grouped && pods[p].script.Asking?
    requires ReadingOf(specs, pods, p, answered) < Total(specs, Group(specs[p].group))
    requires !AllDone(specs, pods, Group(specs[p].group))
    ensures LeadsTooEarly(specs, Do(specs, pods, Reading(p, answered)), p, run)
  {
    assert PodInv(specs, pods, p);
    var sel := Group(specs[p].group);
    var needed := ReadingOf(specs, pods, p, answered);
    var asked := Do(specs, pods, Reading(p, answered));
    run := [];
    if needed > 0 {
      ReadingKeepsExisting(specs, pods, p, answered, sel);
      var q := SomeMissing(specs, pods, sel);
      assert PodInv(specs, pods, q);
      run := ExistingCanComplete(specs, asked, sel);
      ExtendInTime(specs, asked, run, Reading(p, true));
      run := run + [Reading(p, true)];
      assert !After(specs, asked, run)[q].created && After(specs, asked, run)[q].done == 0;
    }
    ExtendInTime(specs, asked, run, Leave(p));
    run := run + [Leave(p)];
  }

  lemma ReadingKeepsExisting(specs: seq<Spec>, pods: Pods, p: nat, answered: bool, sel: Selector)
    requires |specs| == |pods| && Enabled(specs, pods, Reading(p, answered))
    ensures Existing(specs, Do(specs, pods, Reading(p, answered)), sel) == Existing(specs, pods, sel)
  {
    SameExisting(specs, pods, Do(specs, pods, Reading(p, answered)), sel);
  }

  lemma {:induction false} SameExisting(specs: seq<Spec>, pods: Pods, after: Pods, sel: Selector)
    requires |specs| == |pods| == |after| && forall q :: 0 <= q < |specs| ==> pods[q].created == after[q].created
    ensures Existing(specs, after, sel) == Existing(specs, pods, sel)
    decreases |specs|
  {
    if specs != [] {
      var n := |specs| - 1;
      SameExisting(specs[..n], pods[..n], after[..n], sel);
    }
  }

  /** Exactly when asking is safe: the script can finish too early afterwards if and only if
      it heard less than the whole group has, because pods were missing or the request was
      not answered, while something in the group was still to be done. */
  lemma {:induction false} AskingTooEarlyIff(specs: seq<Spec>, pods: Pods, p: nat, answered: bool)
    requires GroupInv(specs, pods) && RightThresholds(specs)
    requires p < |specs| && specs[p].grouped && pods[p].script.Asking?
    ensures var sel := Group(specs[p].group);
            (exists run :: LeadsTooEarly(specs, Do(specs, pods, Reading(p, answered)), p, run)) <==>
            ReadingOf(specs, pods, p, answered) < Total(specs, sel) && !AllDone(specs, pods, sel)
  {
    assert PodInv(specs, pods, p);
    var sel, e := Group(specs[p].group), Reading(p, answered);
    if ReadingOf(specs, pods, p, answered) < Total(specs, sel) && !AllDone(specs, pods, sel) {
      var run := TooLittleCanFinish(specs, pods, p, answered);
    } else {
      StepKeepsGroupInv(specs, pods, e);
      forall run
        ensures !LeadsTooEarly(specs, Do(specs, pods, e), p, run)
      {
        if LeadsTooEarly(specs, Do(specs, pods, e), p, run) {
          GroupIsNotEarly(specs, Do(specs, pods, e), run);
        }
      }
    }
  }

  // ----- progress -----

  lemma {:induction false} Concat(specs: seq<Spec>, pods: Pods, a: seq<Event>, b: seq<Event>)
    requires |specs| == |pods| && Legal(specs, pods, a) && Legal(specs, After(specs, pods, a), b)
    ensures Legal(specs, pods, a + b) && After(specs, pods, a + b) == After(specs, After(specs, pods, a), b)
    decreases |b|
  {
    if b == [] {
      assert a + b == a;
    } else {
      Concat(specs, pods, a, b[..|b| - 1]);
      assert (a + b)[..|a + b| - 1] == a + b[..|b| - 1];
    }
  }

  lemma {:induction false} AllIsEnough(specs: seq<Spec>, pods: Pods, sel: Selector)
    requires |specs| == |pods| && AllDone(specs, pods, sel)
    ensures Completed(specs, pods, sel) >= Total(specs, sel)
    decreases |specs|
  {
    if specs != [] {
      var n := |specs| - 1;
      assert AllDone(specs[..n], pods[..n], sel) by {
        forall q | 0 <= q < n && Carries(specs[..n][q], sel)
          ensures pods[..n][q].done == specs[..n][q].reals
        {
          assert Carries(specs[q], sel);
        }
      }
      AllIsEnough(specs[..n], pods[..n], sel);
    }
  }

  /** A pod's own init containers can all complete. */
  lemma {:induction false} PodCanComplete(specs: seq<Spec>, pods: Pods, p: nat) returns (run: seq<Event>)
    requires |specs| == |pods| && p < |specs| && pods[p].done <= specs[p].reals
    ensures Legal(specs, pods, run)
    ensures After(specs, pods, run) == pods[p := pods[p].(created := true, done := specs[p].reals)]
    decreases specs[p].reals - pods[p].done, !pods[p].created
  {
    if pods[p].created && pods[p].done == specs[p].reals {
      run := [];
    } else {
      var e := if pods[p].created then Complete(p) else Create(p);
      var next := Do(specs, pods, e);
      Extend(specs, pods, [], e);
      var rest := PodCanComplete(specs, next, p);
      Concat(specs, pods, [e], rest);
      run := [e] + rest;
    }
  }

  /** Everything a script waits for has happened. */
  ghost predicate AllClear(specs: seq<Spec>, pods: Pods, p: nat)
    requires |specs| == |pods| && p < |specs|
  {
    && AllDone(specs, pods, Workload(specs[p].workload))
    && (specs[p].grouped ==> AllDone(specs, pods, Group(specs[p].group)))
  }

  /** What is left for a script to do, at most. */
  function StepsLeft(script: Script, need: nat): nat {
    match script
    case NotStarted => 6
    case Polling(d) => if d < need then 5 else 4
    case Asking => 3
    case GroupPolling(needed, d) => if d < needed then 2 else 1
    case Finished => 0
  }

  function NextOwn(specs: seq<Spec>, pods: Pods, p: nat): Event
    requires |specs| == |pods| && p < |specs|
  {
    if pods[p].script.NotStarted? then Start(p)
    else if Settled(pods[p].script, specs[p].need, specs[p].grouped) == pods[p].script then Reading(p, true)
    else Leave(p)
  }

  /** Once all is done, each step of a script brings it nearer to its end. */
  lemma ScriptStep(specs: seq<Spec>, pods: Pods, p: nat)
    requires Inv(specs, pods) && RightThresholds(specs) && p < |specs| && AllClear(specs, pods, p)
    requires specs[p].synced && pods[p].created && pods[p].script != Finished
    ensures Enabled(specs, pods, NextOwn(specs, pods, p))
    ensures StepsLeft(Do(specs, pods, NextOwn(specs, pods, p))[p].script, specs[p].need) < StepsLeft(pods[p].script, specs[p].need)
  {
    assert PodInv(specs, pods, p);
    AllIsEnough(specs, pods, Workload(specs[p].workload));
    if specs[p].grouped {
      AllIsEnough(specs, pods, Group(specs[p].group));
    }
  }

  /** Once every init container it waits for has completed, a script can finish by itself,
      in at most six steps, whatever it has read before. */
  lemma {:induction false} ScriptCanFinish(specs: seq<Spec>, pods: Pods, p: nat) returns (run: seq<Event>)
    requires Inv(specs, pods) && RightThresholds(specs) && p < |specs| && AllClear(specs, pods, p)
    requires specs[p].synced && pods[p].created
    ensures Legal(specs, pods, run) && |run| <= StepsLeft(pods[p].script, specs[p].need)
    ensures var after := After(specs, pods, run);
            Inv(specs, after) && after == pods[p := pods[p].(script := Finished)]
    decreases StepsLeft(pods[p].script, specs[p].need)
  {
    if pods[p].script == Finished {
      run := [];
    } else {
      var e := NextOwn(specs, pods, p);
      ScriptStep(specs, pods, p);
      StepKeepsInv(specs, pods, e);
      Extend(specs, pods, [], e);
      AllDoneStays(specs, pods, e, Workload(specs[p].workload));
      if specs[p].grouped {
        AllDoneStays(specs, pods, e, Group(specs[p].group));
      }
      var rest := ScriptCanFinish(specs, Do(specs, pods, e), p);
      Concat(specs, pods, [e], rest);
      run := [e] + rest;
    }
  }

  /** The first `n` pods exist, and their own init containers have completed. */
  ghost predicate Through(specs: seq<Spec>, pods: Pods, n: nat)
    requires |specs| == |pods| && n <= |specs|
  {
    forall p :: 0 <= p < n ==> pods[p].created && pods[p].done == specs[p].reals
  }

  /** The scripts of the first `n` pods have finished. */
  ghost predicate ScriptsFinished(specs: seq<Spec>, pods: Pods, n: nat)
    requires |specs| == |pods| && n <= |specs|
  {
    forall p :: 0 <= p < n && specs[p].synced ==> pods[p].script == Finished
  }

  lemma {:induction false} RunKeepsInv(specs: seq<Spec>, pods: Pods, run: seq<Event>)
    requires Inv(specs, pods) && RightThresholds(specs) && Legal(specs, pods, run)
    ensures Inv(specs, After(specs, pods, run))
    decreases |run|
  {
    if run != [] {
      RunKeepsInv(specs, pods, run[..|run| - 1]);
      StepKeepsInv(specs, After(specs, pods, run[..|run| - 1]), run[|run| - 1]);
    }
  }

  lemma PodsCanComplete(specs: seq<Spec>, pods: Pods) returns (run: seq<Event>)
    requires Inv(specs, pods) && RightThresholds(specs)
    ensures Legal(specs, pods, run) && Inv(specs, After(specs, pods, run))
    ensures Through(specs, After(specs, pods, run), |specs|)
  {
    run := [];
    for n := 0 to |specs|
      invariant Legal(specs, pods, run) && Inv(specs, After(specs, pods, run))
      invariant Through(specs, After(specs, pods, run), n)
    {
      var m := After(specs, pods, run);
      assert PodInv(specs, m, n);
      var more := PodCanComplete(specs, m, n);
      Concat(specs, pods, run, more);
      run := run + more;
      RunKeepsInv(specs, m, more);
    }
  }

  /** The barrier never traps anyone: from every state a run can reach, there is a
      continuation in which all pods exist, all their init containers have completed, and
      all scripts have finished. */
  lemma AllCanFinish(specs: seq<Spec>, pods: Pods) returns (run: seq<Event>)
    requires Inv(specs, pods) && RightThresholds(specs)
    ensures Legal(specs, pods, run)
    ensures Through(specs, After(specs, pods, run), |specs|) && ScriptsFinished(specs, After(specs, pods, run), |specs|)
  {
    run := PodsCanComplete(specs, pods);
    for n := 0 to |specs|
      invariant Legal(specs, pods, run) && Inv(specs, After(specs, pods, run))
      invariant Through(specs, After(specs, pods, run), |specs|)
      invariant ScriptsFinished(specs, After(specs, pods, run), n)
    {
      if specs[n].synced {
        var m := After(specs, pods, run);
        assert AllClear(specs, m, n);
        var more := ScriptCanFinish(specs, m, n);
        Concat(specs, pods, run, more);
        run := run + more;
      }
    }
  }
}
