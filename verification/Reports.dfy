/** Elapsed times, and the final form of a finished record. */
module Reports {
  import opened Wrappers
  import opened AuditLog

  const MAX_DURATION := 0x7FFF_FFFF_FFFF_FFFF
  const MIN_DURATION := -0x8000_0000_0000_0000

  /** Division that rounds toward zero. */
  function Quotient(x: int, y: int): int
    requires y > 0
  {
    if x >= 0 then x / y else -((-x) / y)
  }

  /** Microseconds from t1 to t2: the nanosecond difference saturates at 64 bits. */
  function TimeDiff(t1: int, t2: int): int {
    var d := t2 - t1;
    Quotient(if d > MAX_DURATION then MAX_DURATION else if d < MIN_DURATION then MIN_DURATION else d, 1000)
  }

  datatype Deltas = Deltas(d12: int, d23: int, d34: int, d45: int, d14: int)

  /** What is printed for a record: what is left of it once its times are consumed. */
  datatype Report = Report(
    action: Action, name: string, resource: string, namespace: string, labels: Option<map<string, string>>,
    goals: Option<Goals>, unfinished: bool, duration: int, deltas: Option<Deltas>,
    pvName: Option<string>, attachTime: Option<int>, containerTime: Option<int>, boundTime: Option<int>)

  function DisplayName(r: Resource): string {
    match r
    case Deployments => "Deployment"
    case Jobs => "Job"
    case PersistentVolumeClaims => "PersistentVolumeClaim"
    case PersistentVolumes => "PersistentVolume"
    case Pods => "Pod"
    case ReplicaSets => "ReplicaSet"
    case StatefulSets => "StatefulSet"
    case Events => "events"
    case Other(text) => text
  }

  /** A record with its duration, all other times still on it. */
  function Timed(r: Record): Report
    requires r.endTime.Some?
  {
    Report(r.action, r.id.name, DisplayName(r.id.resource), r.id.namespace, r.labels, r.goals, r.unfinished,
           TimeDiff(r.startTime, r.endTime.value), None, r.pvName, r.attachTime, r.containerTime, r.boundTime)
  }

  /** A record with its other times dropped. */
  function Stripped(r: Report): Report {
    r.(pvName := None, attachTime := None, containerTime := None, boundTime := None)
  }

  predicate HasAllTimes(r: Record) {
    r.endTime.Some? && r.boundTime.Some? && r.attachTime.Some? && r.containerTime.Some?
  }

  function AllDeltas(r: Record): Deltas
    requires HasAllTimes(r)
  {
    Deltas(
      TimeDiff(r.startTime, r.boundTime.value),
      TimeDiff(r.boundTime.value, r.attachTime.value),
      TimeDiff(r.attachTime.value, r.containerTime.value),
      TimeDiff(r.containerTime.value, r.endTime.value),
      TimeDiff(r.startTime, r.containerTime.value))
  }

  /** The four stage times account for the duration up to the truncations.  The bound
      needs no order on the times, only that no difference saturates; in order, the
      sum never exceeds the duration. */
  lemma DeltasAddUp(r: Record)
    requires HasAllTimes(r)
    requires forall t, u :: t in TimesOf(r) && u in TimesOf(r) ==> Spans(t, u)
    ensures var d := AllDeltas(r);
            var lost := TimeDiff(r.startTime, r.endTime.value) - (d.d12 + d.d23 + d.d34 + d.d45);
            -3 <= lost <= 3 &&
            (r.startTime <= r.boundTime.value <= r.attachTime.value <= r.containerTime.value <= r.endTime.value ==> lost >= 0)
  {
    var a, b, c, d, e := r.startTime, r.boundTime.value, r.attachTime.value, r.containerTime.value, r.endTime.value;
    assert Spans(a, b) && Spans(b, c) && Spans(c, d) && Spans(d, e) && Spans(a, e);
    QuotientsAddUp(b - a, c - b, d - c, e - d);
  }

  function TimesOf(r: Record): set<int>
    requires HasAllTimes(r)
  {
    {r.startTime, r.boundTime.value, r.attachTime.value, r.containerTime.value, r.endTime.value}
  }

  /** The difference fits a 64-bit duration. */
  predicate Spans(t: int, u: int) {
    MIN_DURATION <= u - t <= MAX_DURATION
  }

  lemma QuotientsAddUp(w: int, x: int, y: int, z: int)
    ensures var lost := Quotient(w + x + y + z, 1000) - (Quotient(w, 1000) + Quotient(x, 1000) + Quotient(y, 1000) + Quotient(z, 1000));
            -3 <= lost <= 3 && (w >= 0 && x >= 0 && y >= 0 && z >= 0 ==> lost >= 0)
  {
  }
}
