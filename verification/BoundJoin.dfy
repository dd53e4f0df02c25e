/** The join of pod records with claim records by volume name. */
module BoundJoin {
  import opened Wrappers
  import opened AuditLog

  predicate Names(r: Record, resource: Resource, pv: string) {
    r.id.resource == resource && r.pvName == Some(pv)
  }

  /** The position of the first pod record that carries the volume name, or |rs|. */
  function FirstPod(rs: seq<Record>, pv: string): (i: nat)
    ensures i <= |rs|
    ensures i < |rs| ==> Names(rs[i], Pods, pv)
    ensures forall j :: 0 <= j < i ==> !Names(rs[j], Pods, pv)
  {
    if rs == [] || Names(rs[0], Pods, pv) then 0 else 1 + FirstPod(rs[1..], pv)
  }

  /** The position of the last claim record before n that carries the volume name, or -1. */
  function LastClaim(rs: seq<Record>, pv: string, n: nat): (i: int)
    requires n <= |rs|
    ensures -1 <= i < n
    ensures i >= 0 ==> Names(rs[i], PersistentVolumeClaims, pv)
    ensures forall j :: i < j < n ==> !Names(rs[j], PersistentVolumeClaims, pv)
  {
    if n == 0 then -1
    else if Names(rs[n - 1], PersistentVolumeClaims, pv) then n - 1
    else LastClaim(rs, pv, n - 1)
  }

  /** Position i of the join, once the pods before p have been served. */
  function ServedAt(rs: seq<Record>, p: nat, i: nat): Record
    requires i < |rs|
  {
    var r := rs[i];
    if r.pvName.None? then r
    else
      var pv := r.pvName.value;
      if r.id.resource.Pods? && i < p && i == FirstPod(rs, pv) && LastClaim(rs, pv, |rs|) >= 0
      then r.(pvName := None, boundTime := rs[LastClaim(rs, pv, |rs|)].endTime)
      else if r.id.resource.PersistentVolumeClaims? && FirstPod(rs, pv) < p && FirstPod(rs, pv) < |rs|
      then r.(pvName := None)
      else r
  }

  /** Per volume name, the first pod that carries it takes the end time of the last
      claim that carries it and uses up all of those claims. */
  function Joined(rs: seq<Record>): seq<Record> {
    seq(|rs|, i requires 0 <= i < |rs| => ServedAt(rs, |rs|, i))
  }

  /** Position i while pod p is being served and the claims before c have been seen. */
  function ServingAt(rs: seq<Record>, p: nat, c: nat, i: nat): Record
    requires p < |rs| && c <= |rs| && i < |rs| && rs[p].pvName.Some?
  {
    var pv := rs[p].pvName.value;
    if FirstPod(rs, pv) != p then ServedAt(rs, p, i)
    else if i == p && LastClaim(rs, pv, c) >= 0 then rs[p].(pvName := None, boundTime := rs[LastClaim(rs, pv, c)].endTime)
    else if i < c && Names(rs[i], PersistentVolumeClaims, pv) then rs[i].(pvName := None)
    else ServedAt(rs, p, i)
  }

  lemma ServingEnds(rs: seq<Record>, p: nat, i: nat)
    requires p < |rs| && i < |rs| && rs[p].pvName.Some? && rs[p].id.resource.Pods?
    ensures ServingAt(rs, p, 0, i) == ServedAt(rs, p, i)
    ensures ServingAt(rs, p, |rs|, i) == ServedAt(rs, p + 1, i)
  {
  }

  /** Pod p is being served: does claim c match at this point, and what does it change? */
  lemma ServingStep(rs: seq<Record>, p: nat, c: nat, i: nat)
    requires p < |rs| && c < |rs| && i < |rs| && rs[p].pvName.Some? && rs[p].id.resource.Pods?
    ensures var hit := Names(ServingAt(rs, p, c, c), PersistentVolumeClaims, rs[p].pvName.value);
            && (hit ==> c != p && ServingAt(rs, p, c, c).endTime == rs[c].endTime)
            && ServingAt(rs, p, c + 1, i) ==
                 if hit && i == p then ServingAt(rs, p, c, p).(pvName := None, boundTime := rs[c].endTime)
                 else if hit && i == c then ServingAt(rs, p, c, c).(pvName := None)
                 else ServingAt(rs, p, c, i)
  {
  }

  lemma NothingToServe(rs: seq<Record>, p: nat, i: nat)
    requires p < |rs| && i < |rs| && !(rs[p].pvName.Some? && rs[p].id.resource.Pods?)
    ensures ServedAt(rs, p + 1, i) == ServedAt(rs, p, i)
  {
  }

  /** One claim of the inner loop. */
  lemma ServingNext(all: seq<Record>, results: seq<Record>, p: nat, c: nat, pvName: string)
    requires p < |all| == |results| && c < |all| && Names(all[p], Pods, pvName)
    requires forall i :: 0 <= i < |all| ==> results[i] == ServingAt(all, p, c, i)
    ensures if Names(results[c], PersistentVolumeClaims, pvName) then
              var served := results[p := results[p].(boundTime := results[c].endTime, pvName := None)];
              var next := served[c := served[c].(pvName := None)];
              forall i :: 0 <= i < |all| ==> next[i] == ServingAt(all, p, c + 1, i)
            else forall i :: 0 <= i < |all| ==> results[i] == ServingAt(all, p, c + 1, i)
  {
    forall i | 0 <= i < |all|
      ensures var hit := Names(results[c], PersistentVolumeClaims, pvName);
              (hit ==> c != p && results[c].endTime == all[c].endTime) &&
              ServingAt(all, p, c + 1, i) ==
                if hit && i == p then results[p].(pvName := None, boundTime := all[c].endTime)
                else if hit && i == c then results[c].(pvName := None) else results[i]
    {
      ServingStep(all, p, c, i);
    }
  }

  /** The inner loop: every claim with the pod's volume name is used up, the last wins. */
  method Serve(ghost all: seq<Record>, before: seq<Record>, p: nat, pvName: string) returns (results: seq<Record>)
    requires p < |all| == |before| && Names(all[p], Pods, pvName)
    requires forall i :: 0 <= i < |all| ==> before[i] == ServedAt(all, p, i)
    ensures |results| == |all| && forall i :: 0 <= i < |all| ==> results[i] == ServedAt(all, p + 1, i)
  {
    results := before;
    var c := 0;
    forall i | 0 <= i < |all|
      ensures ServingAt(all, p, 0, i) == ServedAt(all, p, i) && ServingAt(all, p, |all|, i) == ServedAt(all, p + 1, i)
    {
      ServingEnds(all, p, i);
    }
    while c < |results|
      invariant 0 <= c <= |all| == |results|
      invariant forall i :: 0 <= i < |all| ==> results[i] == ServingAt(all, p, c, i)
    {
      ServingNext(all, results, p, c, pvName);
      if results[c].pvName == Some(pvName) && results[c].id.resource.PersistentVolumeClaims? {
        results := results[p := results[p].(boundTime := results[c].endTime, pvName := None)];
        results := results[c := results[c].(pvName := None)];
      }
      c := c + 1;
    }
  }

  /** The nested loops, deleting volume names as they go. */
  method BoundTimes(all: seq<Record>) returns (results: seq<Record>)
    ensures results == Joined(all)
  {
    results := all;
    var p := 0;
    while p < |results|
      invariant 0 <= p <= |all| == |results|
      invariant forall i :: 0 <= i < |all| ==> results[i] == ServedAt(all, p, i)
    {
      assert results[p] == all[p] || all[p].id.resource.PersistentVolumeClaims?;
      if results[p].pvName.Some? && results[p].id.resource.Pods? {
        results := Serve(all, results, p, results[p].pvName.value);
      } else {
        forall i | 0 <= i < |all|
          ensures ServedAt(all, p + 1, i) == ServedAt(all, p, i)
        {
          NothingToServe(all, p, i);
        }
      }
      p := p + 1;
    }
  }

  /** What the join leaves alone: everything but volume names and bound times. */
  lemma JoinKeepsTheRest(rs: seq<Record>)
    ensures |Joined(rs)| == |rs|
    ensures forall i :: 0 <= i < |rs| ==>
              Joined(rs)[i].(pvName := rs[i].pvName, boundTime := rs[i].boundTime) == rs[i]
  {
  }

  /** A claim is used up exactly when some pod carries its volume name; a pod is served
      exactly when it is the first to carry a name that some claim carries. */
  lemma JoinServes(rs: seq<Record>, i: nat, pv: string)
    requires i < |rs| && rs[i].pvName == Some(pv)
    ensures rs[i].id.resource.PersistentVolumeClaims? ==>
              (Joined(rs)[i].pvName.None? <==> exists j :: 0 <= j < |rs| && rs[j].id.resource == Pods && rs[j].pvName == Some(pv))
    ensures rs[i].id.resource.Pods? ==>
              (Joined(rs)[i].pvName.None? <==>
                && (exists j :: 0 <= j < |rs| && rs[j].id.resource == PersistentVolumeClaims && rs[j].pvName == Some(pv))
                && (forall j :: 0 <= j < i ==> !(rs[j].id.resource == Pods && rs[j].pvName == Some(pv))))
    ensures rs[i].id.resource.Pods? && Joined(rs)[i].pvName.None? ==>
              exists j :: 0 <= j < |rs| && rs[j].id.resource == PersistentVolumeClaims && rs[j].pvName == Some(pv) && Joined(rs)[i].boundTime == rs[j].endTime &&
                forall k :: j < k < |rs| ==> !(rs[k].id.resource == PersistentVolumeClaims && rs[k].pvName == Some(pv))
  {
    var last := LastClaim(rs, pv, |rs|);
    assert last >= 0 ==> Names(rs[last], PersistentVolumeClaims, pv);
  }
}
