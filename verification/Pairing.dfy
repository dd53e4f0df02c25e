/** From captured directions to the calls of all connections: streams of a connection are
    paired by number, and each pair is read. */
module Pairing {
  import opened Wrappers
  import opened Frames
  import opened Demux
  import opened Captures
  import opened CsiCalls
  import opened Tallies

  // ----- one connection -----

  type Reader = (End, End, Stream, Stream) -> Reading

  /** It does not matter which end is called a. */
  ghost predicate Symmetric(read: Reader) {
    forall a, b, ab, ba :: read(a, b, ab, ba) == read(b, a, ba, ab)
  }

  datatype RawStreams = RawStreams(a: End, b: End, ab: map<nat, Stream>, ba: map<nat, Stream>)

  function Shared(rs: RawStreams): set<nat> {
    rs.ab.Keys * rs.ba.Keys
  }

  function ReadSid(rs: RawStreams, read: Reader, sid: nat): Reading {
    if sid in rs.ab && sid in rs.ba then read(rs.a, rs.b, rs.ab[sid], rs.ba[sid]) else Nothing
  }

  function CallsIn(r: Reading): multiset<Call> {
    if r.Read? then multiset{r.call} else multiset{}
  }

  ghost function SidCalls(rs: RawStreams, read: Reader): nat -> multiset<Call> {
    (sid: nat) => CallsIn(ReadSid(rs, read, sid))
  }

  ghost predicate IsBroken(rs: RawStreams, read: Reader) {
    exists sid :: sid in Shared(rs) && ReadSid(rs, read, sid).Broken?
  }

  /** All calls of a connection. */
  ghost function StreamCalls(rs: RawStreams, read: Reader): multiset<Call> {
    Tally(Shared(rs), SidCalls(rs, read))
  }

  function Swapped(rs: RawStreams): RawStreams {
    RawStreams(rs.b, rs.a, rs.ba, rs.ab)
  }

  lemma StreamCallsSwap(rs: RawStreams, read: Reader)
    requires Symmetric(read)
    ensures StreamCalls(Swapped(rs), read) == StreamCalls(rs, read)
    ensures IsBroken(Swapped(rs), read) <==> IsBroken(rs, read)
  {
    assert Shared(Swapped(rs)) == Shared(rs);
    forall sid: nat
      ensures ReadSid(Swapped(rs), read, sid) == ReadSid(rs, read, sid)
    {
    }
    TallySame(Shared(rs), SidCalls(Swapped(rs), read), SidCalls(rs, read));
  }

  lemma OneMoreStream(rs: RawStreams, read: Reader, todo: set<nat>, sid: nat, found: seq<Call>)
    requires sid in todo && todo <= rs.ab.Keys
    ensures var f, rest := SidCalls(rs, read), (todo - {sid}) * rs.ba.Keys;
            var r := ReadSid(rs, read, sid);
            multiset(found) + Tally(todo * rs.ba.Keys, f) ==
              multiset(if r.Read? then found + [r.call] else found) + Tally(rest, f)
  {
    var f, rest := SidCalls(rs, read), (todo - {sid}) * rs.ba.Keys;
    if sid in rs.ba {
      assert todo * rs.ba.Keys - {sid} == rest;
      TallyTake(todo * rs.ba.Keys, sid, f);
      assert f(sid) == CallsIn(ReadSid(rs, read, sid));
    } else {
      assert todo * rs.ba.Keys == rest;
    }
  }

  /** The loop over the streams of one direction, in any order; None as soon as a
      malformed message ends the program. */
  method ParseConnection(rs: RawStreams, read: Reader) returns (rpcs: Option<seq<Call>>)
    ensures rpcs.None? <==> IsBroken(rs, read)
    ensures rpcs.Some? ==> multiset(rpcs.value) == StreamCalls(rs, read)
  {
    var found: seq<Call> := [];
    var todo := rs.ab.Keys;
    assert todo * rs.ba.Keys == Shared(rs);
    while todo != {}
      invariant todo <= rs.ab.Keys
      invariant forall sid :: sid in Shared(rs) - todo ==> !ReadSid(rs, read, sid).Broken?
      invariant multiset(found) + Tally(todo * rs.ba.Keys, SidCalls(rs, read)) == StreamCalls(rs, read)
      decreases todo
    {
      var sid :| sid in todo;
      OneMoreStream(rs, read, todo, sid, found);
      if sid in rs.ba {
        var r := read(rs.a, rs.b, rs.ab[sid], rs.ba[sid]);
        if r.Broken? {
          assert ReadSid(rs, read, sid).Broken?;
          return None;
        }
        if r.Read? {
          found := found + [r.call];
        }
      }
      todo := todo - {sid};
    }
    return Some(found);
  }

  ghost function AllCalls(streams: seq<RawStreams>, read: Reader): multiset<Call> {
    if streams == [] then multiset{}
    else AllCalls(streams[..|streams| - 1], read) + StreamCalls(streams[|streams| - 1], read)
  }

  lemma OneMoreConnection(streams: seq<RawStreams>, read: Reader, i: nat)
    requires i < |streams|
    ensures AllCalls(streams[..i + 1], read) == AllCalls(streams[..i], read) + StreamCalls(streams[i], read)
    ensures forall rs :: rs in streams[..i + 1] ==> rs in streams[..i] || rs == streams[i]
  {
    var now := streams[..i + 1];
    assert now[..|now| - 1] == streams[..i];
  }

  lemma Together(xs: seq<Call>, ys: seq<Call>)
    ensures multiset(xs + ys) == multiset(xs) + multiset(ys)
  {
  }

  /** The loop over the connections. */
  method ParseRPCs(streams: seq<RawStreams>, read: Reader) returns (rpcs: Option<seq<Call>>)
    ensures rpcs.None? <==> exists rs :: rs in streams && IsBroken(rs, read)
    ensures rpcs.Some? ==> multiset(rpcs.value) == AllCalls(streams, read)
  {
    var found: seq<Call> := [];
    var i := 0;
    assert streams[..0] == [];
    while i < |streams|
      invariant 0 <= i <= |streams|
      invariant forall rs :: rs in streams[..i] ==> !IsBroken(rs, read)
      invariant multiset(found) == AllCalls(streams[..i], read)
    {
      var more := ParseConnection(streams[i], read);
      if more.None? {
        return None;
      }
      OneMoreConnection(streams, read, i);
      Together(found, more.value);
      found := found + more.value;
      i := i + 1;
    }
    assert streams[..i] == streams;
    return Some(found);
  }

  // ----- pairing directions -----

  ghost function DirectionStreams(rfs: Capture, k: string, hpack: Hpack): Option<map<nat, Stream>>
    requires k in rfs
  {
    StreamsOf(Events(rfs[k].packets), hpack)
  }

  /** Every direction that has an opposite can be split into streams. */
  ghost predicate Splittable(rfs: Capture, hpack: Hpack) {
    forall k :: Paired(rfs, k) ==> DirectionStreams(rfs, k, hpack).Some?
  }

  /** The connection seen from one of its directions. */
  ghost function Connection(rfs: Capture, k: string, hpack: Hpack): RawStreams
    requires Paired(rfs, k)
  {
    var ab, ba := DirectionStreams(rfs, k, hpack), DirectionStreams(rfs, Partner(rfs, k), hpack);
    RawStreams(rfs[k].src, rfs[k].dst, if ab.Some? then ab.value else map[], if ba.Some? then ba.value else map[])
  }

  /** Both directions can be split. */
  ghost predicate Splits(rfs: Capture, k: string, hpack: Hpack) {
    Paired(rfs, k) && DirectionStreams(rfs, k, hpack).Some? && DirectionStreams(rfs, Partner(rfs, k), hpack).Some?
  }

  ghost predicate Lists(rfs: Capture, hpack: Hpack, keys: seq<string>, streams: seq<RawStreams>) {
    && |streams| == |keys|
    && forall i :: 0 <= i < |keys| ==> Splits(rfs, keys[i], hpack) && streams[i] == Connection(rfs, keys[i], hpack)
  }

  lemma ListsOneMore(rfs: Capture, hpack: Hpack, keys: seq<string>, streams: seq<RawStreams>, k: string)
    requires Lists(rfs, hpack, keys, streams) && Splits(rfs, k, hpack)
    ensures Lists(rfs, hpack, keys + [k], streams + [Connection(rfs, k, hpack)])
  {
  }

  lemma AllSplit(rfs: Capture, hpack: Hpack, keys: seq<string>, streams: seq<RawStreams>)
    requires Reciprocal(rfs) && Enumerates(rfs, keys) && Lists(rfs, hpack, keys, streams)
    ensures Splittable(rfs, hpack)
  {
    forall k | Paired(rfs, k)
      ensures DirectionStreams(rfs, k, hpack).Some?
    {
      var l := if k in keys then k else Partner(rfs, k);
      var i :| 0 <= i < |keys| && keys[i] == l;
      assert Splits(rfs, keys[i], hpack);
    }
  }

  class FrameStore {
    var rfs: Capture

    constructor (rfs: Capture)
      ensures this.rfs == rfs
    {
      this.rfs := rfs;
    }

    /** What is left of the capture after the directions of an order have been taken out. */
    ghost predicate IsLeft(all: Capture, order: seq<string>)
      reads this
    {
      rfs.Keys == Left(all, order) && forall k :: k in rfs ==> rfs[k] == all[k]
    }

    /** Takes one direction out, and its opposite with it if that is there.  Fails when
        one of the two cannot be split. */
    method Take(abID: string, hpack: Hpack, ghost all: Capture, ghost order: seq<string>)
      returns (ok: bool, rs: Option<RawStreams>)
      requires IsLeft(all, order) && abID in rfs
      modifies this
      ensures IsLeft(all, order + [abID]) && rfs.Keys < old(rfs).Keys
      ensures var emitted := Partner(all, abID) in Left(all, order) - {abID};
              && (!ok ==> Paired(all, abID) && !Splits(all, abID, hpack))
              && (ok ==> (rs.Some? <==> emitted))
              && (ok && emitted ==> Splits(all, abID, hpack) && rs.value == Connection(all, abID, hpack))
    {
      assert (order + [abID])[..|order|] == order;
      var ab := rfs[abID];
      var baID := Ident(ab.dst, ab.src);
      rfs := rfs - {abID};
      if baID !in rfs {
        assert Left(all, order) - {abID} - {baID} == Left(all, order) - {abID};
        return true, None;
      }
      var ba := rfs[baID];
      rfs := rfs - {baID};
      assert Paired(all, abID);
      var abStreams := FramesToStreams(ab.packets, hpack);
      var baStreams := FramesToStreams(ba.packets, hpack);
      if abStreams.None? || baStreams.None? {
        return false, None;
      }
      return true, Some(RawStreams(ab.src, ab.dst, abStreams.value, baStreams.value));
    }

    /** Takes directions out in some order, each with its opposite if that is there.  Fails
        when a pair cannot be split into streams. */
    method ExtractStreams(hpack: Hpack) returns (streams: Option<seq<RawStreams>>, ghost order: seq<string>)
      modifies this
      ensures streams.Some? ==>
                && rfs == map[] && Exhausts(old(rfs), order)
                && Lists(old(rfs), hpack, Emitted(old(rfs), order), streams.value)
      ensures streams.None? ==> exists k :: Paired(old(rfs), k) && !Splits(old(rfs), k, hpack)
    {
      ghost var all := rfs;
      var found: seq<RawStreams> := [];
      order := [];
      while rfs != map[]
        invariant IsLeft(all, order) && Lists(all, hpack, Emitted(all, order), found)
        decreases rfs.Keys
      {
        var abID :| abID in rfs;
        var ok, rs := Take(abID, hpack, all, order);
        assert (order + [abID])[..|order|] == order;
        if !ok {
          return None, order;
        }
        if rs.Some? {
          ListsOneMore(all, hpack, Emitted(all, order), found, abID);
          found := found + [rs.value];
        } else {
          assert Emitted(all, order) + [] == Emitted(all, order);
        }
        order := order + [abID];
      }
      streams := Some(found);
    }
  }

  // ----- the calls of a capture -----

  ghost function Side(rfs: Capture, pair: set<string>): (k: string)
    requires exists k :: k in pair && Paired(rfs, k)
    ensures k in pair && Paired(rfs, k)
  {
    var k :| k in pair && Paired(rfs, k);
    k
  }

  ghost function ConnectionCalls(rfs: Capture, hpack: Hpack, read: Reader): set<string> -> multiset<Call> {
    (pair: set<string>) =>
      if exists k :: k in pair && Paired(rfs, k)
      then StreamCalls(Connection(rfs, Side(rfs, pair), hpack), read)
      else multiset{}
  }

  /** All calls of a capture, without any order on its directions, ends or streams. */
  ghost function CaptureCalls(rfs: Capture, hpack: Hpack, read: Reader): multiset<Call> {
    Tally(Connections(rfs), ConnectionCalls(rfs, hpack, read))
  }

  /** Some message of some connection is malformed. */
  ghost predicate CaptureBroken(rfs: Capture, hpack: Hpack, read: Reader) {
    exists k :: Paired(rfs, k) && IsBroken(Connection(rfs, k, hpack), read)
  }

  /** A connection is the same seen from either side. */
  lemma ConnectionSwaps(rfs: Capture, k: string, hpack: Hpack)
    requires Unambiguous(rfs) && Paired(rfs, k)
    ensures Paired(rfs, Partner(rfs, k)) && Partner(rfs, Partner(rfs, k)) == k
    ensures Connection(rfs, Partner(rfs, k), hpack) == Swapped(Connection(rfs, k, hpack))
  {
    UnambiguousIsReciprocal(rfs);
    var l := Partner(rfs, k);
    assert l == Ident(rfs[l].src, rfs[l].dst);
  }

  lemma CallsFromEitherSide(rfs: Capture, k: string, hpack: Hpack, read: Reader)
    requires Unambiguous(rfs) && Paired(rfs, k) && Symmetric(read)
    ensures ConnectionCalls(rfs, hpack, read)({k, Partner(rfs, k)}) == StreamCalls(Connection(rfs, k, hpack), read)
    ensures IsBroken(Connection(rfs, Partner(rfs, k), hpack), read) <==> IsBroken(Connection(rfs, k, hpack), read)
  {
    var l := Partner(rfs, k);
    var pair := {k, l};
    ConnectionSwaps(rfs, k, hpack);
    var one, other := Connection(rfs, k, hpack), Connection(rfs, l, hpack);
    StreamCallsSwap(one, read);
    assert k in pair && Paired(rfs, k);
    var side := Side(rfs, pair);
    assert side == k || side == l;
    assert StreamCalls(Connection(rfs, side, hpack), read) == StreamCalls(one, read);
  }

  ghost predicate AllPaired(rfs: Capture, keys: seq<string>) {
    forall i :: 0 <= i < |keys| ==> Paired(rfs, keys[i])
  }

  ghost function PairsOf(rfs: Capture, keys: seq<string>): set<set<string>>
    requires AllPaired(rfs, keys)
  {
    if keys == [] then {}
    else
      var last := keys[|keys| - 1];
      assert Paired(rfs, last);
      PairsOf(rfs, keys[..|keys| - 1]) + {{last, Partner(rfs, last)}}
  }

  lemma {:induction false} PairsOfMembers(rfs: Capture, keys: seq<string>, pair: set<string>)
    requires AllPaired(rfs, keys)
    ensures pair in PairsOf(rfs, keys) <==> exists i :: 0 <= i < |keys| && pair == {keys[i], Partner(rfs, keys[i])}
  {
    if keys != [] {
      PairsOfMembers(rfs, keys[..|keys| - 1], pair);
    }
  }

  /** No connection is named twice. */
  ghost predicate NoRepeats(rfs: Capture, keys: seq<string>)
    requires AllPaired(rfs, keys)
  {
    forall i, j :: 0 <= i < j < |keys| ==> keys[i] != keys[j] && keys[i] != Partner(rfs, keys[j])
  }

  lemma LastPairIsNew(rfs: Capture, keys: seq<string>)
    requires keys != [] && AllPaired(rfs, keys) && NoRepeats(rfs, keys)
    ensures var last := keys[|keys| - 1]; {last, Partner(rfs, last)} !in PairsOf(rfs, keys[..|keys| - 1])
  {
    var n := |keys| - 1;
    var pair := {keys[n], Partner(rfs, keys[n])};
    PairsOfMembers(rfs, keys[..n], pair);
    if i :| 0 <= i < n && pair == {keys[i], Partner(rfs, keys[i])} {
      assert keys[i] in pair;
    }
  }

  /** Going through connections by one direction each adds up their calls. */
  lemma {:induction false} ListedCalls(rfs: Capture, hpack: Hpack, read: Reader, keys: seq<string>, streams: seq<RawStreams>)
    requires AllPaired(rfs, keys) && NoRepeats(rfs, keys) && |streams| == |keys|
    requires forall i :: 0 <= i < |keys| ==>
               StreamCalls(streams[i], read) == ConnectionCalls(rfs, hpack, read)({keys[i], Partner(rfs, keys[i])})
    ensures AllCalls(streams, read) == Tally(PairsOf(rfs, keys), ConnectionCalls(rfs, hpack, read))
  {
    if keys != [] {
      var n := |keys| - 1;
      var pair := {keys[n], Partner(rfs, keys[n])};
      ListedCalls(rfs, hpack, read, keys[..n], streams[..n]);
      LastPairIsNew(rfs, keys);
      assert PairsOf(rfs, keys) - {pair} == PairsOf(rfs, keys[..n]);
      TallyTake(PairsOf(rfs, keys), pair, ConnectionCalls(rfs, hpack, read));
    }
  }

  lemma EnumeratedPair(rfs: Capture, keys: seq<string>, k: string)
    requires Reciprocal(rfs) && Enumerates(rfs, keys) && Paired(rfs, k)
    ensures {k, Partner(rfs, k)} in PairsOf(rfs, keys)
  {
    PairsOfMembers(rfs, keys, {k, Partner(rfs, k)});
    var l := if k in keys then k else Partner(rfs, k);
    var i :| 0 <= i < |keys| && keys[i] == l;
    assert {k, Partner(rfs, k)} == {keys[i], Partner(rfs, keys[i])};
  }

  lemma EnumeratesAllPairs(rfs: Capture, keys: seq<string>)
    requires Reciprocal(rfs) && Enumerates(rfs, keys)
    ensures PairsOf(rfs, keys) == Connections(rfs)
  {
    forall pair
      ensures pair in PairsOf(rfs, keys) <==> pair in Connections(rfs)
    {
      if pair in PairsOf(rfs, keys) {
        PairsOfMembers(rfs, keys, pair);
      } else if pair in Connections(rfs) {
        var k :| k in rfs && Paired(rfs, k) && pair == {k, Partner(rfs, k)};
        EnumeratedPair(rfs, keys, k);
      }
    }
  }

  lemma BrokenListed(rfs: Capture, hpack: Hpack, read: Reader, keys: seq<string>, streams: seq<RawStreams>)
    requires Unambiguous(rfs) && Symmetric(read) && Enumerates(rfs, keys) && Lists(rfs, hpack, keys, streams)
    ensures (exists rs :: rs in streams && IsBroken(rs, read)) <==> CaptureBroken(rfs, hpack, read)
  {
    if rs :| rs in streams && IsBroken(rs, read) {
      var i :| 0 <= i < |streams| && streams[i] == rs;
      assert Paired(rfs, keys[i]) && IsBroken(Connection(rfs, keys[i], hpack), read);
    }
    if CaptureBroken(rfs, hpack, read) {
      var k :| Paired(rfs, k) && IsBroken(Connection(rfs, k, hpack), read);
      CallsFromEitherSide(rfs, k, hpack, read);
      var l := if k in keys then k else Partner(rfs, k);
      var i :| 0 <= i < |keys| && keys[i] == l;
      assert streams[i] in streams && IsBroken(streams[i], read);
    }
  }

  lemma Unsplittable(rfs: Capture, hpack: Hpack)
    requires Unambiguous(rfs) && exists k :: Paired(rfs, k) && !Splits(rfs, k, hpack)
    ensures !Splittable(rfs, hpack)
  {
    var k :| Paired(rfs, k) && !Splits(rfs, k, hpack);
    ConnectionSwaps(rfs, k, hpack);
    assert Paired(rfs, Partner(rfs, k));
  }

  lemma ExtractedCalls(all: Capture, hpack: Hpack, read: Reader, order: seq<string>, streams: seq<RawStreams>)
    requires Unambiguous(all) && Symmetric(read) && Exhausts(all, order) && Lists(all, hpack, Emitted(all, order), streams)
    ensures Splittable(all, hpack)
    ensures (exists rs :: rs in streams && IsBroken(rs, read)) <==> CaptureBroken(all, hpack, read)
    ensures AllCalls(streams, read) == CaptureCalls(all, hpack, read)
  {
    var keys := Emitted(all, order);
    UnambiguousIsReciprocal(all);
    ReciprocalEnumerates(all, order);
    AllSplit(all, hpack, keys, streams);
    BrokenListed(all, hpack, read, keys, streams);
    forall i | 0 <= i < |keys|
      ensures StreamCalls(streams[i], read) == ConnectionCalls(all, hpack, read)({keys[i], Partner(all, keys[i])})
    {
      CallsFromEitherSide(all, keys[i], hpack, read);
    }
    ListedCalls(all, hpack, read, keys, streams);
    EnumeratesAllPairs(all, keys);
  }

  /** The whole pipeline, on any capture.  When identifiers do not collide, then whatever
      order the maps are gone through in, it ends the program in the same cases, and
      otherwise reports the same calls, each as often as it was made. */
  method ParseCapture(store: FrameStore, hpack: Hpack, types: Types) returns (rpcs: Option<seq<Call>>)
    modifies store
    ensures rpcs.Some? ==> store.rfs == map[]
    ensures Unambiguous(old(store.rfs)) ==>
              && (rpcs.Some? <==> Splittable(old(store.rfs), hpack) && !CaptureBroken(old(store.rfs), hpack, CallReader(types)))
              && (rpcs.Some? ==> multiset(rpcs.value) == CaptureCalls(old(store.rfs), hpack, CallReader(types)))
  {
    ghost var all := store.rfs;
    var read := CallReader(types);
    CallReaderIsSymmetric(types);
    var streams;
    ghost var order;
    streams, order := store.ExtractStreams(hpack);
    if streams.None? {
      if Unambiguous(all) {
        Unsplittable(all, hpack);
      }
      return None;
    }
    if Unambiguous(all) {
      ExtractedCalls(all, hpack, read, order, streams.value);
    }
    rpcs := ParseRPCs(streams.value, read);
  }

  lemma CallReaderIsSymmetric(types: Types)
    ensures Symmetric(CallReader(types))
  {
    var read := CallReader(types);
    forall a, b, ab, ba
      ensures read(a, b, ab, ba) == read(b, a, ba, ab)
    {
      ReadPairSwaps(a, b, ab, ba, types);
    }
  }
}
