/** Which calls a capture reports, and how often. */
module Reported {
  import opened Wrappers
  import opened Frames
  import opened Demux
  import opened Captures
  import opened CsiCalls
  import opened Tallies
  import opened Pairing

  ghost function Having<K(!new), R(!new)>(s: set<K>, f: K -> multiset<R>, c: R): set<K> {
    set k | k in s && c in f(k)
  }

  /** Where every part has an element at most once, the total says how many parts have it. */
  lemma {:induction false} TallyCounts<K(!new), R(!new)>(s: set<K>, f: K -> multiset<R>, c: R)
    requires forall k :: k in s ==> f(k)[c] <= 1
    ensures Tally(s, f)[c] == |Having(s, f, c)|
    decreases |s|
  {
    if s == {} {
      assert Having(s, f, c) == {};
    } else {
      var k :| k in s;
      TallyTake(s, k, f);
      TallyCounts(s - {k}, f, c);
      assert Having(s, f, c) - {k} == Having(s - {k}, f, c);
    }
  }

  lemma {:induction false} TallyHas<K(!new), R(!new)>(s: set<K>, f: K -> multiset<R>, c: R)
    ensures c in Tally(s, f) <==> exists k :: k in s && c in f(k)
    ensures forall k :: k in s ==> f(k)[c] <= Tally(s, f)[c]
    decreases |s|
  {
    forall k | k in s
      ensures f(k)[c] <= Tally(s, f)[c]
    {
      TallyTake(s, k, f);
    }
    if s != {} {
      var k :| k in s;
      TallyTake(s, k, f);
      TallyHas(s - {k}, f, c);
    }
  }

  lemma ReadOnce(rs: RawStreams, read: Reader, sid: nat, c: Call)
    ensures SidCalls(rs, read)(sid)[c] ==
              if sid in rs.ab && sid in rs.ba && read(rs.a, rs.b, rs.ab[sid], rs.ba[sid]) == Read(c) then 1 else 0
  {
    assert SidCalls(rs, read)(sid) == CallsIn(ReadSid(rs, read, sid));
  }

  /** The stream numbers at which both ways have a stream and the two are read as a call. */
  ghost function SidsOf(rs: RawStreams, read: Reader, c: Call): set<nat> {
    set sid | sid in rs.ab && sid in rs.ba && read(rs.a, rs.b, rs.ab[sid], rs.ba[sid]) == Read(c)
  }

  /** A call is reported of a connection once for every such number. */
  lemma CountedPerStream(rs: RawStreams, read: Reader, c: Call)
    ensures StreamCalls(rs, read)[c] == |SidsOf(rs, read, c)|
  {
    var f, shared := SidCalls(rs, read), Shared(rs);
    forall sid: nat
      ensures f(sid)[c] <= 1 && (c in f(sid) <==> sid in SidsOf(rs, read, c))
    {
      ReadOnce(rs, read, sid, c);
    }
    TallyCounts(shared, f, c);
    assert forall sid :: sid in Having(shared, f, c) <==> sid in SidsOf(rs, read, c);
    assert Having(shared, f, c) == SidsOf(rs, read, c);
  }

  /** A connection is broken exactly if some pair of its streams is. */
  lemma BrokenIff(rs: RawStreams, read: Reader)
    ensures IsBroken(rs, read) <==> exists sid :: sid in rs.ab && sid in rs.ba && read(rs.a, rs.b, rs.ab[sid], rs.ba[sid]) == Broken
  {
    if sid :| sid in rs.ab && sid in rs.ba && read(rs.a, rs.b, rs.ab[sid], rs.ba[sid]) == Broken {
      assert sid in Shared(rs) && ReadSid(rs, read, sid).Broken?;
    }
  }

  /** The streams of a paired direction and of its opposite, read as this call at sid. */
  ghost predicate ReadsAt(rfs: Capture, hpack: Hpack, read: Reader, k: string, sid: nat, c: Call) {
    && Paired(rfs, k)
    && var ab, ba := StreamsOf(Events(rfs[k].packets), hpack), StreamsOf(Events(rfs[Partner(rfs, k)].packets), hpack);
       ab.Some? && ba.Some? && sid in ab.value && sid in ba.value &&
       read(rfs[k].src, rfs[k].dst, ab.value[sid], ba.value[sid]) == Read(c)
  }

  ghost predicate ReadsSome(rfs: Capture, hpack: Hpack, read: Reader, k: string, c: Call) {
    exists sid :: ReadsAt(rfs, hpack, read, k, sid, c)
  }

  lemma ConnectionReads(rfs: Capture, hpack: Hpack, read: Reader, k: string, c: Call)
    requires Paired(rfs, k)
    ensures c in StreamCalls(Connection(rfs, k, hpack), read) <==> ReadsSome(rfs, hpack, read, k, c)
  {
    var rs := Connection(rfs, k, hpack);
    var sids := SidsOf(rs, read, c);
    CountedPerStream(rs, read, c);
    forall sid: nat
      ensures sid in sids <==> ReadsAt(rfs, hpack, read, k, sid, c)
    {
    }
    if c in StreamCalls(rs, read) {
      assert sids != {};
      var sid :| sid in sids;
      assert ReadsAt(rfs, hpack, read, k, sid, c);
    }
  }

  lemma ConnectionHas(rfs: Capture, hpack: Hpack, read: Reader, k: string, c: Call)
    requires Unambiguous(rfs) && Symmetric(read) && Paired(rfs, k)
    ensures var calls := ConnectionCalls(rfs, hpack, read)({k, Partner(rfs, k)});
            && calls == StreamCalls(Connection(rfs, k, hpack), read)
            && (c in calls <==> ReadsSome(rfs, hpack, read, k, c))
  {
    CallsFromEitherSide(rfs, k, hpack, read);
    ConnectionReads(rfs, hpack, read, k, c);
  }

  /** A capture reports a call exactly if the streams of some paired direction and of its
      opposite are read as it. */
  lemma ReportsIff(rfs: Capture, hpack: Hpack, read: Reader, c: Call)
    requires Unambiguous(rfs) && Symmetric(read)
    ensures c in CaptureCalls(rfs, hpack, read) <==> exists k :: ReadsSome(rfs, hpack, read, k, c)
  {
    var f := ConnectionCalls(rfs, hpack, read);
    TallyHas(Connections(rfs), f, c);
    if k :| ReadsSome(rfs, hpack, read, k, c) {
      ConnectionHas(rfs, hpack, read, k, c);
      assert {k, Partner(rfs, k)} in Connections(rfs);
    }
    if pair :| pair in Connections(rfs) && c in f(pair) {
      var k :| k in rfs && Paired(rfs, k) && pair == {k, Partner(rfs, k)};
      ConnectionHas(rfs, hpack, read, k, c);
    }
  }

  /** And at least as often as any one connection makes it. */
  lemma ReportsAll(rfs: Capture, hpack: Hpack, read: Reader, k: string, c: Call)
    requires Unambiguous(rfs) && Symmetric(read) && Paired(rfs, k)
    ensures StreamCalls(Connection(rfs, k, hpack), read)[c] <= CaptureCalls(rfs, hpack, read)[c]
  {
    TallyHas(Connections(rfs), ConnectionCalls(rfs, hpack, read), c);
    ConnectionHas(rfs, hpack, read, k, c);
    assert {k, Partner(rfs, k)} in Connections(rfs);
  }

  lemma OnlyPair(rfs: Capture, k: string)
    requires Unambiguous(rfs) && Paired(rfs, k)
    requires forall l :: Paired(rfs, l) ==> l == k || l == Partner(rfs, k)
    ensures Connections(rfs) == {{k, Partner(rfs, k)}}
  {
    UnambiguousIsReciprocal(rfs);
    assert {k, Partner(rfs, k)} in Connections(rfs);
    forall pair | pair in Connections(rfs)
      ensures pair == {k, Partner(rfs, k)}
    {
      var l :| l in rfs && Paired(rfs, l) && pair == {l, Partner(rfs, l)};
    }
  }

  lemma TallyOne<K(!new), R(!new)>(k: K, f: K -> multiset<R>)
    ensures Tally({k}, f) == f(k)
  {
    TallyTake({k}, k, f);
    assert {k} - {k} == {};
  }

  /** If a capture has one connection, its calls are those of that connection. */
  lemma OneConnection(rfs: Capture, hpack: Hpack, read: Reader, k: string)
    requires Unambiguous(rfs) && Symmetric(read) && Paired(rfs, k)
    requires forall l :: Paired(rfs, l) ==> l == k || l == Partner(rfs, k)
    ensures CaptureCalls(rfs, hpack, read) == StreamCalls(Connection(rfs, k, hpack), read)
  {
    CallsFromEitherSide(rfs, k, hpack, read);
    OnlyPair(rfs, k);
    TallyOne({k, Partner(rfs, k)}, ConnectionCalls(rfs, hpack, read));
  }
}
