/** Captured directions and how they are paired: the directions are taken out of a map in
    any order, each together with its opposite if that is still there. */
module Captures {
  import opened Demux

  datatype End = End(ip: string, port: string)

  /** All packets from one end to another. */
  datatype Direction = Direction(src: End, dst: End, packets: seq<Packet>)

  /** The identifier of a direction: four strings run together. */
  function Ident(src: End, dst: End): string {
    src.ip + dst.ip + src.port + dst.port
  }

  type Capture = map<string, Direction>

  // ----- assembling a capture -----

  datatype Captured = Captured(src: End, dst: End, packet: Packet)

  /** A packet is added to the direction that has its identifier. */
  function Filed(rfs: Capture, c: Captured): Capture {
    var id := Ident(c.src, c.dst);
    if id in rfs then rfs[id := rfs[id].(packets := rfs[id].packets + [c.packet])]
    else rfs[id := Direction(c.src, c.dst, [c.packet])]
  }

  function Assembled(cs: seq<Captured>): Capture {
    if cs == [] then map[] else Filed(Assembled(cs[..|cs| - 1]), cs[|cs| - 1])
  }

  method ParsePackets(cs: seq<Captured>) returns (rfs: Capture)
    ensures rfs == Assembled(cs)
  {
    rfs := map[];
    for i := 0 to |cs|
      invariant rfs == Assembled(cs[..i])
    {
      assert cs[..i + 1][..i] == cs[..i];
      var id := Ident(cs[i].src, cs[i].dst);
      if id in rfs {
        rfs := rfs[id := rfs[id].(packets := rfs[id].packets + [cs[i].packet])];
      } else {
        rfs := rfs[id := Direction(cs[i].src, cs[i].dst, [cs[i].packet])];
      }
    }
    assert cs[..|cs|] == cs;
  }

  /** The packets from one end to another, in order. */
  function Between(cs: seq<Captured>, src: End, dst: End): seq<Packet> {
    if cs == [] then []
    else
      var c := cs[|cs| - 1];
      Between(cs[..|cs| - 1], src, dst) + if c.src == src && c.dst == dst then [c.packet] else []
  }

  /** No two of the captured directions and their opposites share an identifier. */
  ghost predicate Separate(cs: seq<Captured>) {
    forall c, d :: c in cs && d in cs ==>
      && (Ident(c.src, c.dst) == Ident(d.src, d.dst) ==> c.src == d.src && c.dst == d.dst)
      && (Ident(c.dst, c.src) == Ident(d.src, d.dst) ==> c.dst == d.src && c.src == d.dst)
  }

  // ----- pairs -----

  /** The identifier under which the opposite direction is looked up. */
  function Partner(rfs: Capture, k: string): string
    requires k in rfs
  {
    Ident(rfs[k].dst, rfs[k].src)
  }

  predicate Paired(rfs: Capture, k: string) {
    k in rfs && Partner(rfs, k) in rfs && Partner(rfs, k) != k
  }

  /** Pairing is mutual. */
  ghost predicate Reciprocal(rfs: Capture) {
    forall k :: Paired(rfs, k) ==> Partner(rfs, Partner(rfs, k)) == k
  }

  /** The same for a capture. */
  ghost predicate Unambiguous(rfs: Capture) {
    && (forall k :: k in rfs ==> k == Ident(rfs[k].src, rfs[k].dst))
    && (forall k, l :: k in rfs && l in rfs && Ident(rfs[k].dst, rfs[k].src) == Ident(rfs[l].src, rfs[l].dst) ==>
          rfs[k].dst == rfs[l].src && rfs[k].src == rfs[l].dst)
  }

  lemma UnambiguousIsReciprocal(rfs: Capture)
    requires Unambiguous(rfs)
    ensures Reciprocal(rfs)
  {
    forall k | Paired(rfs, k)
      ensures Partner(rfs, Partner(rfs, k)) == k
    {
      var l := Partner(rfs, k);
      assert l == Ident(rfs[l].src, rfs[l].dst);
    }
  }

  /** What a capture holds: under every identifier the ends of some captured packet that
      has it, and nothing else. */
  lemma {:induction false} AssembledEnds(cs: seq<Captured>, k: string)
    ensures k in Assembled(cs) <==> exists c :: c in cs && k == Ident(c.src, c.dst)
    ensures k in Assembled(cs) ==>
              exists c :: c in cs && k == Ident(c.src, c.dst) && Assembled(cs)[k].src == c.src && Assembled(cs)[k].dst == c.dst
  {
    if cs != [] {
      var n := |cs| - 1;
      AssembledEnds(cs[..n], k);
      assert cs == cs[..n] + [cs[n]] && cs[n] in cs;
      assert forall c :: c in cs[..n] ==> c in cs;
      if k in Assembled(cs[..n]) {
        var c :| c in cs[..n] && k == Ident(c.src, c.dst) && Assembled(cs[..n])[k].src == c.src && Assembled(cs[..n])[k].dst == c.dst;
        assert c in cs;
      }
    }
  }

  /** When identifiers are separate, so they are in the capture, and every direction holds
      exactly its own packets in order. */
  lemma {:induction false} AssembledPackets(cs: seq<Captured>, c: Captured)
    requires Separate(cs) && c in cs
    ensures var k := Ident(c.src, c.dst);
            k in Assembled(cs) && Assembled(cs)[k] == Direction(c.src, c.dst, Between(cs, c.src, c.dst))
  {
    var n := |cs| - 1;
    assert cs == cs[..n] + [cs[n]] && cs[n] in cs;
    assert forall d :: d in cs[..n] ==> d in cs;
    var k := Ident(c.src, c.dst);
    if d :| d in cs[..n] && d.src == c.src && d.dst == c.dst {
      AssembledPackets(cs[..n], d);
    } else {
      AssembledEnds(cs[..n], k);
      NothingBetween(cs[..n], c.src, c.dst);
      assert c == cs[n];
    }
  }

  lemma {:induction false} NothingBetween(cs: seq<Captured>, src: End, dst: End)
    requires forall d :: d in cs ==> !(d.src == src && d.dst == dst)
    ensures Between(cs, src, dst) == []
  {
    if cs != [] {
      assert cs[|cs| - 1] in cs && forall d :: d in cs[..|cs| - 1] ==> d in cs;
      NothingBetween(cs[..|cs| - 1], src, dst);
    }
  }

  lemma SeparateIsUnambiguous(cs: seq<Captured>)
    requires Separate(cs)
    ensures Unambiguous(Assembled(cs))
  {
    var rfs := Assembled(cs);
    forall k | k in rfs
      ensures exists c :: c in cs && k == Ident(c.src, c.dst) && rfs[k].src == c.src && rfs[k].dst == c.dst
    {
      AssembledEnds(cs, k);
    }
  }

  // ----- taking directions out, in some order -----

  /** The directions that are left after those of an order have been taken out. */
  ghost function Left(rfs: Capture, order: seq<string>): (left: set<string>)
    ensures left <= rfs.Keys
  {
    if order == [] then rfs.Keys
    else
      var left, k := Left(rfs, order[..|order| - 1]), order[|order| - 1];
      if k in left then left - {k} - {Partner(rfs, k)} else left
  }

  /** The directions that were taken out together with another one. */
  ghost function Emitted(rfs: Capture, order: seq<string>): seq<string> {
    if order == [] then []
    else
      var before, k := order[..|order| - 1], order[|order| - 1];
      Emitted(rfs, before) + if k in Left(rfs, before) && Partner(rfs, k) in Left(rfs, before) - {k} then [k] else []
  }

  /** The pairs that come out. */
  ghost function EmittedPairs(rfs: Capture, order: seq<string>): set<set<string>> {
    set k | k in Emitted(rfs, order) && k in rfs :: {k, Partner(rfs, k)}
  }

  /** All directions have been taken out. */
  ghost predicate Exhausts(rfs: Capture, order: seq<string>) {
    Left(rfs, order) == {}
  }

  lemma {:induction false} LeftShrinks(rfs: Capture, order: seq<string>, n: nat)
    requires n <= |order|
    ensures Left(rfs, order) <= Left(rfs, order[..n])
    ensures Emitted(rfs, order[..n]) <= Emitted(rfs, order)
    decreases |order|
  {
    if n == |order| {
      assert order[..n] == order;
    } else {
      assert order[..|order| - 1][..n] == order[..n];
      LeftShrinks(rfs, order[..|order| - 1], n);
    }
  }

  lemma {:induction false} NamedIsTaken(rfs: Capture, order: seq<string>, k: string)
    requires k in order
    ensures k !in Left(rfs, order)
  {
    var n := |order| - 1;
    if k != order[n] {
      NamedIsTaken(rfs, order[..n], k);
    }
  }

  /** A direction is not emitted once its partner has been taken out first. */
  lemma {:induction false} NotAfterPartner(rfs: Capture, order: seq<string>, k: string)
    requires k in rfs && Partner(rfs, k) != k && order != [] && order[0] == Partner(rfs, k)
    ensures k !in Emitted(rfs, order)
  {
    var n := |order| - 1;
    if n > 0 {
      NotAfterPartner(rfs, order[..n], k);
      LeftShrinks(rfs, order[..n], 1);
      assert order[..n][..1] == [order[0]] && [order[0]][..0] == [];
    }
  }

  lemma {:induction false} Listing(s: set<string>) returns (order: seq<string>)
    ensures forall k :: k in s ==> k in order
  {
    if s == {} {
      order := [];
    } else {
      var k :| k in s;
      var rest := Listing(s - {k});
      order := [k] + rest;
    }
  }

  /** An order that begins with a given direction and takes all of them. */
  lemma StartingWith(rfs: Capture, k: string) returns (order: seq<string>)
    ensures |order| > 0 && order[0] == k && Exhausts(rfs, order)
  {
    var rest := Listing(rfs.Keys);
    order := [k] + rest;
    forall l | l in rfs
      ensures l !in Left(rfs, order)
    {
      assert l in rest && l in order;
      NamedIsTaken(rfs, order, l);
    }
  }

  /** A direction whose opposite names another partner makes a pair if it comes first, and
      makes none if its opposite does. */
  lemma OneSidedPair(rfs: Capture, k: string, order: seq<string>)
    requires Paired(rfs, k) && Partner(rfs, Partner(rfs, k)) != k && |order| > 0
    ensures order[0] == k ==> {k, Partner(rfs, k)} in EmittedPairs(rfs, order)
    ensures order[0] == Partner(rfs, k) ==> {k, Partner(rfs, k)} !in EmittedPairs(rfs, order)
  {
    var l := Partner(rfs, k);
    LeftShrinks(rfs, order, 1);
    assert order[..1] == [order[0]] && order[..1][..0] == [];
    if order[0] == k {
      assert Emitted(rfs, order[..1]) == [k];
      assert Emitted(rfs, order)[0] == k;
    }
    if order[0] == l {
      NotAfterPartner(rfs, order, k);
      forall x | x in Emitted(rfs, order) && x in rfs
        ensures {x, Partner(rfs, x)} != {k, l}
      {
        assert x != k;
        assert x in {x, Partner(rfs, x)} && k in {k, l};
      }
    }
  }

  // ----- mutual pairs -----

  /** The connections, as unordered pairs of directions. */
  ghost function Connections(rfs: Capture): set<set<string>> {
    set k | k in rfs && Paired(rfs, k) :: {k, Partner(rfs, k)}
  }

  /** The keys name every connection by exactly one of its directions. */
  ghost predicate Enumerates(rfs: Capture, keys: seq<string>) {
    && (forall i :: 0 <= i < |keys| ==> Paired(rfs, keys[i]))
    && (forall i, j :: 0 <= i < j < |keys| ==> keys[i] != keys[j] && keys[i] != Partner(rfs, keys[j]))
    && (forall k :: Paired(rfs, k) ==> k in keys || Partner(rfs, k) in keys)
  }

  /** Part of the way: both directions of a connection are still there, or neither. */
  ghost predicate Partway(rfs: Capture, left: set<string>, keys: seq<string>) {
    && left <= rfs.Keys
    && (forall i :: 0 <= i < |keys| ==> Paired(rfs, keys[i]) && keys[i] !in left && Partner(rfs, keys[i]) !in left)
    && (forall i, j :: 0 <= i < j < |keys| ==> keys[i] != keys[j] && keys[i] != Partner(rfs, keys[j]))
    && (forall k :: Paired(rfs, k) ==> (k in left <==> Partner(rfs, k) in left))
    && (forall k :: Paired(rfs, k) && k !in left ==> k in keys || Partner(rfs, k) in keys)
  }

  lemma TakesConnection(rfs: Capture, left: set<string>, keys: seq<string>, k: string)
    requires Reciprocal(rfs) && Partway(rfs, left, keys) && k in left && Partner(rfs, k) in left - {k}
    ensures Partway(rfs, left - {k} - {Partner(rfs, k)}, keys + [k])
  {
  }

  lemma TakesStray(rfs: Capture, left: set<string>, keys: seq<string>, k: string)
    requires Reciprocal(rfs) && Partway(rfs, left, keys) && k in left && Partner(rfs, k) !in left - {k}
    ensures Partway(rfs, left - {k} - {Partner(rfs, k)}, keys)
  {
    assert left - {k} - {Partner(rfs, k)} == left - {k};
  }

  lemma {:induction false} StaysPartway(rfs: Capture, order: seq<string>)
    requires Reciprocal(rfs)
    ensures Partway(rfs, Left(rfs, order), Emitted(rfs, order))
  {
    if order != [] {
      var before, k := order[..|order| - 1], order[|order| - 1];
      StaysPartway(rfs, before);
      var left, keys := Left(rfs, before), Emitted(rfs, before);
      if k in left {
        if Partner(rfs, k) in left - {k} {
          TakesConnection(rfs, left, keys, k);
        } else {
          TakesStray(rfs, left, keys, k);
          assert keys + [] == keys;
        }
      } else {
        assert keys + [] == keys;
      }
    }
  }

  /** Mutual pairs come out once each, whatever the order. */
  lemma ReciprocalEnumerates(rfs: Capture, order: seq<string>)
    requires Reciprocal(rfs) && Exhausts(rfs, order)
    ensures Enumerates(rfs, Emitted(rfs, order))
    ensures EmittedPairs(rfs, order) == Connections(rfs)
  {
    StaysPartway(rfs, order);
    var keys := Emitted(rfs, order);
    forall pair
      ensures pair in EmittedPairs(rfs, order) <==> pair in Connections(rfs)
    {
      if pair in Connections(rfs) {
        var k :| k in rfs && Paired(rfs, k) && pair == {k, Partner(rfs, k)};
        if k !in keys {
          var l := Partner(rfs, k);
          assert l in keys && Partner(rfs, l) == k && {l, k} == {k, l};
        }
      }
    }
  }

  // ----- exactly when the order does not matter -----

  ghost predicate OrderFree(rfs: Capture) {
    forall o1, o2 :: Exhausts(rfs, o1) && Exhausts(rfs, o2) ==> EmittedPairs(rfs, o1) == EmittedPairs(rfs, o2)
  }

  /** The pairs are the same for every order in which the map is gone through if and only
      if pairing is mutual. */
  lemma OrderFreeIff(rfs: Capture)
    ensures OrderFree(rfs) <==> Reciprocal(rfs)
  {
    if Reciprocal(rfs) {
      forall o1, o2 | Exhausts(rfs, o1) && Exhausts(rfs, o2)
        ensures EmittedPairs(rfs, o1) == EmittedPairs(rfs, o2)
      {
        ReciprocalEnumerates(rfs, o1);
        ReciprocalEnumerates(rfs, o2);
      }
    } else {
      var k :| Paired(rfs, k) && Partner(rfs, Partner(rfs, k)) != k;
      var o1 := StartingWith(rfs, k);
      var o2 := StartingWith(rfs, Partner(rfs, k));
      OneSidedPair(rfs, k, o1);
      OneSidedPair(rfs, k, o2);
      assert EmittedPairs(rfs, o1) != EmittedPairs(rfs, o2);
    }
  }

  lemma OneKey(rfs: Capture, order: seq<string>, k: string)
    requires Emitted(rfs, order) == [k] && k in rfs
    ensures EmittedPairs(rfs, order) == {{k, Partner(rfs, k)}}
  {
    assert forall x :: x in Emitted(rfs, order) <==> x == k;
  }

  /** Directions whose identifiers collide but whose opposites' do not: after packets from
      c to d and from b to a, what comes out depends on the order, and in one order the
      two unrelated directions are taken for a connection. */
  lemma CollisionBreaksPairing(a: End, b: End, c: End, d: End, p: Packet, q: Packet)
    requires Ident(a, b) == Ident(c, d) && Ident(b, a) != Ident(d, c) && Ident(b, a) != Ident(a, b)
    ensures var rfs := Assembled([Captured(c, d, p), Captured(b, a, q)]);
            && !OrderFree(rfs)
            && exists order :: Exhausts(rfs, order) && EmittedPairs(rfs, order) == {{Ident(b, a), Ident(c, d)}}
  {
    var cs := [Captured(c, d, p), Captured(b, a, q)];
    assert cs[..1] == [Captured(c, d, p)] && cs[..1][..0] == [];
    var rfs := Assembled(cs);
    var k, l := Ident(b, a), Ident(c, d);
    assert Assembled(cs[..1]) == Filed(map[], cs[0]) == map[l := Direction(c, d, [p])];
    assert rfs == Filed(Assembled(cs[..1]), cs[1]);
    assert rfs == map[l := Direction(c, d, [p]), k := Direction(b, a, [q])];
    assert Paired(rfs, k) && Partner(rfs, k) == l && Partner(rfs, l) != k;
    OrderFreeIff(rfs);
    var order := [k];
    assert order[..0] == [];
    assert rfs.Keys == {k, l};
    assert Left(rfs, []) == {k, l} && Emitted(rfs, []) == [];
    assert Left(rfs, order) == {k, l} - {k} - {l} == {};
    assert Emitted(rfs, order) == [] + [k] == [k];
    OneKey(rfs, order, k);
  }

  /** There are such ends: addresses are not delimited. */
  lemma IdentCollides()
    ensures var a, b, c, d := End("1.1.1.1", "1"), End("11.1.1.1", "2"), End("1.1.1.11", "1"), End("1.1.1.1", "2");
            Ident(a, b) == Ident(c, d) && Ident(b, a) != Ident(d, c) && Ident(b, a) != Ident(a, b)
  {
    var a, b, c, d := End("1.1.1.1", "1"), End("11.1.1.1", "2"), End("1.1.1.11", "1"), End("1.1.1.1", "2");
    assert Ident(b, a)[1] == '1' && Ident(d, c)[1] == '.' && Ident(a, b)[1] == '.';
  }

  // ----- what identifiers tell apart -----

  /** Between the same addresses, one port being the same, the identifier tells the other. */
  lemma IdentTellsPorts(a: string, b: string, p: string, q: string, port: string)
    ensures Ident(End(a, p), End(b, port)) == Ident(End(a, q), End(b, port)) <==> p == q
    ensures Ident(End(a, port), End(b, p)) == Ident(End(a, port), End(b, q)) <==> p == q
  {
    SameTail(a + b, p, q, port);
    SameTail(a + b + port, p, q, "");
    assert a + b + port + p == a + b + port + p + "" && a + b + port + q == a + b + port + q + "";
  }

  lemma SameTail(head: string, p: string, q: string, tail: string)
    ensures head + p + tail == head + q + tail <==> p == q
  {
    var x, y := head + p + tail, head + q + tail;
    if x == y {
      assert |p| == |q|;
      assert p == x[|head|..|head| + |p|] && q == y[|head|..|head| + |q|];
    }
  }

  /** Opposite directions between hosts whose addresses do not commute. */
  lemma IdentTellsWays(a: string, b: string, p: string, q: string, r: string, s: string)
    requires a + b != b + a
    ensures Ident(End(a, p), End(b, q)) != Ident(End(b, r), End(a, s))
  {
    var x, y := Ident(End(a, p), End(b, q)), Ident(End(b, r), End(a, s));
    assert x[..|a + b|] == a + b && y[..|b + a|] == b + a;
  }

  /** All packets go between a client and a server, to or from one port of the server. */
  ghost predicate ToServer(cs: seq<Captured>, client: string, server: End) {
    forall c :: c in cs ==> (c.src.ip == client && c.dst == server) || (c.src == server && c.dst.ip == client)
  }

  lemma ServerSeparates(cs: seq<Captured>, client: string, server: End)
    requires ToServer(cs, client, server) && client + server.ip != server.ip + client
    ensures Separate(cs)
  {
    forall c, d | c in cs && d in cs
      ensures Ident(c.src, c.dst) == Ident(d.src, d.dst) ==> c.src == d.src && c.dst == d.dst
      ensures Ident(c.dst, c.src) == Ident(d.src, d.dst) ==> c.dst == d.src && c.src == d.dst
    {
      EndsTold(c.src, c.dst, d.src, d.dst, client, server);
      EndsTold(c.dst, c.src, d.src, d.dst, client, server);
    }
  }

  lemma EndsTold(a: End, b: End, c: End, d: End, client: string, server: End)
    requires client + server.ip != server.ip + client
    requires (a.ip == client && b == server) || (a == server && b.ip == client)
    requires (c.ip == client && d == server) || (c == server && d.ip == client)
    ensures Ident(a, b) == Ident(c, d) ==> a == c && b == d
  {
    if a.ip == client && b == server && c.ip == client && d == server {
      IdentTellsPorts(client, server.ip, a.port, c.port, server.port);
    } else if a == server && b.ip == client && c == server && d.ip == client {
      IdentTellsPorts(server.ip, client, b.port, d.port, server.port);
    } else if a.ip == client && b == server {
      IdentTellsWays(client, server.ip, a.port, server.port, server.port, d.port);
    } else {
      IdentTellsWays(client, server.ip, c.port, server.port, server.port, b.port);
    }
  }

  /** Between a client and a server every connection and way has a direction of its own
      with all its packets in order, and two ways are paired exactly if both were seen. */
  lemma ServedApart(cs: seq<Captured>, client: string, server: End, c: Captured)
    requires ToServer(cs, client, server) && client + server.ip != server.ip + client && c in cs
    ensures var rfs := Assembled(cs);
            exists k :: k in rfs && rfs[k] == Direction(c.src, c.dst, Between(cs, c.src, c.dst)) &&
              (forall l :: l in rfs && rfs[l].src == c.src && rfs[l].dst == c.dst ==> l == k) &&
              (Paired(rfs, k) <==> exists d :: d in cs && d.src == c.dst && d.dst == c.src) &&
              (Paired(rfs, k) ==> rfs[Partner(rfs, k)] == Direction(c.dst, c.src, Between(cs, c.dst, c.src)))
  {
    var rfs, k := Assembled(cs), Ident(c.src, c.dst);
    ServerSeparates(cs, client, server);
    AssembledPackets(cs, c);
    assert k in rfs && rfs[k] == Direction(c.src, c.dst, Between(cs, c.src, c.dst));
    forall l | l in rfs
      ensures l == Ident(rfs[l].src, rfs[l].dst)
    {
      AssembledEnds(cs, l);
    }
    AssembledEnds(cs, Ident(c.dst, c.src));
    IdentTellsWays(client, server.ip, if c.dst == server then c.src.port else c.dst.port, server.port, server.port,
                   if c.dst == server then c.src.port else c.dst.port);
    if Paired(rfs, k) {
      var d :| d in cs && Ident(c.dst, c.src) == Ident(d.src, d.dst);
      assert d.src == c.dst && d.dst == c.src;
      AssembledPackets(cs, d);
    }
  }

  /** The packets from a port, in order. */
  function FromPort(cs: seq<Captured>, port: string): seq<Packet> {
    if cs == [] then []
    else
      var c := cs[|cs| - 1];
      FromPort(cs[..|cs| - 1], port) + if c.src.port == port then [c.packet] else []
  }

  /** There is one direction for each source port, with all its packets in order. */
  ghost predicate ByPort(rfs: Capture, cs: seq<Captured>, src: string, dst: End) {
    && (forall k :: k in rfs ==> rfs[k] == Direction(End(src, rfs[k].src.port), dst, FromPort(cs, rfs[k].src.port)))
    && (forall k, l :: k in rfs && l in rfs && rfs[k].src.port == rfs[l].src.port ==> k == l)
    && (forall c :: c in cs ==> exists k :: k in rfs && rfs[k].src.port == c.src.port)
  }

  lemma PortOfKey(rfs: Capture, cs: seq<Captured>, src: string, dst: End, c: Captured, k: string)
    requires ByPort(rfs, cs, src, dst) && c.src.ip == src && c.dst == dst && k in rfs
    requires k == Ident(rfs[k].src, rfs[k].dst)
    ensures k == Ident(c.src, c.dst) <==> rfs[k].src.port == c.src.port
  {
    IdentTellsPorts(src, dst.ip, rfs[k].src.port, c.src.port, dst.port);
  }

  lemma FiledOne(rfs: Capture, cs: seq<Captured>, src: string, dst: End, c: Captured, k: string)
    requires ByPort(rfs, cs, src, dst) && c.src.ip == src && c.dst == dst
    requires forall k :: k in rfs ==> (k == Ident(c.src, c.dst) <==> rfs[k].src.port == c.src.port)
    requires k in Filed(rfs, c)
    ensures var r := Filed(rfs, c)[k]; r == Direction(End(src, r.src.port), dst, FromPort(cs + [c], r.src.port))
  {
    assert (cs + [c])[..|cs|] == cs;
    if Ident(c.src, c.dst) !in rfs {
      NoneFrom(cs, c.src.port);
    }
  }

  lemma FiledKey(rfs: Capture, cs: seq<Captured>, src: string, dst: End, c: Captured, d: Captured)
    requires ByPort(rfs, cs, src, dst) && d in cs + [c]
    requires forall k :: k in rfs ==> (k == Ident(c.src, c.dst) <==> rfs[k].src.port == c.src.port)
    ensures exists k :: k in Filed(rfs, c) && Filed(rfs, c)[k].src.port == d.src.port
  {
    if d in cs {
      var k :| k in rfs && rfs[k].src.port == d.src.port;
      assert k in Filed(rfs, c) && Filed(rfs, c)[k].src == rfs[k].src;
    } else {
      assert Ident(c.src, c.dst) in Filed(rfs, c);
    }
  }

  lemma PortFiled(rfs: Capture, cs: seq<Captured>, src: string, dst: End, c: Captured)
    requires ByPort(rfs, cs, src, dst) && c.src.ip == src && c.dst == dst
    requires forall k :: k in rfs ==> k == Ident(rfs[k].src, rfs[k].dst)
    ensures ByPort(Filed(rfs, c), cs + [c], src, dst)
  {
    forall k | k in rfs
      ensures k == Ident(c.src, c.dst) <==> rfs[k].src.port == c.src.port
    {
      PortOfKey(rfs, cs, src, dst, c, k);
    }
    forall k | k in Filed(rfs, c)
      ensures var r := Filed(rfs, c)[k]; r == Direction(End(src, r.src.port), dst, FromPort(cs + [c], r.src.port))
    {
      FiledOne(rfs, cs, src, dst, c, k);
    }
    forall d | d in cs + [c]
      ensures exists k :: k in Filed(rfs, c) && Filed(rfs, c)[k].src.port == d.src.port
    {
      FiledKey(rfs, cs, src, dst, c, d);
    }
  }

  /** Of the packets from one address to one port of another, those of each source port are
      filed apart, complete and in order. */
  lemma {:induction false} PortsFiledApart(cs: seq<Captured>, src: string, dst: End)
    requires forall c :: c in cs ==> c.src.ip == src && c.dst == dst
    ensures ByPort(Assembled(cs), cs, src, dst)
  {
    if cs != [] {
      var n := |cs| - 1;
      assert cs[n] in cs && cs == cs[..n] + [cs[n]];
      PortsFiledApart(cs[..n], src, dst);
      forall k | k in Assembled(cs[..n])
        ensures k == Ident(Assembled(cs[..n])[k].src, Assembled(cs[..n])[k].dst)
      {
        AssembledEnds(cs[..n], k);
      }
      PortFiled(Assembled(cs[..n]), cs[..n], src, dst, cs[n]);
    }
  }

  lemma {:induction false} NoneFrom(cs: seq<Captured>, port: string)
    requires forall c :: c in cs ==> c.src.port != port
    ensures FromPort(cs, port) == []
  {
    if cs != [] {
      assert cs[|cs| - 1] in cs;
      NoneFrom(cs[..|cs| - 1], port);
    }
  }
}
