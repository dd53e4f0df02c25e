/** What the streams of a direction hold, read off the captured frames by their kinds and
    flags alone. */
module Blocks {
  import opened Wrappers
  import opened Frames
  import opened Demux

  // ----- which frames are stored -----

  /** The headers of a stream's DATA, HEADERS and PUSH_PROMISE frames, in order. */
  function HeadersOf(evs: seq<Event>, sid: nat): seq<Header> {
    if evs == [] then []
    else
      var hdr := evs[|evs| - 1].frame.hdr;
      HeadersOf(evs[..|evs| - 1], sid) +
      if hdr.sid == sid && (hdr.kind == Data || hdr.kind == Headers || hdr.kind == PushPromise) then [hdr] else []
  }

  /** These frames are stored, in this order, and no others. */
  lemma {:induction false} StoresInOrder(evs: seq<Event>, sid: nat, hpack: Hpack)
    ensures |FramesOf(evs, sid, hpack)| == |HeadersOf(evs, sid)|
    ensures forall i :: 0 <= i < |HeadersOf(evs, sid)| ==> FramesOf(evs, sid, hpack)[i].hdr == HeadersOf(evs, sid)[i]
    ensures forall i :: 0 <= i < |HeadersOf(evs, sid)| ==> evs[Positions(evs, sid)[i]].frame.hdr == HeadersOf(evs, sid)[i]
  {
    if evs != [] {
      var n := |evs| - 1;
      StoresInOrder(evs[..n], sid, hpack);
      var ps, hs := Positions(evs, sid), HeadersOf(evs, sid);
      assert IsKept(evs[n].frame) && evs[n].frame.hdr.sid == sid ==>
          ps == Positions(evs[..n], sid) + [n] && hs == HeadersOf(evs[..n], sid) + [evs[n].frame.hdr];
      forall i | 0 <= i < |hs|
        ensures |ps| == |hs| && evs[ps[i]].frame.hdr == hs[i] && FramesOf(evs, sid, hpack)[i].hdr == hs[i]
      {
        assert i < |HeadersOf(evs[..n], sid)| ==> evs[..n][ps[i]] == evs[ps[i]];
      }
    }
  }

  // ----- header blocks -----

  /** What the CONTINUATION frames of a stream carry, one after the other. */
  function Fragments(evs: seq<Event>, sid: nat): Bytes {
    if evs == [] then []
    else
      var f := evs[|evs| - 1].frame;
      Fragments(evs[..|evs| - 1], sid) + if f.hdr.sid == sid && f.hdr.kind == Continuation then f.payload else []
  }

  /** The frame at p begins a header block, and nothing after it ends that block: no frame
      of its stream begins another one, and no CONTINUATION of it has END_HEADERS. */
  predicate Pending(evs: seq<Event>, p: nat) {
    p < |evs| && !evs[p].frame.endHeaders && (evs[p].frame.hdr.kind == Headers || evs[p].frame.hdr.kind == PushPromise) &&
    forall q :: p < q < |evs| && evs[q].frame.hdr.sid == evs[p].frame.hdr.sid ==>
      && evs[q].frame.hdr.kind != Headers && evs[q].frame.hdr.kind != PushPromise
      && (evs[q].frame.hdr.kind == Continuation ==> !evs[q].frame.endHeaders)
  }

  lemma {:induction false} PendingGrows(evs: seq<Event>, p: nat)
    requires Pending(evs, p)
    ensures BlockOf(evs, p) == Open(evs[p].frame.payload + Fragments(evs[p + 1..], evs[p].frame.hdr.sid))
  {
    var n := |evs| - 1;
    if p < n {
      var before := evs[..n];
      assert evs == before + [evs[n]];
      PendingGrows(before, p);
      BlockGrows(before, p, evs[n]);
      assert evs[p + 1..][..n - p - 1] == before[p + 1..];
      assert evs[p + 1..][n - p - 1] == evs[n];
    } else {
      assert evs[p + 1..] == [];
      assert BlockFrom(evs, evs[p].frame.hdr.sid, p + 1, evs[p].frame.payload) == Open(evs[p].frame.payload);
    }
  }

  /** The open block of a stream is the pending one. */
  lemma {:induction false} OpenIsPending(evs: seq<Event>, sid: nat, p: nat)
    ensures OpenHead(evs, sid) == Some(p) <==> Pending(evs, p) && evs[p].frame.hdr.sid == sid
  {
    if Pending(evs, p) && evs[p].frame.hdr.sid == sid {
      PendingGrows(evs, p);
      OnlyLastOpen(evs, p);
    }
    if OpenHead(evs, sid) == Some(p) && p < |evs| - 1 {
      var n := |evs| - 1;
      assert evs == evs[..n] + [evs[n]];
      BlockGrows(evs[..n], p, evs[n]);
      OnlyLastOpen(evs[..n], p);
      OpenIsPending(evs[..n], sid, p);
    }
  }

  /** The block that the event at q ends: its own if it is whole, otherwise that of the
      pending frame of its stream. */
  ghost function Ended(evs: seq<Event>, q: nat): Option<Bytes>
    requires q < |evs|
  {
    var f := evs[q].frame;
    if !f.endHeaders then None
    else if f.hdr.kind == Headers || f.hdr.kind == PushPromise then Some(f.payload)
    else if f.hdr.kind == Continuation && exists p: nat :: Pending(evs[..q], p) && evs[p].frame.hdr.sid == f.hdr.sid then
      var p: nat :| Pending(evs[..q], p) && evs[p].frame.hdr.sid == f.hdr.sid;
      Some(evs[p].frame.payload + Fragments(evs[p + 1..q + 1], f.hdr.sid))
    else None
  }

  /** The blocks given to the one decoder, in the order in which they end. */
  ghost function Decoded(evs: seq<Event>): seq<Bytes> {
    if evs == [] then []
    else
      var q := |evs| - 1;
      Decoded(evs[..q]) + if Ended(evs, q).Some? then [Ended(evs, q).value] else []
  }

  lemma PendingBlock(evs: seq<Event>, p: nat, q: nat)
    requires q < |evs| && Pending(evs[..q], p) && evs[q].frame.hdr.sid == evs[p].frame.hdr.sid && evs[q].frame.hdr.kind == Continuation
    ensures OpenHead(evs[..q], evs[p].frame.hdr.sid) == Some(p)
    ensures BlockOf(evs[..q], p).body + evs[q].frame.payload == evs[p].frame.payload + Fragments(evs[p + 1..q + 1], evs[p].frame.hdr.sid)
  {
    var sid := evs[p].frame.hdr.sid;
    OpenIsPending(evs[..q], sid, p);
    PendingGrows(evs[..q], p);
    assert evs[p + 1..q + 1][..q - p - 1] == evs[..q][p + 1..];
    assert evs[p + 1..q + 1][q - p - 1] == evs[q];
  }

  lemma EndedIsCompleted(evs: seq<Event>, q: nat)
    requires q < |evs|
    ensures CompletedBy(evs[..q], evs[q]) == Ended(evs, q)
  {
    var f := evs[q].frame;
    if f.hdr.kind == Continuation && OpenHead(evs[..q], f.hdr.sid).Some? {
      OpenIsPending(evs[..q], f.hdr.sid, OpenHead(evs[..q], f.hdr.sid).value);
    }
    forall p: nat | f.hdr.kind == Continuation && Pending(evs[..q], p) && evs[p].frame.hdr.sid == f.hdr.sid
      ensures OpenHead(evs[..q], f.hdr.sid) == Some(p)
      ensures BlockOf(evs[..q], p).body + f.payload == evs[p].frame.payload + Fragments(evs[p + 1..q + 1], f.hdr.sid)
    {
      PendingBlock(evs, p, q);
    }
  }

  lemma {:induction false} DecodedIsCompleted(evs: seq<Event>)
    ensures Completed(evs) == Decoded(evs)
  {
    if evs != [] {
      DecodedIsCompleted(evs[..|evs| - 1]);
      EndedIsCompleted(evs, |evs| - 1);
    }
  }

  lemma {:induction false} StoredAt(evs: seq<Event>, p: nat, hpack: Hpack)
    requires p < |evs| && (evs[p].frame.hdr.kind == Data || evs[p].frame.hdr.kind == Headers || evs[p].frame.hdr.kind == PushPromise)
    ensures var sid := evs[p].frame.hdr.sid;
            var i := |HeadersOf(evs[..p], sid)|;
            && i < |HeadersOf(evs, sid)| == |FramesOf(evs, sid, hpack)|
            && Positions(evs, sid)[i] == p && FramesOf(evs, sid, hpack)[i] == Stored(evs, p, hpack)
  {
    var n, sid := |evs| - 1, evs[p].frame.hdr.sid;
    StoresInOrder(evs, sid, hpack);
    StoresInOrder(evs[..n], sid, hpack);
    if p < n {
      assert evs[..n][..p] == evs[..p];
      StoredAt(evs[..n], p, hpack);
    }
  }

  /** What a stream holds for its frame at p: data as it is; a block that is whole, or
      that a CONTINUATION at q ends, decoded after those that ended before it; and the
      fragments so far of a block that is pending, or that the next block at q cuts off. */
  lemma HoldsFrame(evs: seq<Event>, p: nat, q: nat, hpack: Hpack)
    requires p < |evs| && p <= q
    ensures var f, sid := evs[p].frame, evs[p].frame.hdr.sid;
            var i := |HeadersOf(evs[..p], sid)|;
            var frames := FramesOf(evs, sid, hpack);
            && (f.hdr.kind == Data ==> i < |frames| && frames[i] == OutFrame(f.hdr, f.payload, None))
            && ((f.hdr.kind == Headers || f.hdr.kind == PushPromise) && f.endHeaders ==>
                  i < |frames| && frames[i] == OutFrame(f.hdr, [], hpack(Decoded(evs[..p]), f.payload)))
            && (p < q < |evs| && Pending(evs[..q], p) && evs[q].frame.hdr.sid == sid ==>
                  && i < |frames|
                  && (evs[q].frame.hdr.kind == Continuation && evs[q].frame.endHeaders ==>
                        frames[i] == OutFrame(f.hdr, [], hpack(Decoded(evs[..q]), f.payload + Fragments(evs[p + 1..q + 1], sid))))
                  && (evs[q].frame.hdr.kind == Headers || evs[q].frame.hdr.kind == PushPromise ==>
                        frames[i] == OutFrame(f.hdr, f.payload + Fragments(evs[p + 1..q], sid), None)))
            && (Pending(evs, p) ==> i < |frames| && frames[i] == OutFrame(f.hdr, f.payload + Fragments(evs[p + 1..], sid), None))
  {
    var f, sid := evs[p].frame, evs[p].frame.hdr.sid;
    if f.hdr.kind == Data || f.hdr.kind == Headers || f.hdr.kind == PushPromise {
      StoredAt(evs, p, hpack);
      DecodedIsCompleted(evs[..p]);
    }
    if p < q < |evs| && Pending(evs[..q], p) && evs[q].frame.hdr.sid == sid {
      PendingEnds(evs, p, q);
      DecodedIsCompleted(evs[..q]);
    }
    if Pending(evs, p) {
      PendingGrows(evs, p);
    }
  }

  lemma PendingEnds(evs: seq<Event>, p: nat, q: nat)
    requires p < q < |evs| && Pending(evs[..q], p) && evs[q].frame.hdr.sid == evs[p].frame.hdr.sid
    ensures var sid, g := evs[p].frame.hdr.sid, evs[q].frame;
            && (g.hdr.kind == Continuation && g.endHeaders ==>
                  BlockOf(evs, p) == Complete(evs[p].frame.payload + Fragments(evs[p + 1..q + 1], sid), q))
            && (g.hdr.kind == Headers || g.hdr.kind == PushPromise ==>
                  BlockOf(evs, p) == CutOff(evs[p].frame.payload + Fragments(evs[p + 1..q], sid)))
  {
    assert evs[..q + 1] == evs[..q] + [evs[q]];
    PendingGrows(evs[..q], p);
    BlockGrows(evs[..q], p, evs[q]);
    assert evs[..q][p + 1..] == evs[p + 1..q];
    if evs[q].frame.hdr.kind == Continuation {
      PendingBlock(evs, p, q);
    }
    if !BlockOf(evs[..q + 1], p).Open? {
      BlockStable(evs, p, q + 1);
    }
  }

  // ----- the streams of a direction -----

  /** The event stores a frame of its stream or adds to its pending block. */
  ghost predicate Touches(evs: seq<Event>, q: nat)
    requires q < |evs|
  {
    var hdr := evs[q].frame.hdr;
    || hdr.kind == Data || hdr.kind == Headers || hdr.kind == PushPromise
    || (hdr.kind == Continuation && exists p: nat :: Pending(evs[..q], p) && evs[p].frame.hdr.sid == hdr.sid)
  }

  lemma {:induction false} TouchedLast(evs: seq<Event>, q: nat)
    requires q < |evs| && Touches(evs, q)
    requires forall k :: q < k < |evs| && evs[k].frame.hdr.sid == evs[q].frame.hdr.sid ==> !Touches(evs, k)
    ensures LastTouch(evs, evs[q].frame.hdr.sid) == Some(evs[q].time)
  {
    var n, sid := |evs| - 1, evs[q].frame.hdr.sid;
    var before := evs[..n];
    if OpenHead(before, sid).Some? {
      OpenIsPending(before, sid, OpenHead(before, sid).value);
    }
    if q < n {
      forall k | q <= k < n
        ensures Touches(before, k) == Touches(evs, k)
      {
        assert before[..k] == evs[..k];
      }
      TouchedLast(before, q);
    } else {
      forall p: nat | Pending(before, p) && evs[p].frame.hdr.sid == sid
        ensures OpenHead(before, sid) == Some(p)
      {
        OpenIsPending(before, sid, p);
      }
    }
  }

  /** The split fails exactly when a block that ends does not decode after those that
      ended before it. */
  lemma SplitFailsIff(evs: seq<Event>, hpack: Hpack)
    ensures StreamsOf(evs, hpack).None? <==>
              exists q :: 0 <= q < |evs| && Ended(evs, q).Some? && hpack(Decoded(evs[..q]), Ended(evs, q).value).None?
  {
    forall q | 0 <= q < |evs|
      ensures DecodesAt(evs, q, hpack) <==> !(Ended(evs, q).Some? && hpack(Decoded(evs[..q]), Ended(evs, q).value).None?)
    {
      EndedIsCompleted(evs, q);
      DecodedIsCompleted(evs[..q]);
    }
  }

  /** A direction has the streams that store a frame, and the time of a stream is that of
      the last event that touched it. */
  lemma HasStreams(evs: seq<Event>, sid: nat, q: nat, hpack: Hpack)
    requires StreamsOf(evs, hpack).Some?
    ensures var m := StreamsOf(evs, hpack).value;
            && (sid in m <==> HeadersOf(evs, sid) != [])
            && (sid in m ==> m[sid].frames == FramesOf(evs, sid, hpack))
            && (sid in m && q < |evs| && evs[q].frame.hdr.sid == sid && Touches(evs, q) &&
                (forall k :: q < k < |evs| && evs[k].frame.hdr.sid == sid ==> !Touches(evs, k)) ==>
                  m[sid].time == evs[q].time)
  {
    StoresInOrder(evs, sid, hpack);
    if Positions(evs, sid) != [] {
      assert evs[Positions(evs, sid)[0]].frame.hdr.sid in Sids(evs);
    }
    if q < |evs| && evs[q].frame.hdr.sid == sid && Touches(evs, q) &&
       (forall k :: q < k < |evs| && evs[k].frame.hdr.sid == sid ==> !Touches(evs, k)) {
      TouchedLast(evs, q);
    }
  }

  /** The frames of the packets, one packet after the other, each with its packet's time. */
  lemma EventsOfPackets(packets: seq<Packet>, p: Packet)
    ensures Events([]) == []
    ensures var evs := Events(packets + [p]);
            && evs[..|evs| - |p.frames|] == Events(packets)
            && forall j :: 0 <= j < |p.frames| ==> evs[|evs| - |p.frames| + j] == Event(p.frames[j], p.time)
  {
    assert (packets + [p])[..|packets|] == packets;
  }
}
