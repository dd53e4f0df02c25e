/** Splitting one direction of a connection into its streams, in one pass. */
module Demux {
  import opened Wrappers
  import opened Frames

  /** The frames of one captured packet, already parsed. */
  datatype Packet = Packet(time: int, frames: seq<Frame>)

  /** What is kept per stream while frames come in. */
  datatype StreamInfo = StreamInfo(headersEnded: bool, headersIndex: int, frames: seq<OutFrame>, time: int)

  function PacketEvents(p: Packet): seq<Event> {
    seq(|p.frames|, i requires 0 <= i < |p.frames| => Event(p.frames[i], p.time))
  }

  /** All frames in capture order. */
  function Events(packets: seq<Packet>): seq<Event> {
    if packets == [] then []
    else Events(packets[..|packets| - 1]) + PacketEvents(packets[|packets| - 1])
  }

  predicate Seen(evs: seq<Event>, sid: nat) {
    exists q :: 0 <= q < |evs| && evs[q].frame.hdr.sid == sid
  }

  /** The info of a stream says what the reference says of the events so far: its
      frames, whether a block is open and where that block is stored, and the time. */
  ghost predicate Tracks(si: StreamInfo, evs: seq<Event>, sid: nat, hpack: Hpack) {
    && si.frames == FramesOf(evs, sid, hpack)
    && (si.headersEnded <==> OpenHead(evs, sid).None?)
    && (!si.headersEnded ==>
          0 <= si.headersIndex < |si.frames| && Positions(evs, sid)[si.headersIndex] == OpenHead(evs, sid).value)
    && (LastTouch(evs, sid).Some? ==> si.time == LastTouch(evs, sid).value)
    && (si.frames == [] <==> LastTouch(evs, sid).None?)
  }

  /** How the reference moves when an event of another stream, or one that is neither
      kept nor a continuation of an open block, comes in: not at all. */
  lemma OtherEvent(evs: seq<Event>, e: Event, sid: nat, hpack: Hpack)
    requires e.frame.hdr.sid != sid || (!IsKept(e.frame) && (!e.frame.hdr.kind.Continuation? || OpenHead(evs, sid).None?))
    ensures Positions(evs + [e], sid) == Positions(evs, sid)
    ensures FramesOf(evs + [e], sid, hpack) == FramesOf(evs, sid, hpack)
    ensures OpenHead(evs + [e], sid) == OpenHead(evs, sid)
    ensures LastTouch(evs + [e], sid) == LastTouch(evs, sid)
  {
    assert (evs + [e])[..|evs|] == evs;
    var ps := Positions(evs, sid);
    forall i | 0 <= i < |ps|
      ensures Stored(evs + [e], ps[i], hpack) == Stored(evs, ps[i], hpack)
    {
      StoredGrows(evs, ps[i], e, hpack);
      if IsHead(evs[ps[i]].frame) && BlockOf(evs, ps[i]).Open? {
        OnlyLastOpen(evs, ps[i]);
      }
    }
    var p := LastHead(evs, sid);
    if p.Some? {
      BlockGrows(evs, p.value, e);
    }
  }

  lemma IgnoredEvent(si: StreamInfo, evs: seq<Event>, e: Event, hpack: Hpack)
    requires Tracks(si, evs, e.frame.hdr.sid, hpack)
    requires !IsKept(e.frame) && (!e.frame.hdr.kind.Continuation? || si.headersEnded)
    ensures Tracks(si, evs + [e], e.frame.hdr.sid, hpack)
    ensures DecodesAt(evs + [e], |evs|, hpack) && Completed(evs + [e]) == Completed(evs)
  {
    assert (evs + [e])[..|evs|] == evs;
    OtherEvent(evs, e, e.frame.hdr.sid, hpack);
  }

  /** Only the last block of a stream can be open. */
  lemma OnlyLastOpen(evs: seq<Event>, p: nat)
    requires p < |evs| && IsHead(evs[p].frame) && BlockOf(evs, p).Open?
    ensures OpenHead(evs, evs[p].frame.hdr.sid) == Some(p)
  {
    var sid := evs[p].frame.hdr.sid;
    var last := LastHead(evs, sid).value;
    if p < last {
      HeadCutsOff(evs, sid, p + 1, evs[p].frame.payload, last);
    }
  }

  lemma {:induction false} HeadCutsOff(evs: seq<Event>, sid: nat, q: nat, body: Bytes, h: nat)
    requires q <= h < |evs| && IsHead(evs[h].frame) && evs[h].frame.hdr.sid == sid
    ensures !BlockFrom(evs, sid, q, body).Open?
    decreases h - q
  {
    if q < h {
      var f := evs[q].frame;
      HeadCutsOff(evs, sid, q + 1, if f.hdr.sid == sid && f.hdr.kind.Continuation? then body + f.payload else body, h);
    }
  }

  /** The frames of a stream stay as they are when an event is none of their business. */
  lemma OldFramesStay(evs: seq<Event>, e: Event, sid: nat, i: nat, hpack: Hpack)
    requires i < |Positions(evs, sid)| && IsKept(e.frame)
    ensures Stored(evs + [e], Positions(evs, sid)[i], hpack) == FramesOf(evs, sid, hpack)[i]
  {
    StoredGrows(evs, Positions(evs, sid)[i], e, hpack);
  }

  lemma KeptTouch(evs: seq<Event>, e: Event)
    requires IsKept(e.frame)
    ensures LastTouch(evs + [e], e.frame.hdr.sid) == Some(e.time)
  {
    assert (evs + [e])[..|evs|] == evs && (evs + [e])[|evs|] == e;
  }

  lemma KeptPosition(evs: seq<Event>, e: Event)
    requires IsKept(e.frame)
    ensures Positions(evs + [e], e.frame.hdr.sid) == Positions(evs, e.frame.hdr.sid) + [|evs|]
  {
    assert (evs + [e])[..|evs|] == evs && (evs + [e])[|evs|] == e;
  }

  /** A kept frame is stored after those of its stream, which stay as they are. */
  lemma KeptEvent(evs: seq<Event>, e: Event, hpack: Hpack)
    requires IsKept(e.frame)
    ensures FramesOf(evs + [e], e.frame.hdr.sid, hpack) ==
              FramesOf(evs, e.frame.hdr.sid, hpack) + [Stored(evs + [e], |evs|, hpack)]
  {
    var sid, evs' := e.frame.hdr.sid, evs + [e];
    KeptPosition(evs, e);
    var before, after := FramesOf(evs, sid, hpack), FramesOf(evs', sid, hpack);
    forall i | 0 <= i < |before|
      ensures after[i] == before[i]
    {
      OldFramesStay(evs, e, sid, i, hpack);
    }
    assert after[|before|] == Stored(evs', |evs|, hpack);
    assert after == before + [after[|before|]];
  }

  /** A data frame is stored as it is and leaves an open block open. */
  lemma DataEvent(evs: seq<Event>, e: Event, hpack: Hpack)
    requires e.frame.hdr.kind.Data?
    ensures Stored(evs + [e], |evs|, hpack) == OutFrame(e.frame.hdr, e.frame.payload, None)
    ensures OpenHead(evs + [e], e.frame.hdr.sid) == OpenHead(evs, e.frame.hdr.sid)
  {
    assert (evs + [e])[..|evs|] == evs;
    var p := LastHead(evs, e.frame.hdr.sid);
    if p.Some? {
      BlockGrows(evs, p.value, e);
    }
  }

  lemma NewBlock(evs: seq<Event>, e: Event)
    requires IsHead(e.frame)
    ensures BlockOf(evs + [e], |evs|) == if e.frame.endHeaders then Complete(e.frame.payload, |evs|) else Open(e.frame.payload)
  {
    assert (evs + [e])[|evs|] == e;
  }

  lemma HeadOpens(evs: seq<Event>, e: Event)
    requires IsHead(e.frame)
    ensures OpenHead(evs + [e], e.frame.hdr.sid) == if e.frame.endHeaders then None else Some(|evs|)
  {
    assert (evs + [e])[|evs|] == e;
    assert LastHead(evs + [e], e.frame.hdr.sid) == Some(|evs|);
    NewBlock(evs, e);
  }

  /** A frame that begins a block is decoded at once if it also ends it. */
  lemma HeadEvent(evs: seq<Event>, e: Event, hpack: Hpack)
    requires IsHead(e.frame)
    ensures var f := e.frame;
            Stored(evs + [e], |evs|, hpack) ==
              if f.endHeaders then OutFrame(f.hdr, [], hpack(Completed(evs), f.payload)) else OutFrame(f.hdr, f.payload, None)
  {
    var evs' := evs + [e];
    NewBlock(evs, e);
    assert evs'[|evs|] == e;
    assert evs'[..|evs|] == evs;
  }

  /** A continuation stores no new frame, and ends the block or leaves it open. */
  lemma ContinuationOpens(evs: seq<Event>, e: Event)
    requires e.frame.hdr.kind.Continuation? && OpenHead(evs, e.frame.hdr.sid).Some?
    ensures OpenHead(evs + [e], e.frame.hdr.sid) == if e.frame.endHeaders then None else OpenHead(evs, e.frame.hdr.sid)
  {
    assert (evs + [e])[..|evs|] == evs && (evs + [e])[|evs|] == e;
    BlockGrows(evs, OpenHead(evs, e.frame.hdr.sid).value, e);
  }

  lemma ContinuationTouches(evs: seq<Event>, e: Event)
    requires e.frame.hdr.kind.Continuation? && OpenHead(evs, e.frame.hdr.sid).Some?
    ensures Positions(evs + [e], e.frame.hdr.sid) == Positions(evs, e.frame.hdr.sid)
    ensures LastTouch(evs + [e], e.frame.hdr.sid) == Some(e.time)
  {
    assert (evs + [e])[..|evs|] == evs && (evs + [e])[|evs|] == e;
  }

  /** A stored frame with a continuation added to its block, decoded if that ends it. */
  function Added(evs: seq<Event>, f: Frame, hpack: Hpack, was: OutFrame): OutFrame {
    if f.endHeaders then OutFrame(was.hdr, [], hpack(Completed(evs), was.body + f.payload))
    else OutFrame(was.hdr, was.body + f.payload, None)
  }

  /** A continuation adds to the frame of the open block and to no other. */
  lemma ContinuationStored(evs: seq<Event>, e: Event, hpack: Hpack, p: nat)
    requires e.frame.hdr.kind.Continuation? && p in Positions(evs, e.frame.hdr.sid)
    ensures var was := Stored(evs, p, hpack);
            Stored(evs + [e], p, hpack) == if OpenHead(evs, e.frame.hdr.sid) == Some(p) then Added(evs, e.frame, hpack, was) else was
    ensures OpenHead(evs, e.frame.hdr.sid) == Some(p) ==>
              Stored(evs, p, hpack).fields.None? && Stored(evs, p, hpack).body == BlockOf(evs, p).body
  {
    StoredGrows(evs, p, e, hpack);
    if IsHead(evs[p].frame) && BlockOf(evs, p).Open? {
      OnlyLastOpen(evs, p);
    }
  }

  /** A continuation of an open block changes the frame of that block and no other. */
  lemma ContinuationEvent(evs: seq<Event>, e: Event, hpack: Hpack, k: nat)
    requires e.frame.hdr.kind.Continuation?
    requires var ps := Positions(evs, e.frame.hdr.sid); k < |ps| && OpenHead(evs, e.frame.hdr.sid) == Some(ps[k])
    ensures var sid := e.frame.hdr.sid;
            var was := FramesOf(evs, sid, hpack);
            && was[k].body == BlockOf(evs, Positions(evs, sid)[k]).body && was[k].fields.None?
            && FramesOf(evs + [e], sid, hpack) == was[k := Added(evs, e.frame, hpack, was[k])]
  {
    var ps, was := Positions(evs, e.frame.hdr.sid), FramesOf(evs, e.frame.hdr.sid, hpack);
    ContinuationTouches(evs, e);
    forall i | 0 <= i < |ps|
      ensures Stored(evs + [e], ps[i], hpack) == if i == k then Added(evs, e.frame, hpack, was[k]) else was[i]
    {
      ContinuationStored(evs, e, hpack, ps[i]);
    }
    ContinuationStored(evs, e, hpack, ps[k]);
  }

  lemma {:induction false} UnseenStream(evs: seq<Event>, sid: nat, hpack: Hpack)
    requires !Seen(evs, sid)
    ensures Tracks(StreamInfo(true, -1, [], 0), evs, sid, hpack)
    ensures LastHead(evs, sid).None? && Positions(evs, sid) == [] && LastTouch(evs, sid).None?
  {
    if evs != [] {
      var before := evs[..|evs| - 1];
      assert forall q :: 0 <= q < |before| ==> before[q] == evs[q];
      UnseenStream(before, sid, hpack);
    }
  }

  /** The infos and the decoder say what the reference says of the events so far. */
  ghost predicate Follows(infos: map<nat, StreamInfo>, decoded: seq<Bytes>, evs: seq<Event>, hpack: Hpack) {
    && decoded == Completed(evs)
    && Decodable(evs, hpack)
    && (forall sid :: sid in infos <==> Seen(evs, sid))
    && (forall sid :: sid in infos ==> Tracks(infos[sid], evs, sid, hpack))
  }

  lemma DecodableOn(evs: seq<Event>, e: Event, hpack: Hpack)
    requires Decodable(evs, hpack) && DecodesAt(evs + [e], |evs|, hpack)
    ensures Decodable(evs + [e], hpack)
  {
    var evs' := evs + [e];
    forall q | 0 <= q < |evs'|
      ensures DecodesAt(evs', q, hpack)
    {
      if q < |evs| {
        assert evs'[..q] == evs[..q];
        assert DecodesAt(evs, q, hpack);
      }
    }
  }

  lemma SeenOn(evs: seq<Event>, e: Event, sid: nat)
    ensures Seen(evs + [e], sid) <==> Seen(evs, sid) || sid == e.frame.hdr.sid
  {
    var evs' := evs + [e];
    assert evs'[|evs|] == e;
    if Seen(evs, sid) {
      var q :| 0 <= q < |evs| && evs[q].frame.hdr.sid == sid;
      assert evs'[q] == evs[q];
    }
  }

  lemma OtherTracks(si: StreamInfo, evs: seq<Event>, e: Event, sid: nat, hpack: Hpack)
    requires Tracks(si, evs, sid, hpack) && sid != e.frame.hdr.sid
    ensures Tracks(si, evs + [e], sid, hpack)
  {
    OtherEvent(evs, e, sid, hpack);
  }

  lemma InfosOn(infos: map<nat, StreamInfo>, evs: seq<Event>, hpack: Hpack, e: Event, si: StreamInfo)
    requires forall sid :: sid in infos ==> Tracks(infos[sid], evs, sid, hpack)
    requires Tracks(si, evs + [e], e.frame.hdr.sid, hpack)
    ensures var infos' := infos[e.frame.hdr.sid := si];
            forall sid :: sid in infos' ==> Tracks(infos'[sid], evs + [e], sid, hpack)
  {
    var infos' := infos[e.frame.hdr.sid := si];
    forall sid | sid in infos'
      ensures Tracks(infos'[sid], evs + [e], sid, hpack)
    {
      if sid != e.frame.hdr.sid {
        OtherTracks(infos[sid], evs, e, sid, hpack);
      }
    }
  }

  /** It is enough to keep track of the stream of the event. */
  lemma FollowsOn(infos: map<nat, StreamInfo>, decoded: seq<Bytes>, evs: seq<Event>, hpack: Hpack,
                  e: Event, si: StreamInfo, decoded': seq<Bytes>)
    requires Follows(infos, decoded, evs, hpack)
    requires DecodesAt(evs + [e], |evs|, hpack) && decoded' == Completed(evs + [e])
    requires Tracks(si, evs + [e], e.frame.hdr.sid, hpack)
    ensures Follows(infos[e.frame.hdr.sid := si], decoded', evs + [e], hpack)
  {
    DecodableOn(evs, e, hpack);
    InfosOn(infos, evs, hpack, e, si);
    forall sid
      ensures sid in infos[e.frame.hdr.sid := si] <==> Seen(evs + [e], sid)
    {
      SeenOn(evs, e, sid);
    }
  }

  function Sids(evs: seq<Event>): set<nat> {
    set q | 0 <= q < |evs| :: evs[q].frame.hdr.sid
  }

  function TimeOf(evs: seq<Event>, sid: nat): int {
    var t := LastTouch(evs, sid);
    if t.Some? then t.value else 0
  }

  /** The streams of a direction: for every stream that stored a frame, the projection
      the reference describes; nothing at all if some header block does not decode. */
  ghost function StreamsOf(evs: seq<Event>, hpack: Hpack): Option<map<nat, Stream>> {
    if Decodable(evs, hpack) then
      Some(map sid | sid in Sids(evs) && Positions(evs, sid) != [] :: Stream(FramesOf(evs, sid, hpack), TimeOf(evs, sid)))
    else None
  }

  lemma UndecodablePrefix(xs: seq<Event>, evs: seq<Event>, hpack: Hpack)
    requires xs <= evs && !Decodable(xs, hpack)
    ensures !Decodable(evs, hpack)
  {
    var q :| 0 <= q < |xs| && !DecodesAt(xs, q, hpack);
    assert evs[..q] == xs[..q] && evs[q] == xs[q];
    assert !DecodesAt(evs, q, hpack);
  }

  function Selected(infos: map<nat, StreamInfo>): map<nat, Stream> {
    map sid | sid in infos && infos[sid].frames != [] :: Stream(infos[sid].frames, infos[sid].time)
  }

  lemma SelectedAt(infos: map<nat, StreamInfo>, decoded: seq<Bytes>, evs: seq<Event>, hpack: Hpack, sid: nat)
    requires Follows(infos, decoded, evs, hpack)
    ensures sid in Selected(infos) <==> sid in Sids(evs) && Positions(evs, sid) != []
    ensures sid in Selected(infos) ==> Selected(infos)[sid] == Stream(FramesOf(evs, sid, hpack), TimeOf(evs, sid))
  {
    assert sid in infos <==> Seen(evs, sid);
    if sid in infos {
      assert Tracks(infos[sid], evs, sid, hpack);
      assert |FramesOf(evs, sid, hpack)| == |Positions(evs, sid)|;
    }
  }

  lemma SelectedIsStreams(infos: map<nat, StreamInfo>, decoded: seq<Bytes>, evs: seq<Event>, hpack: Hpack)
    requires Follows(infos, decoded, evs, hpack)
    ensures StreamsOf(evs, hpack) == Some(Selected(infos))
  {
    var m := StreamsOf(evs, hpack).value;
    forall sid
      ensures sid in m <==> sid in Selected(infos)
      ensures sid in m ==> m[sid] == Selected(infos)[sid]
    {
      SelectedAt(infos, decoded, evs, hpack, sid);
    }
    assert m.Keys == Selected(infos).Keys;
    assert m == Selected(infos);
  }

  /** The one shared decoder and the infos of all streams, as the loops update them.
      `decoded` is the decoder's state. */
  class Demuxer {
    const hpack: Hpack
    var streaminfos: map<nat, StreamInfo>
    var decoded: seq<Bytes>

    constructor (hpack: Hpack)
      ensures this.hpack == hpack && Follows(streaminfos, decoded, [], hpack)
    {
      this.hpack, streaminfos, decoded := hpack, map[], [];
    }

    /** Decodes one block, advancing the decoder. */
    method DecodeFull(block: Bytes) returns (fields: Option<seq<Field>>)
      modifies `decoded
      ensures fields == hpack(old(decoded), block)
      ensures decoded == old(decoded) + [block]
    {
      fields := hpack(decoded, block);
      decoded := decoded + [block];
    }

    /** Decodes the block stored at headersIndex and puts the fields in its place. */
    method DecodeStored(si: StreamInfo) returns (ok: bool, si': StreamInfo)
      requires 0 <= si.headersIndex < |si.frames|
      modifies `decoded
      ensures var stored := si.frames[si.headersIndex];
              && decoded == old(decoded) + [stored.body]
              && (ok <==> hpack(old(decoded), stored.body).Some?)
              && (ok ==> si' == si.(frames := si.frames[si.headersIndex := OutFrame(stored.hdr, [], hpack(old(decoded), stored.body))]))
    {
      var x := DecodeFull(si.frames[si.headersIndex].body);
      ok := x.Some?;
      si' := if ok then si.(frames := si.frames[si.headersIndex := OutFrame(si.frames[si.headersIndex].hdr, [], x)]) else si;
    }

    /** A frame that begins a header block. */
    method BeginBlock(si: StreamInfo, e: Event, ghost evs: seq<Event>) returns (ok: bool, si': StreamInfo)
      requires IsHead(e.frame) && Tracks(si, evs, e.frame.hdr.sid, hpack) && decoded == Completed(evs)
      modifies `decoded
      ensures ok <==> DecodesAt(evs + [e], |evs|, hpack)
      ensures ok ==> Tracks(si', evs + [e], e.frame.hdr.sid, hpack) && decoded == Completed(evs + [e])
    {
      assert (evs + [e])[..|evs|] == evs;
      KeptTouch(evs, e);
      KeptPosition(evs, e);
      KeptEvent(evs, e, hpack);
      HeadEvent(evs, e, hpack);
      HeadOpens(evs, e);
      ok := true;
      si' := si.(frames := si.frames + [OutFrame(e.frame.hdr, e.frame.payload, None)], headersEnded := e.frame.endHeaders);
      si' := si'.(headersIndex := |si'.frames| - 1);
      if si'.headersEnded {
        ok, si' := DecodeStored(si');
      }
      si' := si'.(time := e.time);
    }

    /** A continuation of an open header block. */
    method ContinueBlock(si: StreamInfo, e: Event, ghost evs: seq<Event>) returns (ok: bool, si': StreamInfo)
      requires e.frame.hdr.kind.Continuation? && !si.headersEnded
      requires Tracks(si, evs, e.frame.hdr.sid, hpack) && decoded == Completed(evs)
      modifies `decoded
      ensures ok <==> DecodesAt(evs + [e], |evs|, hpack)
      ensures ok ==> Tracks(si', evs + [e], e.frame.hdr.sid, hpack) && decoded == Completed(evs + [e])
    {
      assert (evs + [e])[..|evs|] == evs;
      ContinuationEvent(evs, e, hpack, si.headersIndex);
      ContinuationTouches(evs, e);
      ContinuationOpens(evs, e);
      ok := true;
      var was := si.frames[si.headersIndex];
      si' := si.(frames := si.frames[si.headersIndex := was.(body := was.body + e.frame.payload)]);
      si' := si'.(headersEnded := e.frame.endHeaders, time := e.time);
      if si'.headersEnded {
        ok, si' := DecodeStored(si');
      }
    }

    method StoreData(si: StreamInfo, e: Event, ghost evs: seq<Event>) returns (si': StreamInfo)
      requires e.frame.hdr.kind.Data? && Tracks(si, evs, e.frame.hdr.sid, hpack)
      ensures Tracks(si', evs + [e], e.frame.hdr.sid, hpack)
      ensures DecodesAt(evs + [e], |evs|, hpack) && Completed(evs + [e]) == Completed(evs)
    {
      assert (evs + [e])[..|evs|] == evs;
      KeptTouch(evs, e);
      KeptPosition(evs, e);
      KeptEvent(evs, e, hpack);
      DataEvent(evs, e, hpack);
      si' := si.(frames := si.frames + [OutFrame(e.frame.hdr, e.frame.payload, None)], time := e.time);
    }

    /** The info of a stream, new if this is its first frame. */
    method Info(sid: nat, ghost evs: seq<Event>) returns (si: StreamInfo)
      requires Follows(streaminfos, decoded, evs, hpack)
      ensures Tracks(si, evs, sid, hpack)
    {
      if sid in streaminfos {
        si := streaminfos[sid];
      } else {
        UnseenStream(evs, sid, hpack);
        si := StreamInfo(true, -1, [], 0);
      }
    }

    /** One frame.  Fails when a completed header block does not decode. */
    method Receive(e: Event, ghost evs: seq<Event>) returns (ok: bool)
      requires Follows(streaminfos, decoded, evs, hpack)
      modifies this
      ensures ok ==> Follows(streaminfos, decoded, evs + [e], hpack)
      ensures ok <==> DecodesAt(evs + [e], |evs|, hpack)
    {
      var f := e.frame;
      var si := Info(f.hdr.sid, evs);
      ok := true;
      if f.hdr.kind.Data? {
        si := StoreData(si, e, evs);
      } else if IsHead(f) {
        ok, si := BeginBlock(si, e, evs);
      } else if f.hdr.kind.Continuation? && !si.headersEnded {
        ok, si := ContinueBlock(si, e, evs);
      } else {
        IgnoredEvent(si, evs, e, hpack);
      }
      if ok {
        FollowsOn(streaminfos, old(decoded), evs, hpack, e, si, decoded);
        streaminfos := streaminfos[f.hdr.sid := si];
      }
    }

    /** The loop over the frames of one packet. */
    method ReceivePacket(p: Packet, ghost evs: seq<Event>) returns (ok: bool)
      requires Follows(streaminfos, decoded, evs, hpack)
      modifies this
      ensures ok ==> Follows(streaminfos, decoded, evs + PacketEvents(p), hpack)
      ensures !ok ==> !Decodable(evs + PacketEvents(p), hpack)
    {
      var j := 0;
      ghost var all := PacketEvents(p);
      assert evs + all[..0] == evs;
      while j < |p.frames|
        invariant 0 <= j <= |p.frames|
        invariant Follows(streaminfos, decoded, evs + all[..j], hpack)
      {
        var e := Event(p.frames[j], p.time);
        assert evs + all[..j + 1] == (evs + all[..j]) + [e];
        ok := Receive(e, evs + all[..j]);
        if !ok {
          UndecodablePrefix(evs + all[..j + 1], evs + all, hpack);
          return;
        }
        j := j + 1;
      }
      assert all[..j] == all;
      ok := true;
    }

    /** The streams that have stored a frame. */
    method Collect(ghost evs: seq<Event>) returns (smap: map<nat, Stream>)
      requires Follows(streaminfos, decoded, evs, hpack)
      ensures StreamsOf(evs, hpack) == Some(smap)
    {
      SelectedIsStreams(streaminfos, decoded, evs, hpack);
      smap := Selected(streaminfos);
    }
  }

  lemma {:induction false} EventsPrefix(packets: seq<Packet>, i: nat)
    requires i <= |packets|
    ensures Events(packets[..i]) <= Events(packets)
    decreases |packets|
  {
    if i < |packets| {
      var before := packets[..|packets| - 1];
      assert before[..i] == packets[..i];
      EventsPrefix(before, i);
    } else {
      assert packets[..i] == packets;
    }
  }

  /** The loop over packets. */
  method FramesToStreams(packets: seq<Packet>, hpack: Hpack) returns (r: Option<map<nat, Stream>>)
    ensures r == StreamsOf(Events(packets), hpack)
  {
    var d := new Demuxer(hpack);
    var i := 0;
    while i < |packets|
      invariant 0 <= i <= |packets| && fresh(d) && d.hpack == hpack
      invariant Follows(d.streaminfos, d.decoded, Events(packets[..i]), hpack)
    {
      assert packets[..i + 1][..i] == packets[..i];
      EventsPrefix(packets, i + 1);
      var ok := d.ReceivePacket(packets[i], Events(packets[..i]));
      if !ok {
        UndecodablePrefix(Events(packets[..i + 1]), Events(packets), hpack);
        return None;
      }
      i := i + 1;
    }
    assert packets[..i] == packets;
    var smap := d.Collect(Events(packets));
    r := Some(smap);
  }

  // ----- the decoder's history, block by block -----

  lemma {:induction false} BlockStable(evs: seq<Event>, p: nat, n: nat)
    requires p < n <= |evs| && IsHead(evs[p].frame) && !BlockOf(evs[..n], p).Open?
    ensures BlockOf(evs, p) == BlockOf(evs[..n], p)
    decreases |evs| - n
  {
    if n < |evs| {
      assert evs[..n + 1] == evs[..n] + [evs[n]];
      BlockGrows(evs[..n], p, evs[n]);
      BlockStable(evs, p, n + 1);
    } else {
      assert evs[..n] == evs;
    }
  }

  /** The block handed to the decoder at an event is exactly a block that some frame
      began and that this event completes. */
  lemma CompletionsAreBlocks(evs: seq<Event>, q: nat, b: Bytes)
    requires q < |evs|
    ensures CompletedBy(evs[..q], evs[q]) == Some(b) <==>
            exists p :: 0 <= p <= q && IsHead(evs[p].frame) && BlockOf(evs, p) == Complete(b, q)
  {
    var before, e := evs[..q], evs[q];
    assert evs[..q + 1] == before + [e];
    if CompletedBy(before, e) == Some(b) {
      var p := if IsHead(e.frame) then q else OpenHead(before, e.frame.hdr.sid).value;
      if p < q {
        BlockGrows(before, p, e);
      }
      BlockStable(evs, p, q + 1);
      assert BlockOf(evs, p) == Complete(b, q);
    }
    if p :| 0 <= p <= q && IsHead(evs[p].frame) && BlockOf(evs, p) == Complete(b, q) {
      if p < q {
        if !BlockOf(before, p).Open? {
          BlockStable(evs, p, q);
        }
        OnlyLastOpen(before, p);
        BlockGrows(before, p, e);
        if !BlockOf(before + [e], p).Open? {
          BlockStable(evs, p, q + 1);
        } else {
          LaterCompletion(evs, p, q + 1);
        }
      }
    }
  }

  lemma {:induction false} LaterCompletion(evs: seq<Event>, p: nat, n: nat)
    requires p < n <= |evs| && IsHead(evs[p].frame) && BlockOf(evs[..n], p).Open?
    ensures var b := BlockOf(evs, p); b.Complete? ==> b.at >= n
    decreases |evs| - n
  {
    if n < |evs| {
      assert evs[..n + 1] == evs[..n] + [evs[n]];
      BlockGrows(evs[..n], p, evs[n]);
      if BlockOf(evs[..n + 1], p).Open? {
        LaterCompletion(evs, p, n + 1);
      } else {
        BlockStable(evs, p, n + 1);
      }
    } else {
      assert evs[..n] == evs;
    }
  }
}
