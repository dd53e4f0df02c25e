/** HTTP/2 frames of one direction of a connection, and what belongs to each stream.
    This is the reference: it looks at the whole frame sequence at once, and follows
    each header block forward from the frame that begins it. */
module Frames {
  import opened Wrappers

  type Bytes = seq<uint8>

  datatype Kind = Data | Headers | PushPromise | Continuation | OtherKind(code: nat)

  datatype Header = Header(kind: Kind, flags: nat, length: nat, sid: nat)

  /** A parsed frame: the payload is the data, or the header block fragment. */
  datatype Frame = Frame(hdr: Header, payload: Bytes, endHeaders: bool)

  /** A frame and the capture time of its packet. */
  datatype Event = Event(frame: Frame, time: int)

  datatype Field = Field(name: string, value: string)

  /** The header decoder.  Its state is what it has decoded so far, so it is a function
      of the blocks already decoded and of the next block; None is a decoding error. */
  type Hpack = (seq<Bytes>, Bytes) -> Option<seq<Field>>

  datatype OutFrame = OutFrame(hdr: Header, body: Bytes, fields: Option<seq<Field>>)

  datatype Stream = Stream(frames: seq<OutFrame>, time: int)

  predicate IsHead(f: Frame) {
    f.hdr.kind.Headers? || f.hdr.kind.PushPromise?
  }

  predicate IsKept(f: Frame) {
    f.hdr.kind.Data? || IsHead(f)
  }

  // ----- header blocks -----

  /** A header block: still waiting for continuations, complete at an event, or cut off
      by the next header block of its stream. */
  datatype Block = Open(body: Bytes) | Complete(body: Bytes, at: nat) | CutOff(body: Bytes)

  /** The fate of a block with `body` so far, as decided by the events from q on. */
  function BlockFrom(evs: seq<Event>, sid: nat, q: nat, body: Bytes): (b: Block)
    ensures b.Complete? ==> q <= b.at < |evs|
    decreases |evs| - q
  {
    if q >= |evs| then Open(body)
    else
      var f := evs[q].frame;
      if f.hdr.sid != sid then BlockFrom(evs, sid, q + 1, body)
      else if IsHead(f) then CutOff(body)
      else if f.hdr.kind.Continuation? then
        if f.endHeaders then Complete(body + f.payload, q) else BlockFrom(evs, sid, q + 1, body + f.payload)
      else BlockFrom(evs, sid, q + 1, body)
  }

  /** The block that the frame at p begins. */
  function BlockOf(evs: seq<Event>, p: nat): (b: Block)
    requires p < |evs| && IsHead(evs[p].frame)
    ensures b.Complete? ==> p <= b.at < |evs|
  {
    var f := evs[p].frame;
    if f.endHeaders then Complete(f.payload, p) else BlockFrom(evs, f.hdr.sid, p + 1, f.payload)
  }

  /** The last frame of a stream that begins a block. */
  function LastHead(evs: seq<Event>, sid: nat): (p: Option<nat>)
    ensures p.Some? ==> p.value < |evs| && IsHead(evs[p.value].frame) && evs[p.value].frame.hdr.sid == sid
    ensures forall q :: 0 <= q < |evs| && IsHead(evs[q].frame) && evs[q].frame.hdr.sid == sid ==> p.Some? && q <= p.value
  {
    if evs == [] then None
    else
      var last := |evs| - 1;
      if IsHead(evs[last].frame) && evs[last].frame.hdr.sid == sid then Some(last)
      else LastHead(evs[..last], sid)
  }

  /** The frame whose block a continuation would add to. */
  function OpenHead(evs: seq<Event>, sid: nat): Option<nat> {
    var p := LastHead(evs, sid);
    if p.Some? && BlockOf(evs, p.value).Open? then p else None
  }

  /** The block that the next event would complete. */
  function CompletedBy(evs: seq<Event>, e: Event): Option<Bytes> {
    var f := e.frame;
    if !f.endHeaders then None
    else if IsHead(f) then Some(f.payload)
    else if f.hdr.kind.Continuation? && OpenHead(evs, f.hdr.sid).Some?
    then Some(BlockOf(evs, OpenHead(evs, f.hdr.sid).value).body + f.payload)
    else None
  }

  /** All complete blocks of all streams, in the order of completion. */
  function Completed(evs: seq<Event>): seq<Bytes> {
    if evs == [] then []
    else
      var before := evs[..|evs| - 1];
      var b := CompletedBy(before, evs[|evs| - 1]);
      Completed(before) + if b.Some? then [b.value] else []
  }

  // ----- streams -----

  /** The positions of a stream's stored frames. */
  function Positions(evs: seq<Event>, sid: nat): (ps: seq<nat>)
    ensures forall i :: 0 <= i < |ps| ==> ps[i] < |evs| && IsKept(evs[ps[i]].frame) && evs[ps[i]].frame.hdr.sid == sid
    ensures forall i, j :: 0 <= i < j < |ps| ==> ps[i] < ps[j]
  {
    if evs == [] then []
    else
      var last := |evs| - 1;
      Positions(evs[..last], sid) + if IsKept(evs[last].frame) && evs[last].frame.hdr.sid == sid then [last] else []
  }

  /** The stored form of the frame at p: data as it is; a header block whole, decoded
      by the decoder as it stood when the block was completed. */
  function Stored(evs: seq<Event>, p: nat, hpack: Hpack): OutFrame
    requires p < |evs| && IsKept(evs[p].frame)
  {
    var f := evs[p].frame;
    if f.hdr.kind.Data? then OutFrame(f.hdr, f.payload, None)
    else match BlockOf(evs, p)
      case Open(body) => OutFrame(f.hdr, body, None)
      case CutOff(body) => OutFrame(f.hdr, body, None)
      case Complete(body, at) => OutFrame(f.hdr, [], hpack(Completed(evs[..at]), body))
  }

  function FramesOf(evs: seq<Event>, sid: nat, hpack: Hpack): seq<OutFrame> {
    var ps := Positions(evs, sid);
    seq(|ps|, i requires 0 <= i < |ps| => Stored(evs, ps[i], hpack))
  }

  /** The time of the last event that stored or extended a frame of the stream. */
  function LastTouch(evs: seq<Event>, sid: nat): Option<int> {
    if evs == [] then None
    else
      var before, e := evs[..|evs| - 1], evs[|evs| - 1];
      if e.frame.hdr.sid == sid &&
         (IsKept(e.frame) || (e.frame.hdr.kind.Continuation? && OpenHead(before, sid).Some?))
      then Some(e.time)
      else LastTouch(before, sid)
  }

  /** Every block decodes when its turn comes. */
  ghost predicate Decodable(evs: seq<Event>, hpack: Hpack) {
    forall q :: 0 <= q < |evs| ==> DecodesAt(evs, q, hpack)
  }

  ghost predicate DecodesAt(evs: seq<Event>, q: nat, hpack: Hpack)
    requires q < |evs|
  {
    var b := CompletedBy(evs[..q], evs[q]);
    b.Some? ==> hpack(Completed(evs[..q]), b.value).Some?
  }

  // ----- one more event -----

  function Extend(b: Block, sid: nat, f: Frame, at: nat): Block {
    if !b.Open? || f.hdr.sid != sid then b
    else if IsHead(f) then CutOff(b.body)
    else if f.hdr.kind.Continuation? then
      if f.endHeaders then Complete(b.body + f.payload, at) else Open(b.body + f.payload)
    else b
  }

  lemma {:induction false} BlockFromGrows(evs: seq<Event>, sid: nat, q: nat, body: Bytes, e: Event)
    requires q <= |evs|
    ensures BlockFrom(evs + [e], sid, q, body) == Extend(BlockFrom(evs, sid, q, body), sid, e.frame, |evs|)
    decreases |evs| - q
  {
    if q < |evs| {
      var f := evs[q].frame;
      BlockFromGrows(evs, sid, q + 1, if f.hdr.sid == sid && f.hdr.kind.Continuation? then body + f.payload else body, e);
    } else {
      assert (evs + [e])[q] == e;
      assert BlockFrom(evs + [e], sid, q + 1, body) == Open(body);
      assert BlockFrom(evs + [e], sid, q + 1, body + e.frame.payload) == Open(body + e.frame.payload);
    }
  }

  lemma BlockGrows(evs: seq<Event>, p: nat, e: Event)
    requires p < |evs| && IsHead(evs[p].frame)
    ensures BlockOf(evs + [e], p) == Extend(BlockOf(evs, p), evs[p].frame.hdr.sid, e.frame, |evs|)
  {
    BlockFromGrows(evs, evs[p].frame.hdr.sid, p + 1, evs[p].frame.payload, e);
  }

  lemma StoredGrows(evs: seq<Event>, p: nat, e: Event, hpack: Hpack)
    requires p < |evs| && IsKept(evs[p].frame)
    ensures IsHead(evs[p].frame) && BlockOf(evs, p).Open? && e.frame.hdr.sid == evs[p].frame.hdr.sid && e.frame.hdr.kind.Continuation? ==>
              var hdr, body := evs[p].frame.hdr, BlockOf(evs, p).body + e.frame.payload;
              Stored(evs + [e], p, hpack) ==
                if e.frame.endHeaders then OutFrame(hdr, [], hpack(Completed(evs), body)) else OutFrame(hdr, body, None)
    ensures !(IsHead(evs[p].frame) && BlockOf(evs, p).Open? && e.frame.hdr.sid == evs[p].frame.hdr.sid && e.frame.hdr.kind.Continuation?) ==>
              Stored(evs + [e], p, hpack) == Stored(evs, p, hpack)
  {
    if IsHead(evs[p].frame) {
      BlockGrows(evs, p, e);
      assert (evs + [e])[..|evs|] == evs;
      if BlockOf(evs, p).Complete? {
        assert (evs + [e])[..BlockOf(evs, p).at] == evs[..BlockOf(evs, p).at];
      }
    }
  }
}
