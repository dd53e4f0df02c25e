/** Reading a pair of opposite streams as one CSI call. */
module CsiCalls {
  import opened Wrappers
  import opened Frames
  import opened GrpcWire
  import opened Captures

  const POST := Field(":method", "POST")
  const HTTP := Field(":scheme", "http")
  const STATUS_OK := Field(":status", "200")
  const GRPC := Field("content-type", "application/grpc")

  predicate HasField(fields: Option<seq<Field>>, f: Field) {
    fields.Some? && f in fields.value
  }

  predicate IsRequest(s: seq<OutFrame>) {
    && |s| >= 2 && s[0].hdr.kind.Headers? && (forall i :: 1 <= i < |s| ==> s[i].hdr.kind.Data?)
    && HasField(s[0].fields, POST) && HasField(s[0].fields, HTTP)
    && HasField(s[0].fields, GRPC)
  }

  predicate IsResponse(s: seq<OutFrame>) {
    && |s| >= 3 && s[0].hdr.kind.Headers? && (forall i :: 1 <= i < |s| - 1 ==> s[i].hdr.kind.Data?)
    && s[|s| - 1].hdr.kind.Headers?
    && HasField(s[0].fields, STATUS_OK) && HasField(s[0].fields, GRPC)
  }

  /** Which of some fields a list has, in one pass. */
  method LookFor(hdrs: Option<seq<Field>>, a: Field, b: Field, c: Field) returns (hasA: bool, hasB: bool, hasC: bool)
    requires a != b && b != c && a != c
    ensures hasA == HasField(hdrs, a) && hasB == HasField(hdrs, b) && hasC == HasField(hdrs, c)
  {
    hasA, hasB, hasC := false, false, false;
    if hdrs.Some? {
      var i := 0;
      while i < |hdrs.value|
        invariant 0 <= i <= |hdrs.value|
        invariant hasA <==> a in hdrs.value[..i]
        invariant hasB <==> b in hdrs.value[..i]
        invariant hasC <==> c in hdrs.value[..i]
      {
        assert hdrs.value[..i + 1] == hdrs.value[..i] + [hdrs.value[i]];
        if hdrs.value[i] == a {
          hasA := true;
        } else if hdrs.value[i] == b {
          hasB := true;
        } else if hdrs.value[i] == c {
          hasC := true;
        }
        i := i + 1;
      }
      assert hdrs.value[..i] == hdrs.value;
    }
  }

  /** Whether the frames from 1 up to n are all data. */
  method DataUpTo(s: seq<OutFrame>, n: nat) returns (r: bool)
    requires 1 <= n <= |s|
    ensures r <==> forall i :: 1 <= i < n ==> s[i].hdr.kind.Data?
  {
    for i := 1 to n
      invariant forall j :: 1 <= j < i ==> s[j].hdr.kind.Data?
    {
      if !s[i].hdr.kind.Data? {
        return false;
      }
    }
    return true;
  }

  method IsGRPCRequest(s: seq<OutFrame>) returns (r: bool)
    ensures r <==> IsRequest(s)
  {
    if |s| < 2 || !s[0].hdr.kind.Headers? {
      return false;
    }
    var data := DataUpTo(s, |s|);
    if !data {
      return false;
    }
    var post, http, grpc := LookFor(s[0].fields, POST, HTTP, GRPC);
    return post && http && grpc;
  }

  method IsGRPCResponse(s: seq<OutFrame>) returns (r: bool)
    ensures r <==> IsResponse(s)
  {
    if |s| < 3 || !s[0].hdr.kind.Headers? {
      return false;
    }
    var data := DataUpTo(s, |s| - 1);
    if !data || !s[|s| - 1].hdr.kind.Headers? {
      return false;
    }
    var ok, grpc, _ := LookFor(s[0].fields, STATUS_OK, GRPC, POST);
    return ok && grpc;
  }

  /** A request ends in data and a response in headers. */
  lemma NeverBoth(s: seq<OutFrame>)
    ensures !(IsRequest(s) && IsResponse(s))
  {
    if IsRequest(s) {
      assert s[|s| - 1].hdr.kind.Data?;
    }
  }

  /** The value of the first field of that name, or nothing. */
  function FindField(fields: seq<Field>, name: string): string {
    if fields == [] then "" else if fields[0].name == name then fields[0].value else FindField(fields[1..], name)
  }

  datatype Call = Call(
    client: End, clientName: string, path: string, request: Bytes, response: Bytes, requestTime: int, responseTime: int)

  /** The parts of reading a message that are not modelled: whether a method has request
      and response types, and whether a message decodes as one of them. */
  datatype Types = Types(known: (string, string) -> bool, requestOk: (string, string, Bytes) -> bool,
                         responseOk: (string, string, Bytes) -> bool)

  /** Reading a pair: nothing, a call, or a malformed message that ends the program. */
  datatype Reading = Nothing | Read(call: Call) | Broken

  function ReadCall(request: Stream, response: Stream, client: End, types: Types): Reading
    requires |request.frames| >= 2 && |response.frames| >= 2
  {
    var fields := if request.frames[0].fields.Some? then request.frames[0].fields.value else [];
    var path, name := FindField(fields, ":path"), FindField(fields, ":authority");
    var method_ := SplitPath(path);
    var req, rep := ParseMessage(request.frames[1].body), ParseMessage(response.frames[1].body);
    if method_.Fatal? || req.Fatal? || rep.Fatal? then Broken
    else
      var (service, rpc) := method_.value;
      if !types.known(service, rpc) then Nothing
      else if !types.requestOk(service, rpc, req.value) || !types.responseOk(service, rpc, rep.value) then Broken
      else Read(Call(client, name, path, req.value, rep.value, request.time, response.time))
  }

  /** Which of the two streams is the request decides who the client is. */
  function ReadPair(a: End, b: End, ab: Stream, ba: Stream, types: Types): Reading {
    if IsRequest(ab.frames) && IsResponse(ba.frames) then ReadCall(ab, ba, a, types)
    else if IsRequest(ba.frames) && IsResponse(ab.frames) then ReadCall(ba, ab, b, types)
    else Nothing
  }

  /** The roles of the two ends do not matter. */
  lemma ReadPairSwaps(a: End, b: End, ab: Stream, ba: Stream, types: Types)
    ensures ReadPair(a, b, ab, ba, types) == ReadPair(b, a, ba, ab, types)
  {
    NeverBoth(ab.frames);
    NeverBoth(ba.frames);
  }

  /** ReadPair as a reader of stream pairs. */
  function CallReader(types: Types): (End, End, Stream, Stream) -> Reading {
    (a, b, ab, ba) => ReadPair(a, b, ab, ba, types)
  }

  // ----- what is read -----

  predicate Says(fields: Option<seq<Field>>, name: string, value: string) {
    fields.Some? && exists f :: f in fields.value && f.name == name && f.value == value
  }

  predicate SaysRequest(s: seq<OutFrame>) {
    && |s| >= 2 && s[0].hdr.kind == Headers && (forall i :: 1 <= i < |s| ==> s[i].hdr.kind == Data)
    && Says(s[0].fields, ":method", "POST") && Says(s[0].fields, ":scheme", "http")
    && Says(s[0].fields, "content-type", "application/grpc")
  }

  predicate SaysResponse(s: seq<OutFrame>) {
    && |s| >= 3 && s[0].hdr.kind == Headers && s[|s| - 1].hdr.kind == Headers
    && (forall i :: 1 <= i < |s| - 1 ==> s[i].hdr.kind == Data)
    && Says(s[0].fields, ":status", "200") && Says(s[0].fields, "content-type", "application/grpc")
  }

  lemma SaysField(fields: Option<seq<Field>>, f: Field)
    ensures HasField(fields, f) <==> Says(fields, f.name, f.value)
  {
  }

  lemma SaysIff(s: seq<OutFrame>)
    ensures IsRequest(s) <==> SaysRequest(s)
    ensures IsResponse(s) <==> SaysResponse(s)
  {
    if s != [] {
      SaysField(s[0].fields, Field(":method", "POST"));
      SaysField(s[0].fields, Field(":scheme", "http"));
      SaysField(s[0].fields, Field(":status", "200"));
      SaysField(s[0].fields, Field("content-type", "application/grpc"));
    }
  }

  /** The value of the first field of that name; empty if there is none. */
  predicate FirstSays(fields: seq<Field>, name: string, value: string) {
    || (value == "" && forall i :: 0 <= i < |fields| ==> fields[i].name != name)
    || exists i :: 0 <= i < |fields| && fields[i] == Field(name, value) && forall j :: 0 <= j < i ==> fields[j].name != name
  }

  lemma {:induction false} FindsFirst(fields: seq<Field>, name: string, value: string)
    ensures FindField(fields, name) == value <==> FirstSays(fields, name, value)
  {
    if fields != [] && fields[0].name != name {
      FindsFirst(fields[1..], name, value);
      if FirstSays(fields, name, value) {
        assert FirstSays(fields[1..], name, value);
      }
      if i :| 0 <= i < |fields[1..]| && fields[1..][i] == Field(name, value) && forall j :: 0 <= j < i ==> fields[1..][j].name != name {
        assert fields[i + 1] == Field(name, value) && forall j :: 0 <= j < i + 1 ==> fields[j].name != name;
      }
    }
  }

  /** The method is named after the eighth character of the path. */
  predicate Calls(path: string, service: string, rpc: string) {
    |path| >= 8 && path[8..] == service + "/" + rpc && '/' !in rpc
  }

  function ListOf(fields: Option<seq<Field>>): seq<Field> {
    if fields.Some? then fields.value else []
  }

  /** The call that a request and its response make up. */
  ghost predicate IsCall(c: Call, client: End, request: Stream, response: Stream) {
    && |request.frames| >= 2 && |response.frames| >= 2
    && FirstSays(ListOf(request.frames[0].fields), ":path", c.path)
    && FirstSays(ListOf(request.frames[0].fields), ":authority", c.clientName)
    && c.client == client && c.requestTime == request.time && c.responseTime == response.time
    && GrpcWire.Carries(request.frames[1].body, c.request) && GrpcWire.Carries(response.frames[1].body, c.response)
  }

  ghost predicate Accepted(c: Call, types: Types) {
    exists service, rpc :: Calls(c.path, service, rpc) &&
      types.known(service, rpc) && types.requestOk(service, rpc, c.request) && types.responseOk(service, rpc, c.response)
  }

  ghost predicate Unknown(c: Call, types: Types) {
    exists service, rpc :: Calls(c.path, service, rpc) && !types.known(service, rpc)
  }

  lemma SplitsOnce(path: string, service: string, rpc: string)
    requires Calls(path, service, rpc)
    ensures forall s, r :: Calls(path, s, r) ==> s == service && r == rpc
  {
    SplitsIff(path, service, rpc);
    forall s, r | Calls(path, s, r)
      ensures s == service && r == rpc
    {
      SplitsIff(path, s, r);
    }
  }

  /** The call there would be if everything about it can be read. */
  function CallIn(request: Stream, response: Stream, client: End): Option<Call>
    requires |request.frames| >= 2 && |response.frames| >= 2
  {
    var fields := if request.frames[0].fields.Some? then request.frames[0].fields.value else [];
    var req, rep := ParseMessage(request.frames[1].body), ParseMessage(response.frames[1].body);
    if req.Fatal? || rep.Fatal? then None
    else Some(Call(client, FindField(fields, ":authority"), FindField(fields, ":path"), req.value, rep.value, request.time, response.time))
  }

  lemma CallInIff(request: Stream, response: Stream, client: End, c: Call)
    requires |request.frames| >= 2 && |response.frames| >= 2
    ensures CallIn(request, response, client) == Some(c) <==> IsCall(c, client, request, response)
  {
    var fields := if request.frames[0].fields.Some? then request.frames[0].fields.value else [];
    FindsFirst(fields, ":path", c.path);
    FindsFirst(fields, ":authority", c.clientName);
    ParsesIff(request.frames[1].body, c.request);
    ParsesIff(response.frames[1].body, c.response);
  }

  lemma ReadCallIff(request: Stream, response: Stream, client: End, types: Types, c: Call)
    requires |request.frames| >= 2 && |response.frames| >= 2
    ensures ReadCall(request, response, client, types) == Read(c) <==> IsCall(c, client, request, response) && Accepted(c, types)
    ensures IsCall(c, client, request, response) ==> (ReadCall(request, response, client, types) == Nothing <==> Unknown(c, types))
  {
    CallInIff(request, response, client, c);
    if CallIn(request, response, client) == Some(c) {
      var m := SplitPath(c.path);
      if m.Ok? {
        SplitsIff(c.path, m.value.0, m.value.1);
        SplitsOnce(c.path, m.value.0, m.value.1);
      } else {
        forall s, r
          ensures !Calls(c.path, s, r)
        {
          SplitsIff(c.path, s, r);
        }
      }
    }
  }

  /** A pair of opposite streams is read as a call exactly if one of them says it is a
      request and the other a response; the client is at the source of the request, and
      each message and time comes from its own stream. */
  lemma ReadIff(a: End, b: End, ab: Stream, ba: Stream, types: Types, c: Call)
    ensures ReadPair(a, b, ab, ba, types) == Read(c) <==>
              || (SaysRequest(ab.frames) && SaysResponse(ba.frames) && IsCall(c, a, ab, ba) && Accepted(c, types))
              || (SaysRequest(ba.frames) && SaysResponse(ab.frames) && IsCall(c, b, ba, ab) && Accepted(c, types))
  {
    SaysIff(ab.frames);
    SaysIff(ba.frames);
    NeverBoth(ab.frames);
    NeverBoth(ba.frames);
    if SaysRequest(ab.frames) && SaysResponse(ba.frames) {
      ReadCallIff(ab, ba, a, types, c);
    } else if SaysRequest(ba.frames) && SaysResponse(ab.frames) {
      ReadCallIff(ba, ab, b, types, c);
    }
  }

  /** It is passed over exactly if they are not a request and a response, or call a method
      that is not known. */
  lemma PassedOverIff(a: End, b: End, ab: Stream, ba: Stream, types: Types)
    ensures ReadPair(a, b, ab, ba, types) == Nothing <==>
              if SaysRequest(ab.frames) && SaysResponse(ba.frames) then exists c :: IsCall(c, a, ab, ba) && Unknown(c, types)
              else if SaysRequest(ba.frames) && SaysResponse(ab.frames) then exists c :: IsCall(c, b, ba, ab) && Unknown(c, types)
              else true
  {
    SaysIff(ab.frames);
    SaysIff(ba.frames);
    if SaysRequest(ab.frames) && SaysResponse(ba.frames) {
      UnknownIff(ab, ba, a, types);
    } else if SaysRequest(ba.frames) && SaysResponse(ab.frames) {
      UnknownIff(ba, ab, b, types);
    }
  }

  lemma UnknownIff(request: Stream, response: Stream, client: End, types: Types)
    requires |request.frames| >= 2 && |response.frames| >= 2
    ensures ReadCall(request, response, client, types) == Nothing <==> exists c :: IsCall(c, client, request, response) && Unknown(c, types)
  {
    var c := CallIn(request, response, client);
    if c.Some? {
      CallInIff(request, response, client, c.value);
      ReadCallIff(request, response, client, types, c.value);
    }
    forall d | IsCall(d, client, request, response)
      ensures c == Some(d)
    {
      CallInIff(request, response, client, d);
    }
  }
}
