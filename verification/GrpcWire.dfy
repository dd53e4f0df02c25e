/** The wire forms inside a stream: length-prefixed gRPC messages and CSI method paths. */
module GrpcWire {
  import opened Wrappers
  import opened Frames

  /** The outcome of a step that ends the program when its input is malformed. */
  datatype Result<+T> = Ok(value: T) | Fatal

  const TWO_32 := 0x1_0000_0000

  type uint32 = x: int | 0 <= x < 0x1_0000_0000

  /** One more byte at the low end, in 32-bit arithmetic. */
  function Shift(n: uint32, b: uint8): uint32 {
    n * 0x100 % 0x1_0000_0000 + b
  }

  /** The sum is the bitwise or, because a shift leaves the low byte empty. */
  lemma ShiftIsShiftOr(n: bv32, b: bv32)
    requires b <= 0xFF
    ensures (n << 8) | b == (n << 8) + b
  {
  }

  function BigEndian32(b: Bytes): uint32
    requires |b| >= 4
  {
    Shift(Shift(Shift(b[0], b[1]), b[2]), b[3])
  }

  /** A length cut to 32 bits. */
  function Length32(n: nat): uint32 {
    n % TWO_32
  }

  /** A compression flag, a 32-bit big-endian length, and the message. */
  function ParseMessage(frame: Bytes): Result<Bytes> {
    if |frame| < 5 then Fatal
    else if frame[0] != 0 then Fatal
    else if BigEndian32(frame[1..]) != Length32(|frame| - 5) then Fatal
    else Ok(frame[5..])
  }

  function Prefix(n: uint32): Bytes {
    [0, n / 0x100 / 0x100 / 0x100, n / 0x100 / 0x100 % 0x100, n / 0x100 % 0x100, n % 0x100]
  }

  function PrintMessage(payload: Bytes): Bytes {
    Prefix(Length32(|payload|)) + payload
  }

  lemma BytesJoin(n: uint32)
    ensures Shift(Shift(Shift(n / 0x100 / 0x100 / 0x100, n / 0x100 / 0x100 % 0x100), n / 0x100 % 0x100), n % 0x100) == n
  {
    ShiftJoins(n / 0x100 / 0x100);
    ShiftJoins(n / 0x100);
    ShiftJoins(n);
  }

  lemma ShiftJoins(n: uint32)
    ensures Shift(n / 0x100, n % 0x100) == n
  {
  }

  lemma ShiftSplits(n: uint32, b: uint8)
    requires n < 0x100_0000
    ensures Shift(n, b) / 0x100 == n && Shift(n, b) % 0x100 == b
  {
  }

  lemma BytesSplit(a: uint8, b: uint8, c: uint8, d: uint8)
    ensures Prefix(Shift(Shift(Shift(a, b), c), d)) == [0, a, b, c, d]
  {
    ShiftSplits(a, b);
    ShiftSplits(Shift(a, b), c);
    ShiftSplits(Shift(Shift(a, b), c), d);
  }

  /** Parsing inverts printing, for every payload; below 2^32 bytes the printed length
      is the exact one. */
  lemma ParsePrintedMessage(payload: Bytes)
    ensures ParseMessage(PrintMessage(payload)) == Ok(payload)
    ensures |payload| < TWO_32 ==> BigEndian32(PrintMessage(payload)[1..]) == |payload|
  {
    BytesJoin(Length32(|payload|));
    assert PrintMessage(payload)[5..] == payload;
  }

  /** Printing inverts parsing: an accepted frame is the printed form of its message. */
  lemma PrintParsedMessage(frame: Bytes)
    requires ParseMessage(frame).Ok?
    ensures PrintMessage(ParseMessage(frame).value) == frame
  {
    BytesSplit(frame[1], frame[2], frame[3], frame[4]);
    assert frame == [frame[0], frame[1], frame[2], frame[3], frame[4]] + frame[5..];
  }

  /** The frame carries the payload: uncompressed, after four bytes that say its length,
      the highest byte first. */
  predicate Carries(frame: Bytes, payload: Bytes) {
    && |frame| >= 5 && frame[0] == 0 && frame[5..] == payload
    && frame[1] as int * 0x100_0000 + frame[2] as int * 0x1_0000 + frame[3] as int * 0x100 + frame[4] == |payload| % 0x1_0000_0000
  }

  lemma ShiftSmall(n: uint32, b: uint8)
    requires n < 0x100_0000
    ensures Shift(n, b) == n * 0x100 + b as int
  {
  }

  lemma BytesWeigh(a: uint8, b: uint8, c: uint8, d: uint8)
    ensures Shift(Shift(Shift(a, b), c), d) == a as int * 0x100_0000 + b as int * 0x1_0000 + c as int * 0x100 + d
  {
    ShiftSmall(a, b);
    ShiftSmall(Shift(a, b), c);
    ShiftSmall(Shift(Shift(a, b), c), d);
  }

  lemma ParsesIff(frame: Bytes, payload: Bytes)
    ensures ParseMessage(frame) == Ok(payload) <==> Carries(frame, payload)
  {
    if |frame| >= 5 {
      BytesWeigh(frame[1], frame[2], frame[3], frame[4]);
    }
  }

  // ----- paths -----

  const PATH_PREFIX := "/csi.v1."

  function LastSlash(s: string): (i: int)
    ensures -1 <= i < |s|
    ensures i >= 0 ==> s[i] == '/'
    ensures forall j :: i < j < |s| ==> s[j] != '/'
  {
    if s == [] then -1
    else if s[|s| - 1] == '/' then |s| - 1
    else LastSlash(s[..|s| - 1])
  }

  /** Service and method: the path without as many characters as the prefix has, cut at
      its last slash.  A path that is too short or has no slash is out of range. */
  function SplitPath(path: string): Result<(string, string)> {
    if |path| < |PATH_PREFIX| then Fatal
    else
      var rest := path[|PATH_PREFIX|..];
      var split := LastSlash(rest);
      if split < 0 then Fatal else Ok((rest[..split], rest[split + 1..]))
  }

  method ParseRPCPath(path: string) returns (r: Result<(string, string)>)
    ensures r == SplitPath(path)
  {
    if |path| < |PATH_PREFIX| {
      return Fatal;
    }
    var rest := path[|PATH_PREFIX|..];
    var split := -1;
    var i := 0;
    while i < |rest|
      invariant 0 <= i <= |rest| && -1 <= split < i
      invariant split >= 0 ==> rest[split] == '/'
      invariant forall j :: split < j < i ==> rest[j] != '/'
    {
      if rest[i] == '/' {
        split := i;
      }
      i := i + 1;
    }
    if split < 0 {
      return Fatal;
    }
    return Ok((rest[..split], rest[split + 1..]));
  }

  /** Splitting inverts joining for every slash-free method, even if the service has
      slashes in it. */
  lemma SplitJoinedPath(service: string, rpc: string)
    requires '/' !in rpc
    ensures SplitPath("/csi.v1." + service + "/" + rpc) == Ok((service, rpc))
  {
    var path := "/csi.v1." + service + "/" + rpc;
    var rest := service + "/" + rpc;
    assert path == "/csi.v1." + rest && path[8..] == rest;
    assert rest[|service|] == '/';
    assert forall j :: |service| < j < |rest| ==> rest[j] == rpc[j - |service| - 1];
    assert LastSlash(rest) == |service|;
    assert rest[..|service|] == service && rest[|service| + 1..] == rpc;
  }

  /** The first eight characters are passed over, whatever they are; the method is what
      follows the last slash. */
  lemma SplitsIff(path: string, service: string, rpc: string)
    ensures SplitPath(path) == Ok((service, rpc)) <==> |path| >= 8 && path[8..] == service + "/" + rpc && '/' !in rpc
  {
    if |path| >= 8 {
      var rest := path[8..];
      if rest == service + "/" + rpc && '/' !in rpc {
        assert "/csi.v1."[8..] == "" && ("/csi.v1." + service + "/" + rpc)[8..] == rest;
        SplitJoinedPath(service, rpc);
      }
      var i := LastSlash(rest);
      if i >= 0 {
        assert rest == rest[..i] + "/" + rest[i + 1..];
      }
    }
  }
}
