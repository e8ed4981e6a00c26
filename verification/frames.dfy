/** Length-prefixed frames: frame and parse_frames of benchmarks/desktop/phase56/probe_environment.py,
    read_exact and read_frame of measure_core_ipc.py. */
module Frames {
  import opened Wrappers

  type Byte = b: int | 0 <= b < 256

  type Bytes = seq<Byte>

  /** MAX_RESPONSE and MAX_FRAME */
  const MAX_BODY: int := 0x80_0000   // 8 MiB

  /** struct.pack(">I", n) */
  function Pack(n: nat): (p: Bytes)
    requires n < 0x1_0000_0000
    ensures |p| == 4
  {
    [n / 0x100_0000, n / 0x1_0000 % 0x100, n / 0x100 % 0x100, n % 0x100]
  }

  /** struct.unpack(">I", p) */
  function Unpack(p: Bytes): (n: nat)
    requires |p| == 4
    ensures n < 0x1_0000_0000
  {
    var (a: int, b: int, c: int, d: int) := (p[0] as int, p[1] as int, p[2] as int, p[3] as int);
    a * 0x100_0000 + b * 0x1_0000 + c * 0x100 + d
  }

  lemma UnpackPack(n: nat)
    requires n < 0x1_0000_0000
    ensures Unpack(Pack(n)) == n
  {
    var a: int, b: int, c: int := n / 0x100, n / 0x1_0000, n / 0x100_0000;
    assert n == a * 0x100 + n % 0x100;
    assert a == b * 0x100 + a % 0x100;
    assert b == c * 0x100 + b % 0x100;
  }

  lemma PackUnpack(p: Bytes)
    requires |p| == 4
    ensures Pack(Unpack(p)) == p
  {
    var n := Unpack(p);
    var p0: int, p1: int, p2: int, p3: int := p[0], p[1], p[2], p[3];
    var b: int := p0 * 0x100 + p1;
    var a: int := b * 0x100 + p2;
    assert n == a * 0x100 + p3;
    assert n / 0x100 == a && a / 0x100 == b && b / 0x100 == p0;
    assert n / 0x1_0000 == b && n / 0x100_0000 == p0;
  }

  predicate Framable(body: Bytes) { 1 <= |body| <= MAX_BODY }

  function Frame(body: Bytes): Bytes
    requires |body| < 0x1_0000_0000
  {
    Pack(|body|) + body
  }

  /** Bodies that can be framed and that the JSON decoder accepts. */
  ghost predicate Sendable(bodies: seq<Bytes>, readable: Bytes -> bool) {
    forall k :: 0 <= k < |bodies| ==> Framable(bodies[k]) && readable(bodies[k])
  }

  /** The byte stream that carries the bodies. */
  ghost function Wire(bodies: seq<Bytes>): Bytes
    requires forall k :: 0 <= k < |bodies| ==> Framable(bodies[k])
  {
    if bodies == [] then [] else
      assert Framable(bodies[0]);
      Frame(bodies[0]) + Wire(bodies[1..])
  }

  /** The first frame of some data, if it is well formed. */
  function First(data: Bytes, readable: Bytes -> bool): (r: Result<Bytes>)
    ensures r.Ok? ==> 4 + |r.value| <= |data| && Framable(r.value)
  {
    if |data| < 4 then Err("truncated response frame prefix")
    else
      var length := Unpack(data[..4]);
      if length == 0 || length > MAX_BODY then Err("invalid response frame length")
      else if 4 + length > |data| then Err("truncated response payload")
      else if !readable(data[4..4 + length]) then Err("invalid response body")
      else Ok(data[4..4 + length])
  }

  // ----- what the bytes say -----

  /** Four bytes, the most significant first, hold n. */
  predicate BigEndian(p: Bytes, n: nat)
    requires |p| == 4
  {
    p[0] as int * 16_777_216 + p[1] as int * 65_536 + p[2] as int * 256 + p[3] as int == n
  }

  /** data begins with one length prefix and that many bytes, the readable body of 1 to 8,388,608 bytes. */
  ghost predicate BeginsWith(data: Bytes, body: Bytes, readable: Bytes -> bool) {
    && 1 <= |body| <= 8_388_608 && |data| >= 4 + |body|
    && BigEndian(data[..4], |body|) && data[4..4 + |body|] == body && readable(body)
  }

  /** data is one such frame after the other. */
  ghost predicate Carries(data: Bytes, bodies: seq<Bytes>, readable: Bytes -> bool) {
    if bodies == [] then data == []
    else BeginsWith(data, bodies[0], readable) && Carries(data[4 + |bodies[0]|..], bodies[1..], readable)
  }

  lemma FirstMeans(data: Bytes, readable: Bytes -> bool)
    ensures forall body :: BeginsWith(data, body, readable) <==> First(data, readable) == Ok(body)
  {
  }

  /** What Parse accepts, byte by byte. */
  lemma {:induction false} ParseMeans(data: Bytes, bodies: seq<Bytes>, readable: Bytes -> bool)
    ensures Carries(data, bodies, readable) <==> Parse(data, readable) == Ok(bodies)
    decreases |bodies|
  {
    FirstMeans(data, readable);
    if bodies != [] && data != [] && First(data, readable).Ok? {
      var body := First(data, readable).value;
      ParseMeans(data[4 + |body|..], bodies[1..], readable);
      ParseStep(data, readable);
      assert bodies[0] == body ==> bodies == [body] + bodies[1..];
      assert forall rest: seq<Bytes> :: ([body] + rest)[1..] == rest;
    }
  }

  function Parse(data: Bytes, readable: Bytes -> bool): Result<seq<Bytes>>
    decreases |data|
  {
    if data == [] then Ok([]) else
      match First(data, readable)
      case Err(e) => Err(e)
      case Ok(body) =>
        match Parse(data[4 + |body|..], readable)
        case Err(e) => Err(e)
        case Ok(rest) => Ok([body] + rest)
  }

  lemma FirstIsFrame(data: Bytes, readable: Bytes -> bool)
    requires First(data, readable).Ok?
    ensures var body := First(data, readable).value;
            readable(body) && data == Frame(body) + data[4 + |body|..]
  {
    var body := First(data, readable).value;
    PackUnpack(data[..4]);
    assert data == data[..4] + data[4..4 + |body|] + data[4 + |body|..];
  }

  lemma FrameIsFirst(body: Bytes, rest: Bytes, readable: Bytes -> bool)
    requires Framable(body) && readable(body)
    ensures First(Frame(body) + rest, readable) == Ok(body)
    ensures (Frame(body) + rest)[4 + |body|..] == rest
  {
    var data := Frame(body) + rest;
    UnpackPack(|body|);
    assert data[..4] == Pack(|body|) && data[4..4 + |body|] == body;
  }

  lemma ParseStep(data: Bytes, readable: Bytes -> bool)
    requires First(data, readable).Ok?
    ensures var body := First(data, readable).value;
            Parse(data, readable) == Prepend([body], Parse(data[4 + |body|..], readable))
  {
  }

  /** Parsing what was framed gives it back. */
  lemma {:induction false} ParseWire(bodies: seq<Bytes>, readable: Bytes -> bool)
    requires Sendable(bodies, readable)
    ensures Parse(Wire(bodies), readable) == Ok(bodies)
  {
    if bodies != [] {
      var rest := bodies[1..];
      FrameIsFirst(bodies[0], Wire(rest), readable);
      ParseWire(rest, readable);
      ParseStep(Frame(bodies[0]) + Wire(rest), readable);
      assert [bodies[0]] + rest == bodies;
    }
  }

  /** Every accepted byte string is the framing of exactly the bodies found. */
  lemma {:induction false} ParseIsWire(data: Bytes, readable: Bytes -> bool)
    requires Parse(data, readable).Ok?
    ensures Sendable(Parse(data, readable).value, readable) && data == Wire(Parse(data, readable).value)
    decreases |data|
  {
    if data != [] {
      FirstIsFrame(data, readable);
      var body := First(data, readable).value;
      ParseIsWire(data[4 + |body|..], readable);
      var bodies := Parse(data, readable).value;
      assert bodies[1..] == Parse(data[4 + |body|..], readable).value;
    }
  }

  /** Two framings of sendable bodies are the same bytes only for the same bodies. */
  lemma WireInjective(a: seq<Bytes>, b: seq<Bytes>, readable: Bytes -> bool)
    requires Sendable(a, readable) && Sendable(b, readable) && Wire(a) == Wire(b)
    ensures a == b
  {
    ParseWire(a, readable);
    ParseWire(b, readable);
  }

  function Prepend(frames: seq<Bytes>, r: Result<seq<Bytes>>): Result<seq<Bytes>> {
    match r
    case Err(e) => Err(e)
    case Ok(more) => Ok(frames + more)
  }

  lemma PrependTwice(frames: seq<Bytes>, body: Bytes, r: Result<seq<Bytes>>)
    ensures Prepend(frames, Prepend([body], r)) == Prepend(frames + [body], r)
  {
    if r.Ok? { assert frames + ([body] + r.value) == frames + [body] + r.value; }
  }

  /** parse_frames: accepts exactly the wire forms of sendable bodies. */
  method ParseFrames(data: Bytes, readable: Bytes -> bool) returns (r: Result<seq<Bytes>>)
    ensures r == Parse(data, readable)
    ensures r.Ok? <==> exists bodies :: Sendable(bodies, readable) && Wire(bodies) == data
    ensures forall bodies :: Carries(data, bodies, readable) <==> r == Ok(bodies)
  {
    r := ParseLoop(data, readable);
    forall bodies ensures Carries(data, bodies, readable) <==> r == Ok(bodies) { ParseMeans(data, bodies, readable); }
    if r.Ok? { ParseIsWire(data, readable); }
    forall bodies | Sendable(bodies, readable) && Wire(bodies) == data ensures r == Ok(bodies) {
      ParseWire(bodies, readable);
    }
  }

  /** One round of the loop: prefix, length bound, payload, decoding. */
  method TakeFrame(data: Bytes, start: nat, readable: Bytes -> bool) returns (r: Result<Bytes>)
    requires start <= |data|
    ensures r == First(data[start..], readable)
  {
    ghost var rest := data[start..];
    var offset := start;
    if |data| - offset < 4 { return Err("truncated response frame prefix"); }
    var length := Unpack(data[offset..offset + 4]);
    assert rest[..4] == data[offset..offset + 4];
    offset := offset + 4;
    if length <= 0 || length > MAX_BODY { return Err("invalid response frame length"); }
    var end := offset + length;
    if end > |data| { return Err("truncated response payload"); }
    assert rest[4..4 + length] == data[offset..end];
    if !readable(data[offset..end]) { return Err("invalid response body"); }
    r := Ok(data[offset..end]);
  }

  method ParseLoop(data: Bytes, readable: Bytes -> bool) returns (r: Result<seq<Bytes>>)
    ensures r == Parse(data, readable)
  {
    var frames: seq<Bytes> := [];
    var offset := 0;
    assert data[0..] == data;
    assert Parse(data, readable).Ok? ==> [] + Parse(data, readable).value == Parse(data, readable).value;
    while offset < |data|
      invariant offset <= |data|
      invariant Parse(data, readable) == Prepend(frames, Parse(data[offset..], readable))
    {
      var body := TakeFrame(data, offset, readable);
      if body.Err? { return Err(body.error); }
      var end := offset + 4 + |body.value|;
      ParseStep(data[offset..], readable);
      assert data[offset..][4 + |body.value|..] == data[end..];
      PrependTwice(frames, body.value, Parse(data[end..], readable));
      frames := frames + [body.value];
      offset := end;
    }
    assert data[offset..] == [] && frames + [] == frames;
    r := Ok(frames);
  }

  // ----- reading from a stream in chunks -----

  /** A byte stream; grant says how much the n-th byte position is willing to hand out at once. */
  class Stream {
    const data: Bytes
    const grant: nat -> nat
    var pos: nat

    constructor (data: Bytes, grant: nat -> nat)
      ensures this.data == data && this.grant == grant && pos == 0
    {
      this.data, this.grant, pos := data, grant, 0;
    }

    ghost predicate Valid()
      reads this
    {
      pos <= |data|
    }

    /** stream.read(n): at most n bytes, at least one unless the stream has ended. */
    method Read(n: nat) returns (chunk: Bytes)
      requires Valid() && n > 0
      modifies this
      ensures Valid() && |chunk| <= n && pos == old(pos) + |chunk| && chunk == data[old(pos)..pos]
      ensures chunk == [] <==> old(pos) == |data|
    {
      var left := |data| - pos;
      var size := grant(pos);
      if size < 1 { size := 1; }
      if size > n { size := n; }
      if size > left { size := left; }
      chunk := data[pos..pos + size];
      pos := pos + size;
    }

    /** read_exact: the next length bytes, whatever the chunking. */
    method ReadExact(length: nat) returns (r: Result<Bytes>)
      requires Valid()
      modifies this
      ensures Valid()
      ensures r.Ok? <==> old(pos) + length <= |data|
      ensures r.Ok? ==> pos == old(pos) + length && r.value == data[old(pos)..old(pos) + length]
    {
      var chunks: Bytes := [];
      var remaining := length;
      ghost var start := pos;
      while remaining > 0
        invariant Valid() && pos == start + (length - remaining) && 0 <= remaining <= length
        invariant chunks == data[start..pos]
      {
        var chunk := Read(remaining);
        if chunk == [] { return Err("truncated response"); }
        chunks := chunks + chunk;
        remaining := remaining - |chunk|;
      }
      r := Ok(chunks);
    }

    /** read_frame: exactly the first frame of what is left, and the stream moves past it. */
    method ReadFrame(readable: Bytes -> bool) returns (r: Result<Bytes>)
      requires Valid()
      modifies this
      ensures Valid()
      ensures forall body :: BeginsWith(data[old(pos)..], body, readable) <==> r == Ok(body)
      ensures r.Ok? ==> pos == old(pos) + 4 + |r.value|
    {
      ghost var rest := data[pos..];
      FirstMeans(rest, readable);
      var prefix := ReadExact(4);
      if prefix.Err? { return prefix; }
      assert prefix.value == rest[..4];
      var length := Unpack(prefix.value);
      if length == 0 || length > MAX_BODY { return Err("invalid response frame length"); }
      r := ReadExact(length);
      if r.Ok? {
        assert r.value == rest[4..4 + length];
        if !readable(r.value) { return Err("response must be an object"); }
      }
    }
  }

  /** Reading frame after frame from any chunking of the wire gives the bodies back. */
  method ReadAll(bodies: seq<Bytes>, readable: Bytes -> bool, s: Stream) returns (got: seq<Bytes>)
    requires Sendable(bodies, readable) && s.data == Wire(bodies) && s.pos == 0
    modifies s
    ensures got == bodies && s.pos == |s.data|
  {
    got := [];
    assert s.data[0..] == Wire(bodies[0..]);
    for k := 0 to |bodies|
      invariant s.Valid() && got == bodies[..k] && s.data[s.pos..] == Wire(bodies[k..])
    {
      assert bodies[k..][0] == bodies[k] && bodies[k..][1..] == bodies[k + 1..];
      ghost var before := s.data[s.pos..];
      FrameIsFirst(bodies[k], Wire(bodies[k + 1..]), readable);
      FirstMeans(before, readable);
      var r := s.ReadFrame(readable);
      assert s.data[s.pos..] == before[4 + |bodies[k]|..];
      got := got + [r.value];
    }
    assert bodies[|bodies|..] == [];
  }
}
