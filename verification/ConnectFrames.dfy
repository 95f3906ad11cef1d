/** The Enveloped-Message framing of the Connect protocol: the encoder, the batch decoder and
    the reader of a background process's first frame. Source: internal/sandbox/client.go. */
module ConnectFrames {
  import opened Wrappers

  newtype byte = x: int | 0 <= x < 256

  type Bytes = seq<byte>

  const HEADER: nat := 5
  const TWO32: nat := 0x1_0000_0000

  // ---------------------------------------------------------------------------
  // Big-endian lengths

  function BigEndian(n: nat): (r: Bytes)
    requires n < TWO32
    ensures |r| == 4
  {
    [(n / 0x100_0000) as byte, (n / 0x1_0000 % 256) as byte, (n / 0x100 % 256) as byte, (n % 256) as byte]
  }

  function Uint32(b: Bytes): nat
    requires |b| == 4
  {
    ((b[0] as nat * 256 + b[1] as nat) * 256 + b[2] as nat) * 256 + b[3] as nat
  }

  lemma Uint32BigEndian(n: nat)
    requires n < TWO32
    ensures Uint32(BigEndian(n)) == n
  {
    var a, b, c := n / 256, n / 0x1_0000, n / 0x100_0000;
    assert n == a * 256 + n % 256;
    assert b == a / 256 && a == b * 256 + a % 256;
    assert c == b / 256 && b == c * 256 + b % 256;
  }

  /** Four bytes as a number, the highest first, and back. */
  lemma HighestFirst(b: Bytes, n: nat)
    requires |b| == 4 && n < TWO32
    ensures Uint32(b) == b[0] as nat * 16_777_216 + b[1] as nat * 65_536 + b[2] as nat * 256 + b[3] as nat
    ensures BigEndian(n) == b <==>
      n == b[0] as nat * 16_777_216 + b[1] as nat * 65_536 + b[2] as nat * 256 + b[3] as nat
  {
    Uint32BigEndian(n);
    if Uint32(b) == n { SameDigits(b, n); }
  }

  lemma SameDigits(b: Bytes, n: nat)
    requires |b| == 4 && n < TWO32 && n == Uint32(b)
    ensures BigEndian(n) == b
  {
    var high := (b[0] as nat * 256 + b[1] as nat) * 256 + b[2] as nat;
    assert n == high * 256 + b[3] as nat;
    assert n / 256 == high && n % 256 == b[3] as nat;
    assert n / 0x1_0000 == b[0] as nat * 256 + b[1] as nat;
  }

  // ---------------------------------------------------------------------------
  // Encoding

  /** One frame: flag 0, the length truncated to 32 bits, the payload. */
  function Encode(payload: Bytes): (r: Bytes)
    ensures |r| == HEADER + |payload|
  {
    [0] + BigEndian(|payload| % TWO32) + payload
  }

  /** `encodeConnectFrame`: fills a fresh buffer in place. */
  method EncodeConnectFrame(payload: Bytes) returns (frame: array<byte>)
    ensures fresh(frame) && frame[..] == Encode(payload)
  {
    frame := new byte[HEADER + |payload|];
    frame[0] := 0;
    var length := BigEndian(|payload| % TWO32);
    frame[1], frame[2], frame[3], frame[4] := length[0], length[1], length[2], length[3];
    assert frame[..HEADER] == [0] + length;
    for i := 0 to |payload|
      invariant frame[..HEADER] == [0] + length
      invariant frame[HEADER..HEADER + i] == payload[..i]
    {
      frame[HEADER + i] := payload[i];
      assert frame[HEADER..HEADER + i + 1] == payload[..i] + [payload[i]];
      assert payload[..i + 1] == payload[..i] + [payload[i]];
    }
    assert frame[..] == frame[..HEADER] + frame[HEADER..];
    assert payload[..|payload|] == payload;
  }

  // ---------------------------------------------------------------------------
  // Decoding

  /** The number of bytes the frame at the start of `data` takes, None when there is no
      complete frame with flag 0 or 2. */
  function FrameSize(data: Bytes): (r: Option<nat>)
    ensures r.Some? ==> HEADER <= r.value <= |data|
  {
    if |data| < HEADER || (data[0] != 0 && data[0] != 2) || HEADER + Uint32(data[1..HEADER]) > |data| then None
    else Some(HEADER + Uint32(data[1..HEADER]))
  }

  function Decode(data: Bytes): seq<Bytes> {
    match FrameSize(data)
    case None => []
    case Some(n) => [data[HEADER..n]] + Decode(data[n..])
  }

  /** The bytes the decoder leaves unread. */
  function Rest(data: Bytes): Bytes {
    match FrameSize(data)
    case None => data
    case Some(n) => Rest(data[n..])
  }

  /** A complete frame stands at `offset` of the input. */
  predicate FrameAt(data: Bytes, offset: nat)
    requires offset + HEADER <= |data|
  {
    (data[offset] == 0 || data[offset] == 2)
      && offset + HEADER + Uint32(data[offset + 1..offset + HEADER]) <= |data|
  }

  lemma FrameSizeAt(data: Bytes, offset: nat)
    requires offset + HEADER <= |data|
    ensures FrameSize(data[offset..]) ==
      if FrameAt(data, offset) then Some(HEADER + Uint32(data[offset + 1..offset + HEADER])) else None
  {
    assert data[offset..][1..HEADER] == data[offset + 1..offset + HEADER];
  }

  lemma DecodeOne(data: Bytes, n: nat)
    requires FrameSize(data) == Some(n)
    ensures Decode(data) == [data[HEADER..n]] + Decode(data[n..])
  {
  }

  /** `frames` is what the decoder found before `offset`. */
  ghost predicate DecodedUpTo(data: Bytes, frames: seq<Bytes>, offset: nat)
    requires offset <= |data|
  {
    Decode(data) == frames + Decode(data[offset..])
  }

  lemma DecodeStarts(data: Bytes)
    ensures DecodedUpTo(data, [], 0)
  {
    assert data[0..] == data && [] + Decode(data) == Decode(data);
  }

  /** One turn of the decoder. */
  lemma DecodeTurn(data: Bytes, frames: seq<Bytes>, offset: nat, end: nat)
    requires offset + HEADER <= |data| && FrameAt(data, offset) && DecodedUpTo(data, frames, offset)
    requires end == offset + HEADER + Uint32(data[offset + 1..offset + HEADER])
    ensures DecodedUpTo(data, frames + [data[offset + HEADER..end]], end)
  {
    var tail := data[offset..];
    FrameSizeAt(data, offset);
    DecodeOne(tail, end - offset);
    assert tail[HEADER..end - offset] == data[offset + HEADER..end];
    assert tail[end - offset..] == data[end..];
    ConcatAssoc(frames, [data[offset + HEADER..end]], Decode(data[end..]));
  }

  lemma DecodeStops(data: Bytes, frames: seq<Bytes>, offset: nat)
    requires offset <= |data| && (offset + HEADER <= |data| ==> !FrameAt(data, offset))
    requires DecodedUpTo(data, frames, offset)
    ensures frames == Decode(data)
  {
    if offset + HEADER <= |data| { FrameSizeAt(data, offset); }
    assert frames + [] == frames;
  }

  /** `decodeConnectFrames`. */
  method DecodeConnectFrames(data: Bytes) returns (frames: seq<Bytes>)
    ensures frames == Decode(data)
  {
    frames := [];
    var offset := 0;
    DecodeStarts(data);
    while offset + HEADER <= |data|
      invariant 0 <= offset <= |data| && DecodedUpTo(data, frames, offset)
    {
      var length := Uint32(data[offset + 1..offset + HEADER]);
      var start := offset + HEADER;
      if data[offset] != 0 && data[offset] != 2 {
        break;
      }
      if start + length > |data| {
        break;
      }
      DecodeTurn(data, frames, offset, start + length);
      frames := frames + [data[start..start + length]];
      offset := start + length;
    }
    DecodeStops(data, frames, offset);
  }

  lemma ConcatAssoc<T>(a: seq<T>, b: seq<T>, c: seq<T>)
    ensures a + (b + c) == (a + b) + c
  {
  }

  // ---------------------------------------------------------------------------
  // The decoder reads the longest well-formed prefix, whatever follows it

  /** One raw frame, header included. */
  predicate IsFrame(raw: Bytes) {
    |raw| >= HEADER && (raw[0] == 0 || raw[0] == 2) && |raw| == HEADER + Uint32(raw[1..HEADER])
  }

  function Concat(parts: seq<Bytes>): Bytes {
    if parts == [] then [] else parts[0] + Concat(parts[1..])
  }

  function Payloads(raws: seq<Bytes>): (r: seq<Bytes>)
    requires forall raw :: raw in raws ==> IsFrame(raw)
    ensures |r| == |raws|
  {
    if raws == [] then []
    else
      assert IsFrame(raws[0]);
      [raws[0][HEADER..]] + Payloads(raws[1..])
  }

  lemma FrameThenDecode(raw: Bytes, tail: Bytes)
    requires IsFrame(raw)
    ensures FrameSize(raw + tail) == Some(|raw|)
    ensures Decode(raw + tail) == [raw[HEADER..]] + Decode(tail)
    ensures Rest(raw + tail) == Rest(tail)
  {
    var data := raw + tail;
    assert data[1..HEADER] == raw[1..HEADER];
    assert data[HEADER..|raw|] == raw[HEADER..] && data[|raw|..] == tail;
  }

  /** Whatever frames a text starts with are decoded first, then the remaining text. */
  lemma {:induction false} FramesThenDecode(raws: seq<Bytes>, tail: Bytes)
    requires forall raw :: raw in raws ==> IsFrame(raw)
    ensures Decode(Concat(raws) + tail) == Payloads(raws) + Decode(tail)
    ensures Rest(Concat(raws) + tail) == Rest(tail)
  {
    if raws == [] {
      assert [] + tail == tail;
      assert [] + Decode(tail) == Decode(tail);
    } else {
      assert Concat(raws) + tail == raws[0] + (Concat(raws[1..]) + tail);
      FrameThenDecode(raws[0], Concat(raws[1..]) + tail);
      FramesThenDecode(raws[1..], tail);
      assert [raws[0][HEADER..]] + (Payloads(raws[1..]) + Decode(tail))
          == [raws[0][HEADER..]] + Payloads(raws[1..]) + Decode(tail);
    }
  }

  lemma FramePrefix(data: Bytes, k: nat)
    requires k <= |data| && IsFrame(data[..k])
    ensures FrameSize(data) == Some(k)
  {
    assert data[..k][1..HEADER] == data[1..HEADER];
  }

  /** A rest with no complete frame at its start has no frame as a prefix. */
  lemma NoFramePrefix(data: Bytes)
    requires FrameSize(data).None?
    ensures forall k :: 0 <= k <= |data| ==> !IsFrame(data[..k])
  {
    forall k | 0 <= k <= |data| ensures !IsFrame(data[..k]) {
      if IsFrame(data[..k]) { FramePrefix(data, k); }
    }
  }

  lemma FirstFrame(data: Bytes, n: nat)
    requires FrameSize(data) == Some(n)
    ensures IsFrame(data[..n]) && data == data[..n] + data[n..] && data[..n][HEADER..] == data[HEADER..n]
  {
    assert data[..n][1..HEADER] == data[1..HEADER];
  }

  /** The input is the decoded frames followed by a rest that starts with no complete frame. */
  lemma {:induction false} DecodeSplits(data: Bytes) returns (raws: seq<Bytes>)
    ensures forall raw :: raw in raws ==> IsFrame(raw)
    ensures data == Concat(raws) + Rest(data)
    ensures Payloads(raws) == Decode(data)
    ensures forall k :: 0 <= k <= |Rest(data)| ==> !IsFrame(Rest(data)[..k])
    decreases |data|
  {
    match FrameSize(data)
    case None =>
      raws := [];
      assert [] + data == data;
      NoFramePrefix(data);
    case Some(n) =>
      FirstFrame(data, n);
      var more := DecodeSplits(data[n..]);
      raws := [data[..n]] + more;
      assert raws[0] == data[..n] && raws[1..] == more;
      ConcatAssoc(data[..n], Concat(more), Rest(data[n..]));
  }

  /** Maximality: every way of reading frames from the front of the input is an initial part of
      what the decoder reads. */
  lemma DecodeIsMaximal(data: Bytes, raws: seq<Bytes>, tail: Bytes)
    requires forall raw :: raw in raws ==> IsFrame(raw)
    requires data == Concat(raws) + tail
    ensures Payloads(raws) <= Decode(data)
  {
    FramesThenDecode(raws, tail);
  }

  /** More input never changes the frames already decoded: decoding resumes at the rest. */
  lemma DecodeExtends(a: Bytes, b: Bytes)
    ensures Decode(a + b) == Decode(a) + Decode(Rest(a) + b)
    ensures Decode(a) <= Decode(a + b)
  {
    var raws := DecodeSplits(a);
    assert a + b == Concat(raws) + (Rest(a) + b);
    FramesThenDecode(raws, Rest(a) + b);
  }

  /** A frame on the wire: flag 0 or 2, the length of its payload in four bytes with the highest
      first, the payload. */
  lemma FrameOnTheWire(raw: Bytes)
    ensures IsFrame(raw) <==>
      && |raw| >= 5 && (raw[0] == 0 || raw[0] == 2)
      && |raw| - 5 == raw[1] as nat * 16_777_216 + raw[2] as nat * 65_536 + raw[3] as nat * 256 + raw[4] as nat
  {
    if |raw| >= 5 {
      var b := raw[1..5];
      HighestFirst(b, 0);
      assert b[0] == raw[1] && b[1] == raw[2] && b[2] == raw[3] && b[3] == raw[4];
    }
  }

  /** The encoder writes such a frame, of flag 0. */
  lemma EncodedOnTheWire(payload: Bytes)
    requires |payload| < 4_294_967_296
    ensures var e := Encode(payload);
      && |e| == 5 + |payload| && e[0] == 0 && e[5..] == payload
      && |payload| == e[1] as nat * 16_777_216 + e[2] as nat * 65_536 + e[3] as nat * 256 + e[4] as nat
  {
    EncodeIsFrame(payload);
    FrameOnTheWire(Encode(payload));
  }

  // ---------------------------------------------------------------------------
  // Round trip

  lemma EncodeIsFrame(payload: Bytes)
    ensures IsFrame(Encode(payload)) <==> |payload| < TWO32
    ensures Encode(payload)[HEADER..] == payload
  {
    var raw := Encode(payload);
    Uint32BigEndian(|payload| % TWO32);
    assert raw[1..HEADER] == BigEndian(|payload| % TWO32);
  }

  function EncodeAll(payloads: seq<Bytes>): Bytes {
    if payloads == [] then [] else Encode(payloads[0]) + EncodeAll(payloads[1..])
  }

  lemma EncodeThenDecode(payload: Bytes, tail: Bytes)
    requires |payload| < TWO32
    ensures Decode(Encode(payload) + tail) == [payload] + Decode(tail)
  {
    EncodeIsFrame(payload);
    FrameThenDecode(Encode(payload), tail);
  }

  /** Encoded payloads, whatever follows them, decode to themselves. */
  lemma {:induction false} DecodeEncoded(payloads: seq<Bytes>, tail: Bytes)
    requires forall i :: 0 <= i < |payloads| ==> |payloads[i]| < TWO32
    ensures Decode(EncodeAll(payloads) + tail) == payloads + Decode(tail)
  {
    if payloads == [] {
      assert [] + tail == tail;
      assert [] + Decode(tail) == Decode(tail);
    } else {
      var head, others := payloads[0], payloads[1..];
      ConcatAssoc(Encode(head), EncodeAll(others), tail);
      EncodeThenDecode(head, EncodeAll(others) + tail);
      DecodeEncoded(others, tail);
      ConcatAssoc([head], others, Decode(tail));
      assert [head] + others == payloads;
    }
  }

  /** The round trip holds exactly for the payloads whose length fits in 32 bits. */
  lemma {:induction false} RoundTripExact(payloads: seq<Bytes>)
    ensures Decode(EncodeAll(payloads)) == payloads <==> forall i :: 0 <= i < |payloads| ==> |payloads[i]| < TWO32
  {
    if forall i :: 0 <= i < |payloads| ==> |payloads[i]| < TWO32 {
      DecodeEncoded(payloads, []);
      assert EncodeAll(payloads) + [] == EncodeAll(payloads) && payloads + [] == payloads;
    } else if payloads != [] {
      var head, tail := payloads[0], EncodeAll(payloads[1..]);
      var data := Encode(head) + tail;
      if |head| < TWO32 {
        EncodeThenDecode(head, tail);
        RoundTripExact(payloads[1..]);
        assert Decode(data)[1..] == Decode(tail);
      } else {
        // the header announces fewer bytes than the payload has
        var length := |head| % TWO32;
        Uint32BigEndian(length);
        assert data[1..HEADER] == BigEndian(length);
        assert FrameSize(data) == Some(HEADER + length);
        assert |Decode(data)[0]| == length;
      }
    }
  }

  // ---------------------------------------------------------------------------
  // Reading one frame from a stream

  datatype ReadError = NoHeader | UnexpectedFlags(flags: byte) | ShortPayload

  /** An `io.Reader`: the bytes to come and how many have been read. */
  class Stream {
    const data: Bytes
    var position: nat

    ghost predicate Valid()
      reads this
    {
      position <= |data|
    }

    constructor (data: Bytes)
      ensures Valid() && this.data == data && position == 0
    {
      this.data := data;
      position := 0;
    }

    /** One `Read`: between one and `n` bytes, fewer than asked at the reader's whim. */
    method Read(n: nat) returns (chunk: Bytes)
      requires Valid() && n > 0
      modifies this
      ensures Valid() && position == old(position) + |chunk| && |chunk| <= n
      ensures chunk == data[old(position)..position]
      ensures chunk == [] <==> old(position) == |data|
    {
      if position == |data| {
        return [];
      }
      var k :| 0 < k <= n && position + k <= |data|;
      chunk := data[position..position + k];
      position := position + k;
    }

    /** `io.ReadFull`: reads until it has `n` bytes or the stream ends. */
    method ReadFull(n: nat) returns (r: Option<Bytes>)
      requires Valid()
      modifies this
      ensures Valid() && old(position) <= position
      ensures old(position) + n <= |data| ==>
        position == old(position) + n && r == Some(data[old(position)..position])
      ensures old(position) + n > |data| ==> r.None? && position == |data|
    {
      var got: Bytes := [];
      while |got| < n
        invariant Valid() && |got| <= n
        invariant position == old(position) + |got| && got == data[old(position)..position]
        decreases n - |got|
      {
        var chunk := Read(n - |got|);
        if chunk == [] {
          return None;
        }
        got := got + chunk;
      }
      return Some(got);
    }
  }

  /** What the first frame of a background process's response yields. */
  function FirstPayload(data: Bytes): Result<Bytes, ReadError> {
    if |data| < HEADER then Err(NoHeader)
    else if data[0] != 0 then Err(UnexpectedFlags(data[0]))
    else if HEADER + Uint32(data[1..HEADER]) > |data| then Err(ShortPayload)
    else Ok(data[HEADER..HEADER + Uint32(data[1..HEADER])])
  }

  /** `readBackgroundProcessResponse` up to the JSON: it reads one frame and not a byte more. */
  method ReadFirstPayload(body: Stream) returns (r: Result<Bytes, ReadError>)
    requires body.Valid() && body.position == 0
    modifies body
    ensures body.Valid() && r == FirstPayload(body.data)
    ensures r.Ok? ==> body.position == HEADER + |r.value|
  {
    var header := body.ReadFull(HEADER);
    if header.None? {
      return Err(NoHeader);
    }
    if header.value[0] != 0 {
      return Err(UnexpectedFlags(header.value[0]));
    }
    assert header.value[1..] == body.data[1..HEADER];
    var payload := body.ReadFull(Uint32(header.value[1..]));
    if payload.None? {
      return Err(ShortPayload);
    }
    return Ok(payload.value);
  }

  /** The streaming reader and the batch decoder agree: the reader returns a payload exactly
      when the input starts with a complete frame of flag 0, and it is the decoder's first. */
  lemma StreamAgreesWithBatch(data: Bytes)
    ensures FirstPayload(data).Ok? <==> Decode(data) != [] && data[0] == 0
    ensures FirstPayload(data).Ok? ==> FirstPayload(data).value == Decode(data)[0]
    ensures FirstPayload(data) == Err(NoHeader) <==> |data| < 5
    ensures forall flag ::
      FirstPayload(data) == Err(UnexpectedFlags(flag)) <==> |data| >= 5 && data[0] == flag && flag != 0
    ensures FirstPayload(data) == Err(ShortPayload) <==> |data| >= 5 && data[0] == 0 && Decode(data) == []
  {
    if FirstPayload(data).Ok? {
      assert FrameSize(data).Some?;
    }
  }
}
