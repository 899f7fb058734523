/** The WebSocket frame codec of `api/pty_ws.py` (sections 5.2 and 5.3 of RFC 6455). */
module WsFrames {
  import opened Lists

  type byte = x: int | 0 <= x < 256
  type Bytes = seq<byte>

  const MAX_READ := 1_000_000

  datatype Error = Closed | TooLarge
  datatype Result<+T> = Ok(value: T) | Err(error: Error)
  datatype Frame = Frame(opcode: byte, payload: Bytes)

  // ----- Bits of a byte

  /** The masks `b & 0x0F`, `b & 0x7F`, `b & 0x80 != 0` and `0x80 | b`. */
  function Low4(b: byte): byte { b % 16 }
  function Low7(b: byte): byte { b % 128 }
  predicate High(b: byte) { b >= 128 }
  function SetHigh(b: byte): byte { if b < 128 then b + 128 else b }

  function Pow2(k: nat): nat {
    if k == 0 then 1 else 2 * Pow2(k - 1)
  }

  /** Exclusive or of the low `k` bits. */
  function XorBits(a: nat, b: nat, k: nat): (r: nat)
    ensures r < Pow2(k)
  {
    if k == 0 then 0 else 2 * XorBits(a / 2, b / 2, k - 1) + (a + b) % 2
  }

  lemma {:induction false} XorTwice(a: nat, b: nat, k: nat)
    requires a < Pow2(k)
    ensures XorBits(XorBits(a, b, k), b, k) == a
  {
    if k > 0 {
      XorTwice(a / 2, b / 2, k - 1);
      Halves(XorBits(a / 2, b / 2, k - 1), a, b);
    }
  }

  lemma Halves(h: nat, a: nat, b: nat)
    ensures (2 * h + (a + b) % 2) / 2 == h
    ensures (2 * h + (a + b) % 2 + b) % 2 == a % 2
  {
  }

  function Xor(a: byte, b: byte): byte {
    assert Pow2(8) == 256;
    XorBits(a, b, 8)
  }

  // ----- Integers on the wire

  /** `n` as `k` big-endian bytes; higher bytes are cut. */
  function BigEndian(n: nat, k: nat): (r: Bytes)
    ensures |r| == k
  {
    if k == 0 then [] else BigEndian(n / 256, k - 1) + [n % 256]
  }

  function FromBytes(b: Bytes): nat {
    if b == [] then 0 else FromBytes(b[..|b| - 1]) * 256 + b[|b| - 1]
  }

  function Pow256(k: nat): nat {
    if k == 0 then 1 else 256 * Pow256(k - 1)
  }

  lemma {:induction false} BigEndianRoundTrip(n: nat, k: nat)
    requires n < Pow256(k)
    ensures FromBytes(BigEndian(n, k)) == n
  {
    if k > 0 {
      assert n / 256 < Pow256(k - 1);
      BigEndianRoundTrip(n / 256, k - 1);
      var r := BigEndian(n, k);
      assert r[..k - 1] == BigEndian(n / 256, k - 1);
    }
  }

  // ----- Writing

  /** The 7-bit length field, and the bytes of the extended length. */
  function Len7(n: nat): byte {
    if n < 126 then n else if n < 65536 then 126 else 127
  }

  function ExtendedSize(n: nat): nat {
    if n < 126 then 0 else if n < 65536 then 2 else 8
  }

  function Extended(n: nat): Bytes {
    BigEndian(n, ExtendedSize(n))
  }

  function Header(opcode: byte, n: nat): Bytes {
    [SetHigh(opcode), Len7(n)] + Extended(n)
  }

  function Encode(f: Frame): Bytes {
    Header(f.opcode, |f.payload|) + f.payload
  }

  // ----- Reading

  function Mask(payload: Bytes, key: Bytes): (r: Bytes)
    requires |key| == 4
    ensures |r| == |payload|
  {
    seq(|payload|, i requires 0 <= i < |payload| => Xor(payload[i], key[i % 4]))
  }

  /** The payload length and what follows it, given the 7-bit length field. */
  function ReadLength(len7: nat, s: Bytes): Result<(nat, Bytes)> {
    var k := if len7 == 126 then 2 else if len7 == 127 then 8 else 0;
    if |s| < k then Err(Closed)
    else Ok((if k == 0 then len7 else FromBytes(s[..k]), s[k..]))
  }

  /** Key and payload of `n` bytes, and what follows. */
  function ReadBody(masked: bool, n: nat, s: Bytes): Result<(Bytes, Bytes)> {
    var k := if masked then 4 else 0;
    if |s| < k + n then Err(Closed)
    else Ok((if masked then Mask(s[4..4 + n], s[..4]) else s[..n], s[k + n..]))
  }

  /** One frame from a stream, and the rest of the stream; a stream that ends early is read to its end. */
  function Decode(s: Bytes): (Result<Frame>, Bytes) {
    if |s| < 2 then (Err(Closed), [])
    else DecodeTail(Low4(s[0]), High(s[1]), Low7(s[1]), s[2..])
  }

  function DecodeTail(opcode: byte, masked: bool, len7: nat, s: Bytes): (Result<Frame>, Bytes) {
    match ReadLength(len7, s)
    case Err(e) => (Err(e), [])
    case Ok((n, rest)) =>
      if n > MAX_READ then (Err(TooLarge), rest) else
        match ReadBody(masked, n, rest)
        case Err(e) => (Err(e), [])
        case Ok((payload, rest')) => (Ok(Frame(opcode, payload)), rest')
  }

  // ----- The socket

  class Socket {
    var incoming: Bytes  // every byte that will still arrive
    var outgoing: Bytes

    /** Any chunking: between one byte and `n`, or nothing once the peer has closed. */
    method Recv(n: nat) returns (chunk: Bytes)
      requires n > 0
      modifies this`incoming
      ensures |chunk| <= n && old(incoming) == chunk + incoming
      ensures chunk == [] ==> incoming == []
    {
      if incoming == [] {
        return [];
      }
      var k :| 1 <= k <= n && k <= |incoming|;
      chunk := incoming[..k];
      incoming := incoming[k..];
    }

    method RecvExact(n: nat) returns (r: Result<Bytes>)
      modifies this`incoming
      ensures |old(incoming)| >= n ==> r == Ok(old(incoming)[..n]) && incoming == old(incoming)[n..]
      ensures |old(incoming)| < n ==> r == Err(Closed) && incoming == []
    {
      var buf := [];
      while |buf| < n
        invariant |buf| <= n && old(incoming) == buf + incoming
        decreases n - |buf|
      {
        var chunk := Recv(n - |buf|);
        if chunk == [] {
          return Err(Closed);
        }
        buf := buf + chunk;
      }
      return Ok(buf);
    }

    /** Reading is independent of the chunking and takes exactly the bytes of one frame. */
    method WsRead() returns (r: Result<Frame>)
      modifies this`incoming
      ensures (r, incoming) == Decode(old(incoming))
    {
      var hdr := RecvExact(2);
      if hdr.Err? {
        return Err(hdr.error);
      }
      var len7 := Low7(hdr.value[1]);
      var masked := High(hdr.value[1]);
      var n := RecvLength(len7);
      if n.Err? {
        return Err(n.error);
      }
      if n.value > MAX_READ {
        return Err(TooLarge);
      }
      var body := RecvBody(masked, n.value);
      if body.Err? {
        return Err(body.error);
      }
      return Ok(Frame(Low4(hdr.value[0]), body.value));
    }

    method RecvLength(len7: nat) returns (r: Result<nat>)
      modifies this`incoming
      ensures match ReadLength(len7, old(incoming))
        case Ok((n, rest)) => r == Ok(n) && incoming == rest
        case Err(e) => r == Err(e) && incoming == []
    {
      if len7 == 126 {
        var b := RecvExact(2);
        return if b.Ok? then Ok(FromBytes(b.value)) else Err(b.error);
      } else if len7 == 127 {
        var b := RecvExact(8);
        return if b.Ok? then Ok(FromBytes(b.value)) else Err(b.error);
      }
      return Ok(len7);
    }

    method RecvBody(masked: bool, n: nat) returns (r: Result<Bytes>)
      modifies this`incoming
      ensures match ReadBody(masked, n, old(incoming))
        case Ok((payload, rest)) => r == Ok(payload) && incoming == rest
        case Err(e) => r == Err(e) && incoming == []
    {
      var key := [];
      if masked {
        var k := RecvExact(4);
        if k.Err? {
          return Err(k.error);
        }
        key := k.value;
      }
      var payload := RecvExact(n);
      if payload.Err? {
        return payload;
      }
      ghost var s := old(incoming);
      if masked {
        assert s[4..][..n] == s[4..4 + n] && s[4..][n..] == s[4 + n..];
      }
      return Ok(if masked then Mask(payload.value, key) else payload.value);
    }

    method WsWrite(payload: Bytes, opcode: byte)
      modifies this`outgoing
      ensures outgoing == old(outgoing) + Encode(Frame(opcode, payload))
    {
      var header := [SetHigh(opcode)];
      var n := |payload|;
      if n < 126 {
        header := header + [n];
      } else if n < 65536 {
        header := header + [126];
        header := header + BigEndian(n, 2);
      } else {
        header := header + [127];
        header := header + BigEndian(n, 8);
      }
      assert header == Header(opcode, n);
      outgoing := outgoing + (header + payload);
    }
  }

  // ----- Round trips

  lemma LengthRoundTrip(n: nat, rest: Bytes)
    requires n < Pow256(8)
    ensures ReadLength(Len7(n), Extended(n) + rest) == Ok((n, rest))
  {
    var e, k := Extended(n), ExtendedSize(n);
    assert Pow256(2) == 65536;
    if n >= 126 {
      BigEndianRoundTrip(n, k);
    }
    assert (e + rest)[..k] == e && (e + rest)[k..] == rest;
  }

  /** A client frame (section 5.3 of RFC 6455): the mask bit, the key, and the masked payload. */
  function EncodeMasked(f: Frame, key: Bytes): Bytes
    requires |key| == 4
  {
    [SetHigh(f.opcode), SetHigh(Len7(|f.payload|))] + Extended(|f.payload|) + key + Mask(f.payload, key)
  }

  lemma MaskTwice(payload: Bytes, key: Bytes)
    requires |key| == 4
    ensures Mask(Mask(payload, key), key) == payload
  {
    forall i | 0 <= i < |payload| ensures Mask(Mask(payload, key), key)[i] == payload[i] {
      assert Pow2(8) == 256;
      XorTwice(payload[i], key[i % 4], 8);
    }
  }

  lemma BodyRoundTrip(payload: Bytes, key: Bytes, rest: Bytes)
    requires |key| == 4
    ensures ReadBody(false, |payload|, payload + rest) == Ok((payload, rest))
    ensures ReadBody(true, |payload|, key + Mask(payload, key) + rest) == Ok((payload, rest))
  {
    MaskTwice(payload, key);
    var m := Mask(payload, key);
    assert (key + m + rest)[4..4 + |payload|] == m && (key + m + rest)[..4] == key;
    assert (key + m + rest)[4 + |payload|..] == rest;
  }

  lemma HeaderBits(op: byte, len: byte)
    requires op < 16 && len < 128
    ensures Low4(SetHigh(op)) == op
    ensures Low7(len) == Low7(SetHigh(len)) == len && !High(len) && High(SetHigh(len))
  {
  }

  /** Two header bytes, then the length and the body. */
  lemma DecodeHeader(f: Frame, masked: bool, tail: Bytes)
    requires f.opcode < 16
    ensures var len := Len7(|f.payload|);
      Decode([SetHigh(f.opcode), if masked then SetHigh(len) else len] + tail)
      == DecodeTail(f.opcode, masked, len, tail)
  {
    var len := Len7(|f.payload|);
    var b1 := if masked then SetHigh(len) else len;
    var s := [SetHigh(f.opcode), b1] + tail;
    assert s[0] == SetHigh(f.opcode) && s[1] == b1 && s[2..] == tail;
    HeaderBits(f.opcode, len);
  }

  /** What the reader does with a written frame, whatever follows it in the stream. */
  lemma WrittenFrameIsRead(f: Frame, rest: Bytes)
    requires f.opcode < 16 && |f.payload| < Pow256(8)
    ensures Decode(Encode(f) + rest)
      == if |f.payload| <= MAX_READ then (Ok(f), rest) else (Err(TooLarge), f.payload + rest)
  {
    var n := |f.payload|;
    var tail := Extended(n) + (f.payload + rest);
    assert Encode(f) + rest == [SetHigh(f.opcode), Len7(n)] + tail;
    DecodeHeader(f, false, tail);
    LengthRoundTrip(n, f.payload + rest);
    BodyRoundTrip(f.payload, [0, 0, 0, 0], rest);
  }

  lemma ClientFrameIsRead(f: Frame, key: Bytes, rest: Bytes)
    requires f.opcode < 16 && |f.payload| <= MAX_READ && |key| == 4
    ensures Decode(EncodeMasked(f, key) + rest) == (Ok(f), rest)
  {
    var n := |f.payload|;
    var body := key + Mask(f.payload, key) + rest;
    assert EncodeMasked(f, key) + rest == [SetHigh(f.opcode), SetHigh(Len7(n))] + (Extended(n) + body);
    DecodeHeader(f, true, Extended(n) + body);
    Pow256Grows(3, 8);
    LengthRoundTrip(n, body);
    BodyRoundTrip(f.payload, key, rest);
  }

  lemma {:induction false} Pow256Grows(j: nat, k: nat)
    requires j <= k
    ensures Pow256(j) <= Pow256(k)
    ensures Pow256(3) == 16777216
  {
    if j < k {
      Pow256Grows(j, k - 1);
    }
  }

  // ----- Whole streams

  predicate Sendable(f: Frame) {
    f.opcode < 16 && |f.payload| <= MAX_READ
  }

  function EncodeAll(enc: Frame -> Bytes, frames: seq<Frame>): Bytes {
    if frames == [] then [] else enc(frames[0]) + EncodeAll(enc, frames[1..])
  }

  /** `n` frames in a row, or the first error. */
  function DecodeMany(dec: Bytes -> (Result<Frame>, Bytes), n: nat, s: Bytes): (Result<seq<Frame>>, Bytes) {
    if n == 0 then (Ok([]), s) else
      var (first, rest) := dec(s);
      if first.Err? then (Err(first.error), rest) else
        var (more, rest') := DecodeMany(dec, n - 1, rest);
        (if more.Err? then more else Ok([first.value] + more.value), rest')
  }

  /** A codec that reads back each frame in front of any tail reads back streams. */
  lemma {:induction false} StreamsFollowFrames(
      enc: Frame -> Bytes, dec: Bytes -> (Result<Frame>, Bytes), frames: seq<Frame>, rest: Bytes)
    requires forall i, tail :: 0 <= i < |frames| ==> dec(enc(frames[i]) + tail) == (Ok(frames[i]), tail)
    ensures DecodeMany(dec, |frames|, EncodeAll(enc, frames) + rest) == (Ok(frames), rest)
  {
    if frames == [] {
      assert [] + rest == rest;
    } else {
      var f, more := frames[0], frames[1..];
      forall i, tail | 0 <= i < |more| ensures dec(enc(more[i]) + tail) == (Ok(more[i]), tail) {
        assert more[i] == frames[i + 1];
      }
      StreamsFollowFrames(enc, dec, more, rest);
      var later := EncodeAll(enc, more) + rest;
      assert EncodeAll(enc, frames) + rest == enc(f) + later;
      assert dec(enc(f) + later) == (Ok(f), later);
      assert [f] + more == frames;
    }
  }

  lemma SendableIsRead(f: Frame, rest: Bytes)
    requires Sendable(f)
    ensures Decode(Encode(f) + rest) == (Ok(f), rest)
  {
    Pow256Grows(3, 8);
    WrittenFrameIsRead(f, rest);
  }

  /** Written frames come back as the same frames, and later bytes stay in the stream. */
  lemma StreamRoundTrip(frames: seq<Frame>, rest: Bytes)
    requires forall i :: 0 <= i < |frames| ==> Sendable(frames[i])
    ensures DecodeMany(Decode, |frames|, EncodeAll(Encode, frames) + rest) == (Ok(frames), rest)
  {
    forall i, tail | 0 <= i < |frames| ensures Decode(Encode(frames[i]) + tail) == (Ok(frames[i]), tail) {
      SendableIsRead(frames[i], tail);
    }
    StreamsFollowFrames(Encode, Decode, frames, rest);
  }

  /** A frame cut anywhere before its end is never taken for a frame. */
  lemma CutFrameIsClosed(f: Frame, cut: nat)
    requires Sendable(f) && cut < |Encode(f)|
    ensures Decode(Encode(f)[..cut]) == (Err(Closed), [])
  {
    var e := Encode(f);
    var n := |f.payload|;
    if cut >= 2 {
      var tail := Extended(n) + f.payload;
      assert e == [SetHigh(f.opcode), Len7(n)] + tail;
      var part := tail[..cut - 2];
      assert e[..cut] == [SetHigh(f.opcode), Len7(n)] + part;
      DecodeHeader(f, false, part);
      if cut - 2 >= |Extended(n)| {
        Pow256Grows(3, 8);
        assert part == Extended(n) + f.payload[..cut - 2 - |Extended(n)|];
        LengthRoundTrip(n, f.payload[..cut - 2 - |Extended(n)|]);
      } else {
        ShortLength(n, part);
      }
    }
  }

  lemma ShortLength(n: nat, part: Bytes)
    requires |part| < |Extended(n)|
    ensures ReadLength(Len7(n), part) == Err(Closed)
  {
  }

  /** No byte string decodes to a frame in fewer bytes than the writer uses: the length is in shortest form. */
  lemma WriterIsShortest(s: Bytes, f: Frame, rest: Bytes)
    requires Decode(s) == (Ok(f), rest)
    ensures |Encode(f)| <= |s| - |rest|
  {
    var len7 := Low7(s[1]);
    var (n, after) := ReadLength(len7, s[2..]).value;
    assert n == |f.payload|;
    if len7 == 126 {
      TwoBytes(s[2..][..2]);
    }
  }

  lemma TwoBytes(b: Bytes)
    requires |b| == 2
    ensures FromBytes(b) < 65536
  {
    assert FromBytes(b) == FromBytes(b[..1]) * 256 + b[1];
    assert FromBytes(b[..1]) == FromBytes(b[..1][..0]) * 256 + b[0];
  }

  // ----- The wire format, byte by byte

  /** Bit `i` of a number, the lowest first. */
  predicate Bit(x: nat, i: nat) {
    if i == 0 then x % 2 == 1 else Bit(x / 2, i - 1)
  }

  lemma {:induction false} XorBit(a: nat, b: nat, k: nat, i: nat)
    requires i < k
    ensures Bit(XorBits(a, b, k), i) <==> Bit(a, i) != Bit(b, i)
  {
    if i == 0 {
      Halves(XorBits(a / 2, b / 2, k - 1), a, b);
    } else {
      XorBit(a / 2, b / 2, k - 1, i - 1);
      Halves(XorBits(a / 2, b / 2, k - 1), a, b);
    }
  }

  lemma {:induction false} BitsDetermine(a: nat, b: nat, k: nat)
    requires a < Pow2(k) && b < Pow2(k) && forall i :: 0 <= i < k ==> (Bit(a, i) <==> Bit(b, i))
    ensures a == b
  {
    if k > 0 {
      forall i | 0 <= i < k - 1 ensures Bit(a / 2, i) <==> Bit(b / 2, i) {
        assert Bit(a, i + 1) <==> Bit(b, i + 1);
      }
      BitsDetermine(a / 2, b / 2, k - 1);
      assert Bit(a, 0) <==> Bit(b, 0);
    }
  }

  /** Two bytes, four and eight, the most significant first. */
  function Two(high: nat, low: nat): nat { 256 * high + low }

  function Word2(b: Bytes): nat
    requires |b| == 2
  {
    Two(b[0], b[1])
  }

  function Word4(b: Bytes): nat
    requires |b| == 4
  {
    65536 * Two(b[0], b[1]) + Two(b[2], b[3])
  }

  function Word8(b: Bytes): nat
    requires |b| == 8
  {
    4294967296 * Word4(b[..4]) + Word4(b[4..])
  }

  lemma FromBytesSnoc(b: Bytes, x: byte)
    ensures FromBytes(b + [x]) == FromBytes(b) * 256 + x
  {
    assert (b + [x])[..|b|] == b;
  }

  lemma PlaceValues2(b: Bytes)
    requires |b| == 2
    ensures FromBytes(b) == Word2(b)
  {
    FromBytesSnoc([], b[0]);
    FromBytesSnoc([] + [b[0]], b[1]);
    assert b == [] + [b[0]] + [b[1]];
  }

  lemma PlaceValues4(b: Bytes)
    requires |b| == 4
    ensures FromBytes(b) == Word4(b)
  {
    PlaceValues2(b[..2]);
    FromBytesSnoc(b[..2], b[2]);
    FromBytesSnoc(b[..3], b[3]);
    assert b[..3] == b[..2] + [b[2]] && b == b[..3] + [b[3]];
  }

  lemma FromBytesConcat4(a: Bytes, b: Bytes)
    requires |b| == 4
    ensures FromBytes(a + b) == 4294967296 * FromBytes(a) + FromBytes(b)
  {
    PlaceValues4(b);
    FromBytesSnoc(a, b[0]);
    FromBytesSnoc(a + [b[0]], b[1]);
    FromBytesSnoc(a + [b[0]] + [b[1]], b[2]);
    FromBytesSnoc(a + [b[0]] + [b[1]] + [b[2]], b[3]);
    assert a + b == a + [b[0]] + [b[1]] + [b[2]] + [b[3]];
  }

  lemma PlaceValues8(b: Bytes)
    requires |b| == 8
    ensures FromBytes(b) == Word8(b)
  {
    PlaceValues4(b[..4]);
    PlaceValues4(b[4..]);
    FromBytesConcat4(b[..4], b[4..]);
    assert b == b[..4] + b[4..];
  }

  /** Where the length field ends and which length it says, if the stream is long enough (section 5.2 of RFC 6455). */
  function LengthField(s: Bytes): Option<(nat, nat)> {
    if |s| < 2 then None
    else if s[1] % 128 == 126 then if |s| < 4 then None else Some((4, Word2(s[2..4])))
    else if s[1] % 128 == 127 then if |s| < 10 then None else Some((10, Word8(s[2..10])))
    else Some((2, s[1] % 128))
  }

  lemma LengthFieldIsRead(s: Bytes)
    requires |s| >= 2
    ensures match ReadLength(Low7(s[1]), s[2..])
      case Ok((n, rest)) => LengthField(s) == Some((|s| - |rest|, n)) && rest == s[|s| - |rest|..] && |rest| + 2 <= |s|
      case Err(e) => LengthField(s).None? && e == Closed
  {
    if Low7(s[1]) == 126 && |s| >= 4 {
      assert s[2..][..2] == s[2..4] && s[2..][2..] == s[4..];
      PlaceValues2(s[2..4]);
    } else if Low7(s[1]) == 127 && |s| >= 10 {
      assert s[2..][..8] == s[2..10] && s[2..][8..] == s[10..];
      PlaceValues8(s[2..10]);
    }
  }

  /** Each bit of a payload byte is the masked byte's bit, inverted where the key byte in turn has a one
      (section 5.3 of RFC 6455). */
  ghost predicate Unmasked(payload: Bytes, key: Bytes, masked: Bytes)
    requires |key| == 4
  {
    |payload| == |masked| && forall i, b :: 0 <= i < |payload| && 0 <= b < 8 ==>
      (Bit(payload[i], b) <==> Bit(masked[i], b) != Bit(key[i % 4], b))
  }

  lemma MaskUnmasks(key: Bytes, masked: Bytes)
    requires |key| == 4
    ensures Unmasked(Mask(masked, key), key, masked)
  {
    forall i, b | 0 <= i < |masked| && 0 <= b < 8
      ensures Bit(Mask(masked, key)[i], b) <==> Bit(masked[i], b) != Bit(key[i % 4], b)
    {
      XorBit(masked[i], key[i % 4], 8, b);
    }
  }

  lemma UnmaskedIsUnique(payload: Bytes, other: Bytes, key: Bytes, masked: Bytes)
    requires |key| == 4 && Unmasked(payload, key, masked) && Unmasked(other, key, masked)
    ensures payload == other
  {
    forall i | 0 <= i < |payload| ensures payload[i] == other[i] {
      assert Pow2(8) == 256;
      forall b | 0 <= b < 8 ensures Bit(payload[i], b) <==> Bit(other[i], b) {
        assert Bit(payload[i], b) <==> Bit(masked[i], b) != Bit(key[i % 4], b);
      }
      BitsDetermine(payload[i], other[i], 8);
    }
  }

  /** A payload of `n` bytes lies at this place of the stream, behind its key if it is masked. */
  ghost predicate BodyAt(s: Bytes, at: nat, n: nat, masked: bool, payload: Bytes, rest: Bytes) {
    if masked
    then at + 4 + n <= |s| && rest == s[at + 4 + n..] && Unmasked(payload, s[at..at + 4], s[at + 4..at + 4 + n])
    else at + n <= |s| && rest == s[at + n..] && payload == s[at..at + n]
  }

  /** The stream begins with this frame, and `rest` follows it. */
  ghost predicate BeginsWith(s: Bytes, f: Frame, rest: Bytes) {
    LengthField(s).Some? &&
    var (at, n) := LengthField(s).value;
    n <= 1_000_000 && f.opcode == s[0] % 16 && BodyAt(s, at, n, s[1] >= 128, f.payload, rest)
  }

  lemma BodyIsRead(s: Bytes, at: nat, n: nat, masked: bool, payload: Bytes, rest: Bytes)
    requires at <= |s|
    ensures ReadBody(masked, n, s[at..]) == Ok((payload, rest)) <==> BodyAt(s, at, n, masked, payload, rest)
  {
    var t := s[at..];
    if masked && |t| >= 4 + n {
      assert t[..4] == s[at..at + 4] && t[4..4 + n] == s[at + 4..at + 4 + n] && t[4 + n..] == s[at + 4 + n..];
      MaskUnmasks(t[..4], t[4..4 + n]);
      if Unmasked(payload, t[..4], t[4..4 + n]) {
        UnmaskedIsUnique(payload, Mask(t[4..4 + n], t[..4]), t[..4], t[4..4 + n]);
      }
    }
    if !masked && |t| >= n {
      assert t[..n] == s[at..at + n] && t[n..] == s[at + n..];
    }
  }

  lemma DecodeByLength(s: Bytes, at: nat, n: nat)
    requires LengthField(s) == Some((at, n))
    ensures at <= |s|
    ensures Decode(s) ==
      if n > 1_000_000 then (Err(TooLarge), s[at..])
      else match ReadBody(s[1] >= 128, n, s[at..])
        case Err(e) => (Err(e), [])
        case Ok((payload, rest)) => (Ok(Frame(s[0] % 16, payload)), rest)
  {
    LengthFieldIsRead(s);
  }

  /** The reader takes a frame from a stream exactly when the stream begins with that frame. */
  lemma DecodeIff(s: Bytes, f: Frame, rest: Bytes)
    ensures Decode(s) == (Ok(f), rest) <==> BeginsWith(s, f, rest)
  {
    if LengthField(s).Some? {
      var (at, n) := LengthField(s).value;
      DecodeByLength(s, at, n);
      BodyIsRead(s, at, n, s[1] >= 128, f.payload, rest);
    } else if |s| >= 2 {
      LengthFieldIsRead(s);
    }
  }

  /** It refuses a frame as too large exactly when its length field says more than 1,000,000. */
  lemma TooLargeIff(s: Bytes)
    ensures Decode(s).0 == Err(TooLarge) <==> LengthField(s).Some? && LengthField(s).value.1 > 1_000_000
  {
    if |s| >= 2 {
      LengthFieldIsRead(s);
    }
  }

  /** The writer's bytes: a final frame with the opcode, no mask, and the length field of the payload, which
      ends the frame. */
  lemma WrittenBytesAre(f: Frame)
    requires f.opcode < 16 && |f.payload| < Pow256(8)
    ensures var e, n := Encode(f), |f.payload|;
      && |e| >= 2 && e[0] == 128 + f.opcode && e[1] < 128
      && LengthField(e) == Some((|e| - n, n)) && e[|e| - n..] == f.payload
  {
    var e, n := Encode(f), |f.payload|;
    var tail := Extended(n) + f.payload;
    assert e == [SetHigh(f.opcode), Len7(n)] + tail;
    assert e[2..] == tail && e[1] == Len7(n) == Low7(e[1]);
    LengthRoundTrip(n, f.payload);
    LengthFieldIsRead(e);
  }
}
