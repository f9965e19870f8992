// WebSocket framing of the fallback branch (src/CurlTransport.cpp): the frames that
// `send` builds, the pong replies, and the resumable decoder.
module ByteBits {
  // A byte is a number; its bits are looked at only where the code does.
  type Byte = b: int | 0 <= b < 256

  /** The bits of a byte, counted up to it. */
  function Bits(b: Byte): (v: bv8)
    ensures v as int == b
  {
    if b == 0 then 0
    else
      NextBits(Bits(b - 1));
      Bits(b - 1) + 1
  }

  lemma NextBits(v: bv8)
    requires v as int < 255
    ensures (v + 1) as int == v as int + 1
  {
    SmallBits(v);
  }

  lemma SmallBits(v: bv8)
    ensures v < 255 <==> v as int < 255
  {
  }

  function Unbits(v: bv8): (b: Byte)
    ensures Bits(b) == v
  {
    UnbitsBack(v);
    UnbitsBack(Bits(v as int));
    v as int
  }

  lemma UnbitsBack(v: bv8)
    ensures 0 <= v as int < 256 && (v as int) as bv8 == v
  {
  }

  function Xor(a: Byte, b: Byte): (c: Byte) { Unbits(Bits(a) ^ Bits(b)) }

  lemma XorTwice(a: Byte, m: Byte)
    ensures Xor(Xor(a, m), m) == a
  {
    BitXorTwice(Bits(a), Bits(m));
    assert Unbits(Bits(a)) == a;
  }

  lemma BitXorTwice(a: bv8, m: bv8)
    ensures (a ^ m) ^ m == a
  {
  }

  /** Bit i of a number. */
  function Bit(n: nat, i: nat): (r: nat)
    ensures r < 2
  {
    if i == 0 then n % 2 else Bit(n / 2, i - 1)
  }

  lemma Halved(v: bv8)
    ensures (v >> 1) as int == v as int / 2 && (v & 1) as int == v as int % 2
  {
  }

  lemma LowXor(a: bv8, m: bv8, x: bv8)
    requires x == a ^ m
    ensures x as int % 2 == (a as int % 2 + m as int % 2) % 2
  {
    Halved(a);
    Halved(m);
    Halved(x);
    assert x & 1 == (a & 1) ^ (m & 1);
  }

  lemma {:induction false} BitOfXor(a: bv8, m: bv8, x: bv8, i: nat)
    requires x == a ^ m
    ensures Bit(x as int, i) == (Bit(a as int, i) + Bit(m as int, i)) % 2
    decreases i
  {
    if i == 0 {
      LowXor(a, m, x);
    } else {
      Halved(a);
      Halved(m);
      Halved(x);
      assert x >> 1 == (a >> 1) ^ (m >> 1);
      BitOfXor(a >> 1, m >> 1, x >> 1, i - 1);
    }
  }

  /** A bit of the result is set exactly when one of the two bits is. */
  lemma XorExact(a: Byte, m: Byte, i: nat)
    ensures Bit(Xor(a, m), i) == 1 <==> (Bit(a, i) == 1) != (Bit(m, i) == 1)
  {
    BitOfXor(Bits(a), Bits(m), Bits(Xor(a, m)), i);
  }

  /** The eight bits are the byte. */
  lemma BitsTell(a: Byte, b: Byte)
    requires forall i :: 0 <= i < 8 ==> Bit(a, i) == Bit(b, i)
    ensures a == b
  {
    SameBits(a, b, 8);
  }

  function Power2(n: nat): (p: nat) { if n == 0 then 1 else 2 * Power2(n - 1) }

  lemma {:induction false} SameBits(a: nat, b: nat, n: nat)
    requires a < Power2(n) && b < Power2(n) && forall i :: 0 <= i < n ==> Bit(a, i) == Bit(b, i)
    ensures a == b
    decreases n
  {
    if n > 0 {
      assert Bit(a, 0) == Bit(b, 0);
      forall i | 0 <= i < n - 1 ensures Bit(a / 2, i) == Bit(b / 2, i) {
        assert Bit(a, i + 1) == Bit(b, i + 1);
      }
      SameBits(a / 2, b / 2, n - 1);
    }
  }

  // The masks of the code as arithmetic: b & 0x0F, b & 0x80 != 0, b & 0x7F, and the
  // low byte of 0x80 | n.
  function Opcode(b: Byte): (r: Byte) { b % 16 }

  predicate HasMask(b: Byte) { b >= 128 }

  function LengthCode(b: Byte): (r: Byte) { b % 128 }

  function LengthByte(n: nat): (r: Byte) { 128 + n % 128 }

  function Low(n: nat): (b: Byte) { n % 256 }

  /** They are those bit operations. */
  lemma BitMeaning(b: Byte)
    ensures (Bits(b) & 0x0F) as int == Opcode(b) && (Bits(b) & 0x7F) as int == LengthCode(b)
    ensures Bits(b) & 0x80 != 0 <==> HasMask(b)
  {
    BitMasks(Bits(b));
  }

  lemma LengthByteMeaning(n: nat)
    ensures (0x80 | Bits(Low(n))) as int == LengthByte(n)
  {
    TopBit(Bits(Low(n)));
    LowTwice(n);
  }

  lemma LowTwice(n: nat)
    ensures Low(n) % 128 == n % 128
  {
    var q, r := n / 256, n % 256;
    if r < 128 {
      assert n / 128 == 2 * q;
    } else {
      assert n / 128 == 2 * q + 1;
    }
  }

  lemma BitMasks(v: bv8)
    ensures (v & 0x0F) as int == v as int % 16 && (v & 0x7F) as int == v as int % 128
    ensures v & 0x80 != 0 <==> v as int >= 128
  {
  }

  lemma TopBit(v: bv8)
    ensures (0x80 | v) as int == 128 + v as int % 128
  {
    assert 0x80 | v == 0x80 + (v & 0x7F);
    BitMasks(v);
    TopBitSum(v & 0x7F);
  }

  lemma TopBitSum(v: bv8)
    requires v < 128
    ensures (0x80 + v) as int == 128 + v as int
  {
  }

  /** `<< 8` and `|` put one more byte at the low end of a length below 2^56. */
  lemma ShiftOr(v: bv64, b: bv8, next: bv64)
    requires v as int < 0x100_0000_0000_0000 && next == (v << 8) | (b as bv64)
    ensures next as int == v as int * 256 + b as int
  {
    Below(v);
    ShortShiftOr(v, b, next);
  }

  lemma Below(v: bv64)
    requires v as int < 0x100_0000_0000_0000
    ensures v < 0x100_0000_0000_0000
  {
  }

  lemma ShortShiftOr(v: bv64, b: bv8, next: bv64)
    requires v < 0x100_0000_0000_0000 && next == (v << 8) | (b as bv64)
    ensures next as int == v as int * 256 + b as int
  {
  }
}

module WsFrames {
  import opened Prelude
  import opened ByteBits

  type Bytes = seq<Byte>
  type Mask = m: Bytes | |m| == 4 witness [0, 0, 0, 0]

  // ---- Numbers, most significant byte first

  /** The low k*8 bits of n, most significant byte first. */
  function BigEndian(n: nat, k: nat): (s: Bytes)
    ensures |s| == k
  {
    if k == 0 then [] else BigEndian(n / 256, k - 1) + [Low(n)]
  }

  function Number(s: Bytes): (n: nat) {
    if s == [] then 0 else Number(s[..|s| - 1]) * 256 + s[|s| - 1]
  }

  /** n >> 8*k. */
  function Shift(n: nat, k: nat): (r: nat) {
    if k == 0 then n else Shift(n, k - 1) / 256
  }

  function Pow256(k: nat): (p: nat)
    ensures p > 0
  {
    if k == 0 then 1 else 256 * Pow256(k - 1)
  }

  lemma {:induction false} NumberOfBigEndian(n: nat, k: nat)
    requires n < Pow256(k)
    ensures Number(BigEndian(n, k)) == n
  {
    if k > 0 {
      NumberOfBigEndian(n / 256, k - 1);
      var s := BigEndian(n, k);
      assert s[..k - 1] == BigEndian(n / 256, k - 1);
    }
  }

  lemma {:induction false} NumberBound(s: Bytes)
    ensures Number(s) < Pow256(|s|)
  {
    if s != [] {
      NumberBound(s[..|s| - 1]);
    }
  }

  lemma Pow256Values()
    ensures Pow256(2) == 0x1_0000 && Pow256(8) == WORD
  {
    assert Pow256(4) == 256 * (256 * (256 * (256 * Pow256(0))));
    assert Pow256(8) == 256 * (256 * (256 * (256 * Pow256(4))));
  }

  function Masked(payload: Bytes, mask: Mask): (r: Bytes)
    ensures |r| == |payload|
    ensures forall i :: 0 <= i < |r| ==> r[i] == Xor(payload[i], mask[i % 4])
  {
    seq(|payload|, i requires 0 <= i < |payload| => Xor(payload[i], mask[i % 4]))
  }

  lemma MaskedTwice(payload: Bytes, mask: Mask)
    ensures Masked(Masked(payload, mask), mask) == payload
  {
    forall i | 0 <= i < |payload|
      ensures Masked(Masked(payload, mask), mask)[i] == payload[i]
    {
      XorTwice(payload[i], mask[i % 4]);
    }
  }

  /** A pass of the length loop: the 64-bit word stays the number of the bytes read. */
  lemma LengthPass(front: Bytes, b: Byte, v: bv64, next: bv64)
    requires |front| <= 7 && v as int == Number(front)
    requires next == (v << 8) | (Bits(b) as bv64)
    ensures next as int == Number(front + [b])
  {
    NumberBound(front);
    SevenBytes(|front|);
    ShiftOr(v, Bits(b), next);
    assert (front + [b])[..|front|] == front;
  }

  /** That loop, for the two and the eight length bytes. */
  method ShiftIn(s: Bytes) returns (length: bv64)
    requires |s| <= 8
    ensures length as int == Number(s)
  {
    length := 0;
    for i := 0 to |s|
      invariant length as int == Number(s[..i])
    {
      var before := length;
      length := (length << 8) | (Bits(s[i]) as bv64);
      LengthPass(s[..i], s[i], before, length);
      assert s[..i] + [s[i]] == s[..i + 1];
    }
    assert s[..|s|] == s;
  }

  lemma SevenBytes(k: nat)
    requires k <= 7
    ensures Pow256(k) <= 0x100_0000_0000_0000
  {
    assert Pow256(4) == 256 * (256 * (256 * (256 * Pow256(0))));
    assert Pow256(7) == 256 * (256 * (256 * Pow256(4)));
  }

  // ---- Encoding

  function LengthField(n: nat): (s: Bytes)
    requires n < WORD
  {
    if n <= 125 then [LengthByte(n)]
    else if n <= 0xFFFF then [LengthByte(126)] + BigEndian(n, 2)
    else [LengthByte(127)] + BigEndian(n, 8)
  }

  /** A final text frame, as a client must send it: masked. */
  function TextFrame(payload: Bytes, mask: Mask): (frame: Bytes)
    requires |payload| < WORD
  {
    [0x81] + LengthField(|payload|) + mask + Masked(payload, mask)
  }

  function PongFrame(payload: Bytes, mask: Mask): (frame: Bytes) {
    [0x8A, LengthByte(|payload|)] + mask + Masked(payload, mask)
  }

  // Status code 1000, normal closure.
  const REASON: Bytes := [0x03, 0xE8]

  function CloseFrame(mask: Mask): (frame: Bytes) {
    [0x88, LengthByte(|REASON|)] + mask + Masked(REASON, mask)
  }

  /** The payload on the wire, bit for bit: the mask key lies before it, and a bit is
      set exactly when one of the payload's and the key's is. */
  ghost predicate MaskedTail(frame: Bytes, payload: Bytes, mask: Mask) {
    var n := |frame| - |payload|;
    && n >= 4 && frame[n - 4..n] == mask
    && forall i, k :: 0 <= i < |payload| && 0 <= k < 8 ==>
         (Bit(frame[n + i], k) == 1 <==> (Bit(payload[i], k) == 1) != (Bit(mask[i % 4], k) == 1))
  }

  lemma TailIsMasked(head: Bytes, payload: Bytes, mask: Mask)
    ensures MaskedTail(head + mask + Masked(payload, mask), payload, mask)
  {
    var frame, n := head + mask + Masked(payload, mask), |head| + 4;
    assert frame[n - 4..n] == mask;
    forall i, k | 0 <= i < |payload| && 0 <= k < 8
      ensures Bit(frame[n + i], k) == 1 <==> (Bit(payload[i], k) == 1) != (Bit(mask[i % 4], k) == 1)
    {
      assert frame[n + i] == Xor(payload[i], mask[i % 4]);
      XorExact(payload[i], mask[i % 4], k);
    }
  }

  /** Every frame the client builds: its payload is masked on the wire. */
  lemma FramesAreMasked(payload: Bytes, mask: Mask)
    requires |payload| < WORD
    ensures MaskedTail(TextFrame(payload, mask), payload, mask)
    ensures MaskedTail(PongFrame(payload, mask), payload, mask)
    ensures MaskedTail(CloseFrame(mask), REASON, mask)
  {
    TailIsMasked([0x81] + LengthField(|payload|), payload, mask);
    TailIsMasked([0x8A, LengthByte(|payload|)], payload, mask);
    TailIsMasked([0x88, LengthByte(|REASON|)], REASON, mask);
  }

  /** The first two bytes of a frame: the top four bits are 1000, final and no reserved
      bit, the others are the opcode, and the mask bit is set. */
  predicate FinalMasked(frame: Bytes, opcode: Byte) {
    |frame| >= 2 && frame[0] == 8 * 16 + opcode && HasMask(frame[1])
  }

  /** Every frame the client builds is final and masked (section 5.2 of RFC 6455). */
  lemma FramesAreFinal(payload: Bytes, mask: Mask)
    requires |payload| < WORD
    ensures FinalMasked(TextFrame(payload, mask), 0x01)
    ensures FinalMasked(PongFrame(payload, mask), 0x0A)
    ensures FinalMasked(CloseFrame(mask), 0x08)
  {
  }

  // ---- Decoding one frame

  datatype Frame = Frame(opcode: Byte, payload: Bytes, size: nat)

  // Where a header ends and how long its payload is.
  datatype Header = Header(opcode: Byte, masked: bool, size: nat, length: nat)

  /** The header at the front of the buffer, once all of its length field is there. */
  function DecodeHeader(buf: Bytes): (r: Option<Header>)
    ensures r.Some? ==> r.value.size >= if r.value.masked then 6 else 2
  {
    if |buf| < 2 then None
    else
      var code, extra := LengthCode(buf[1]), if HasMask(buf[1]) then 4 else 0;
      if code == 126 then
        if |buf| < 4 then None else Some(Header(Opcode(buf[0]), HasMask(buf[1]), 4 + extra, Number(buf[2..4])))
      else if code == 127 then
        if |buf| < 10 then None else Some(Header(Opcode(buf[0]), HasMask(buf[1]), 10 + extra, Number(buf[2..10])))
      else Some(Header(Opcode(buf[0]), HasMask(buf[1]), 2 + extra, code))
  }

  function PayloadAt(buf: Bytes, h: Header): (payload: Bytes)
    requires h.size + h.length <= |buf| && (h.masked ==> h.size >= 4)
  {
    var raw := buf[h.size..h.size + h.length];
    if h.masked then Masked(raw, buf[h.size - 4..h.size]) else raw
  }

  /** The complete frame at the front of the buffer, if there is one. */
  function Decode(buf: Bytes): (r: Option<Frame>)
    ensures r.Some? ==> 2 <= r.value.size <= |buf|
  {
    var h := DecodeHeader(buf);
    if h.None? || |buf| < h.value.size + h.value.length then None
    else Some(Frame(h.value.opcode, PayloadAt(buf, h.value), h.value.size + h.value.length))
  }

  lemma HeaderStable(buf: Bytes, more: Bytes)
    requires DecodeHeader(buf).Some?
    ensures DecodeHeader(buf + more) == DecodeHeader(buf)
  {
    var s := buf + more;
    assert s[0] == buf[0] && s[1] == buf[1];
    if |buf| >= 4 {
      assert s[2..4] == buf[2..4];
    }
    if |buf| >= 10 {
      assert s[2..10] == buf[2..10];
    }
  }

  /** More bytes behind a complete frame change nothing about it. */
  lemma DecodeStable(buf: Bytes, more: Bytes)
    requires Decode(buf).Some?
    ensures Decode(buf + more) == Decode(buf)
  {
    HeaderStable(buf, more);
    var h := DecodeHeader(buf).value;
    assert (buf + more)[h.size..h.size + h.length] == buf[h.size..h.size + h.length];
    if h.masked {
      assert (buf + more)[h.size - 4..h.size] == buf[h.size - 4..h.size];
    }
  }

  function Zeros(k: nat): (s: Bytes)
    ensures |s| == k
  {
    seq(k, _ => 0)
  }

  ghost predicate Completes(buf: Bytes, more: Bytes) {
    more != [] && Decode(buf + more).Some? && Decode(buf + more).value.size == |buf + more|
  }

  /** Zero bytes that complete the header. */
  function HeaderPadding(buf: Bytes): (pad: Bytes)
    ensures DecodeHeader(buf + pad).Some?
    ensures DecodeHeader(buf).Some? ==> pad == []
    ensures DecodeHeader(buf).None? ==> |buf + pad| <= DecodeHeader(buf + pad).value.size
  {
    var second := if |buf| < 2 then 0 else buf[1];
    var code := LengthCode(second);
    var want := if code == 126 then 4 else if code == 127 then 10 else 2;
    var pad := Zeros(if |buf| < want then want - |buf| else 0);
    assert (buf + pad)[1] == second;
    assert buf + [] == buf;
    pad
  }

  lemma PaddedDecodes(buf: Bytes, size: nat)
    requires DecodeHeader(buf).Some? && size == DecodeHeader(buf).value.size + DecodeHeader(buf).value.length
    requires |buf| <= size
    ensures Decode(buf + Zeros(size - |buf|)).Some? && Decode(buf + Zeros(size - |buf|)).value.size == size
  {
    HeaderStable(buf, Zeros(size - |buf|));
  }

  /** What the decoder cannot read yet is a strict prefix of one frame: some
      non-empty completion makes it exactly one frame. */
  lemma LeftoverIsStrictPrefix(buf: Bytes)
    requires Decode(buf).None?
    ensures exists more :: Completes(buf, more)
  {
    var open := buf + HeaderPadding(buf);
    assert buf + [] == buf;
    var h := DecodeHeader(open).value;
    var size := h.size + h.length;
    PaddedDecodes(open, size);
    var more := HeaderPadding(buf) + Zeros(size - |open|);
    assert buf + more == open + Zeros(size - |open|);
    assert Completes(buf, more);
  }

  // ---- One frame, there and back

  lemma LongHeader(b1: Byte, b2: Byte, field: Bytes, rest: Bytes)
    requires (LengthCode(b2) == 126 && |field| == 2) || (LengthCode(b2) == 127 && |field| == 8)
    ensures DecodeHeader([b1, b2] + field + rest)
         == Some(Header(Opcode(b1), HasMask(b2), 2 + |field| + (if HasMask(b2) then 4 else 0), Number(field)))
  {
    var buf := [b1, b2] + field + rest;
    assert buf[0] == b1 && buf[1] == b2;
    assert buf[2..2 + |field|] == field;
  }

  lemma LengthFieldRead(b1: Byte, n: nat, rest: Bytes)
    requires n < WORD
    ensures DecodeHeader([b1] + LengthField(n) + rest)
         == Some(Header(Opcode(b1), true, 1 + |LengthField(n)| + 4, n))
  {
    var buf := [b1] + LengthField(n) + rest;
    if n <= 125 {
      assert buf[0] == b1 && buf[1] == LengthByte(n);
    } else {
      LongLengthRead(b1, if n <= 0xFFFF then 126 else 127, if n <= 0xFFFF then 2 else 8, n, rest);
    }
  }

  lemma LongLengthRead(b1: Byte, code: Byte, k: nat, n: nat, rest: Bytes)
    requires (code == 126 && k == 2 && n < 0x1_0000) || (code == 127 && k == 8 && n < WORD)
    ensures DecodeHeader([b1] + ([LengthByte(code)] + BigEndian(n, k)) + rest)
         == Some(Header(Opcode(b1), true, 2 + k + 4, n))
  {
    var field := BigEndian(n, k);
    Pow256Values();
    NumberOfBigEndian(n, k);
    LongHeader(b1, LengthByte(code), field, rest);
    assert [b1] + ([LengthByte(code)] + field) == [b1, LengthByte(code)] + field;
  }

  /** A masked frame behind any header is unmasked. */
  lemma MaskedFrameRead(buf: Bytes, h: Header, payload: Bytes, mask: Mask, rest: Bytes)
    requires DecodeHeader(buf) == Some(h) && h.masked && h.length == |payload|
    requires h.size + |payload| == |buf|
    requires buf[h.size - 4..h.size] == mask && buf[h.size..] == Masked(payload, mask)
    ensures Decode(buf + rest) == Some(Frame(h.opcode, payload, |buf|))
  {
    assert buf[h.size..h.size + h.length] == buf[h.size..];
    MaskedTwice(payload, mask);
    DecodeStable(buf, rest);
  }

  /** Decoding what `send` built returns the payload and consumes exactly those
      bytes, whatever comes behind them. */
  lemma TextFrameRoundTrip(payload: Bytes, mask: Mask, rest: Bytes)
    requires |payload| < WORD
    ensures Decode(TextFrame(payload, mask) + rest)
         == Some(Frame(0x01, payload, |TextFrame(payload, mask)|))
  {
    LengthFieldRead(0x81, |payload|, mask + Masked(payload, mask));
    MaskedTextRead(LengthField(|payload|), payload, mask, rest);
  }

  lemma MaskedTextRead(field: Bytes, payload: Bytes, mask: Mask, rest: Bytes)
    requires DecodeHeader([0x81] + field + (mask + Masked(payload, mask)))
          == Some(Header(0x01, true, 1 + |field| + 4, |payload|))
    ensures var buf := [0x81] + field + mask + Masked(payload, mask);
            Decode(buf + rest) == Some(Frame(0x01, payload, |buf|))
  {
    var head := [0x81] + field;
    var buf := head + mask + Masked(payload, mask);
    assert buf == head + (mask + Masked(payload, mask));
    SliceMask(head, mask, Masked(payload, mask));
    MaskedFrameRead(buf, Header(0x01, true, |head| + 4, |payload|), payload, mask, rest);
  }

  /** The close frame is a close frame for its decoder, with status code 1000. */
  lemma CloseRoundTrip(mask: Mask, rest: Bytes)
    ensures Decode(CloseFrame(mask) + rest) == Some(Frame(0x08, REASON, 8)) && Number(REASON) == 1000
  {
    var head: Bytes := [0x88, LengthByte(|REASON|)];
    var buf := CloseFrame(mask);
    assert buf[0] == 0x88 && buf[1] == 130;
    assert DecodeHeader(buf) == Some(Header(0x08, true, 6, 2));
    SliceMask(head, mask, Masked(REASON, mask));
    MaskedFrameRead(buf, Header(0x08, true, 6, 2), REASON, mask, rest);
    assert REASON[..1] == [0x03] && [0x03][..0] == [];
    assert Number([0x03]) == Number([]) * 256 + 0x03;
  }

  lemma SliceMask(head: Bytes, mask: Mask, tail: Bytes)
    ensures (head + mask + tail)[|head|..|head| + 4] == mask && (head + mask + tail)[|head| + 4..] == tail
  {
  }

  // ---- What a server sends: no mask

  /** A final text frame of a server. */
  function ServerFrame(payload: Bytes): (frame: Bytes)
    requires |payload| < WORD
  {
    var n := |payload|;
    (if n <= 125 then [0x81, n]
     else if n <= 0xFFFF then [0x81, 126] + BigEndian(n, 2)
     else [0x81, 127] + BigEndian(n, 8))
    + payload
  }

  lemma ServerHeader(payload: Bytes)
    requires |payload| < WORD
    ensures var size := |ServerFrame(payload)| - |payload|;
      DecodeHeader(ServerFrame(payload)) == Some(Header(0x01, false, size, |payload|))
  {
    var n, buf := |payload|, ServerFrame(payload);
    if n <= 125 {
      assert buf[0] == 0x81 && buf[1] == n;
    } else {
      var code: Byte, k := if n <= 0xFFFF then 126 else 127, if n <= 0xFFFF then 2 else 8;
      Pow256Values();
      NumberOfBigEndian(n, k);
      LongHeader(0x81, code, BigEndian(n, k), payload);
      assert buf == [0x81, code] + BigEndian(n, k) + payload;
    }
  }

  /** It decodes to its payload and to nothing else. */
  lemma ServerFrameRead(payload: Bytes)
    requires |payload| < WORD
    ensures Decode(ServerFrame(payload)) == Some(Frame(0x01, payload, |ServerFrame(payload)|))
  {
    ServerHeader(payload);
    var buf, size := ServerFrame(payload), |ServerFrame(payload)| - |payload|;
    assert buf[size..size + |payload|] == payload;
  }

  /** The encoder picks the shortest form: no byte string that is exactly one
      masked frame with the same payload is shorter (RFC 6455, section 5.2). */
  lemma TextFrameShortest(payload: Bytes, mask: Mask, other: Bytes)
    requires |payload| < WORD
    requires |other| >= 2 && HasMask(other[1])
    requires Decode(other).Some? && Decode(other).value.payload == payload && Decode(other).value.size == |other|
    ensures |TextFrame(payload, mask)| <= |other|
  {
    Pow256Values();
    if |other| >= 4 {
      NumberBound(other[2..4]);
    }
  }

  /** A pong decodes to the payload of the ping exactly when that has at most 125
      bytes; the reply to a longer ping is read as something else. */
  lemma PongRoundTrip(payload: Bytes, mask: Mask, rest: Bytes)
    ensures Decode(PongFrame(payload, mask) + rest) == Some(Frame(0x0A, payload, |PongFrame(payload, mask)|))
       <==> |payload| <= 125
  {
    if |payload| <= 125 {
      ShortPong(payload, mask, rest);
    } else {
      LongPong(payload, mask, rest);
    }
  }

  lemma ShortPong(payload: Bytes, mask: Mask, rest: Bytes)
    requires |payload| <= 125
    ensures Decode(PongFrame(payload, mask) + rest) == Some(Frame(0x0A, payload, |PongFrame(payload, mask)|))
  {
    var buf := PongFrame(payload, mask);
    var head := [0x8A, LengthByte(|payload|)];
    SliceMask(head, mask, Masked(payload, mask));
    assert buf[0] == 0x8A && buf[1] == LengthByte(|payload|);
    MaskedFrameRead(buf, Header(0x0A, true, 6, |payload|), payload, mask, rest);
  }

  /** The first ping that is not echoed: 126 bytes. */
  lemma PongOf126(mask: Mask)
    ensures Decode(PongFrame(Zeros(126), mask)) != Some(Frame(0x0A, Zeros(126), |PongFrame(Zeros(126), mask)|))
  {
    PongRoundTrip(Zeros(126), mask, []);
    assert PongFrame(Zeros(126), mask) + [] == PongFrame(Zeros(126), mask);
  }

  /** The length byte of a longer pong holds the length modulo 128 only. */
  lemma LongPong(payload: Bytes, mask: Mask, rest: Bytes)
    requires |payload| > 125
    ensures Decode(PongFrame(payload, mask) + rest) != Some(Frame(0x0A, payload, |PongFrame(payload, mask)|))
  {
    var all := PongFrame(payload, mask) + rest;
    assert all[1] == LengthByte(|payload|);
    assert LengthCode(all[1]) == |payload| % 128;
  }
}

module WsReceiver {
  import opened Prelude
  import opened ByteBits
  import opened WsFrames

  datatype Event = Data(payload: Bytes) | Ping(payload: Bytes) | Close

  // What a run of the decoder did: its events, the bytes it kept, whether a close
  // frame ended it.
  datatype Drain = Drain(events: seq<Event>, rest: Bytes, closed: bool)

  function Meaning(f: Frame): (es: seq<Event>) {
    if f.opcode == 0x01 || f.opcode == 0x02 then [Data(f.payload)]
    else if f.opcode == 0x08 then [Close]
    else if f.opcode == 0x09 then [Ping(f.payload)]
    else []
  }

  /** The decoder on a whole buffer: frame by frame until one is incomplete or a
      close frame has been read. */
  function DrainAll(buf: Bytes): (d: Drain)
    decreases |buf|
  {
    var f := Decode(buf);
    if f.None? then Drain([], buf, false)
    else if f.value.opcode == 0x08 then Drain([Close], buf[f.value.size..], true)
    else
      var more := DrainAll(buf[f.value.size..]);
      more.(events := Meaning(f.value) + more.events)
  }

  function After(first: Drain, more: Bytes): (d: Drain) {
    if first.closed then first.(rest := first.rest + more)
    else
      var d := DrainAll(first.rest + more);
      d.(events := first.events + d.events)
  }

  lemma {:induction false} DrainAppend(a: Bytes, b: Bytes)
    ensures DrainAll(a + b) == After(DrainAll(a), b)
    decreases |a|
  {
    var f := Decode(a);
    if f.Some? {
      DecodeStable(a, b);
      var tail := a[f.value.size..];
      assert (a + b)[f.value.size..] == tail + b;
      if f.value.opcode != 0x08 {
        DrainAppend(tail, b);
        AfterPrefix(Meaning(f.value), DrainAll(tail), b);
      }
    } else {
      var more := DrainAll(a + b);
      assert [] + more.events == more.events;
    }
  }

  lemma AfterPrefix(events: seq<Event>, d: Drain, b: Bytes)
    ensures After(d.(events := events + d.events), b) == After(d, b).(events := events + After(d, b).events)
  {
  }

  lemma {:induction false} DrainLeftover(buf: Bytes)
    ensures var d := DrainAll(buf); !d.closed ==> Decode(d.rest).None?
    ensures var d := DrainAll(buf); d.closed <==> Close in d.events
    ensures var d := DrainAll(buf); forall i :: 0 <= i < |d.events| - 1 ==> d.events[i] != Close
    decreases |buf|
  {
    var f := Decode(buf);
    if f.Some? && f.value.opcode != 0x08 {
      DrainLeftover(buf[f.value.size..]);
    }
  }

  // ---- The worker: one read after the other, until a close frame

  function Receive(d: Drain, chunk: Bytes): (r: Drain) {
    if d.closed then d
    else
      var more := DrainAll(d.rest + chunk);
      more.(events := d.events + more.events)
  }

  /** One frame of the decoder's loop: acting on it leaves the same outcome. */
  lemma ReceiveStep(d: Drain)
    requires !d.closed
    ensures var f := Decode(d.rest);
            Receive(d, []) == if f.None? then d else
              Receive(Drain(d.events + Meaning(f.value), d.rest[f.value.size..], f.value.opcode == 0x08), [])
  {
    assert d.rest + [] == d.rest;
    var f := Decode(d.rest);
    if f.Some? && f.value.opcode != 0x08 {
      var tail := d.rest[f.value.size..];
      assert tail + [] == tail;
      Regroup(d.events, Meaning(f.value), DrainAll(tail).events);
    }
  }

  function ReceiveAll(d: Drain, chunks: seq<Bytes>): (r: Drain)
    decreases |chunks|
  {
    if chunks == [] then d else ReceiveAll(Receive(d, chunks[0]), chunks[1..])
  }

  const FRESH := Drain([], [], false)

  ghost predicate SameSession(d: Drain, whole: Drain) {
    d.events == whole.events && d.closed == whole.closed && (!d.closed ==> d.rest == whole.rest)
  }

  lemma ReceiveIsDrain(past: Bytes, d: Drain, chunk: Bytes)
    requires SameSession(d, DrainAll(past))
    ensures SameSession(Receive(d, chunk), DrainAll(past + chunk))
  {
    DrainAppend(past, chunk);
  }

  lemma {:induction false} ReceiveAllIsDrain(past: Bytes, d: Drain, chunks: seq<Bytes>)
    requires SameSession(d, DrainAll(past))
    ensures SameSession(ReceiveAll(d, chunks), DrainAll(past + Flatten(chunks)))
    decreases |chunks|
  {
    if chunks == [] {
      assert past + Flatten(chunks) == past;
    } else {
      var more := Flatten(chunks[1..]);
      assert past + Flatten(chunks) == past + chunks[0] + more;
      ReceiveIsDrain(past, d, chunks[0]);
      ReceiveAllIsDrain(past + chunks[0], Receive(d, chunks[0]), chunks[1..]);
    }
  }

  /** Chunk independence: however the reads cut the bytes, the deliveries, the
      pings answered and the close are those of the whole stream. Nothing follows
      a close, and before a close what is kept is a strict prefix of one frame. */
  lemma ChunkIndependence(chunks: seq<Bytes>, other: seq<Bytes>)
    requires Flatten(chunks) == Flatten(other)
    ensures SameSession(ReceiveAll(FRESH, chunks), DrainAll(Flatten(chunks)))
    ensures ReceiveAll(FRESH, chunks).events == ReceiveAll(FRESH, other).events
    ensures ReceiveAll(FRESH, chunks).closed == ReceiveAll(FRESH, other).closed
    ensures !ReceiveAll(FRESH, chunks).closed ==> ReceiveAll(FRESH, chunks).rest == ReceiveAll(FRESH, other).rest
    ensures var d := ReceiveAll(FRESH, chunks);
            && (d.closed <==> Close in d.events)
            && (forall i :: 0 <= i < |d.events| - 1 ==> d.events[i] != Close)
            && (!d.closed ==> exists more :: Completes(d.rest, more))
  {
    assert DrainAll([]) == FRESH;
    ReceiveAllIsDrain([], FRESH, chunks);
    ReceiveAllIsDrain([], FRESH, other);
    assert [] + Flatten(chunks) == Flatten(chunks);
    DrainLeftover(Flatten(chunks));
    if !DrainAll(Flatten(chunks)).closed {
      LeftoverIsStrictPrefix(DrainAll(Flatten(chunks)).rest);
    }
  }

  // ---- The code

  function Payloads(events: seq<Event>): (ps: seq<Bytes>) {
    if events == [] then []
    else (if events[0].Data? then [events[0].payload] else []) + Payloads(events[1..])
  }

  function Pings(events: seq<Event>): (ps: seq<Bytes>) {
    if events == [] then []
    else (if events[0].Ping? then [events[0].payload] else []) + Pings(events[1..])
  }

  lemma MeaningParts(f: Frame)
    ensures Payloads(Meaning(f)) == if f.opcode == 0x01 || f.opcode == 0x02 then [f.payload] else []
    ensures Pings(Meaning(f)) == if f.opcode == 0x09 then [f.payload] else []
    ensures Close in Meaning(f) <==> f.opcode == 0x08
  {
    assert Payloads([]) == [] && Pings([]) == [];
  }

  lemma PayloadsAppend(a: seq<Event>, b: seq<Event>)
    ensures Payloads(a + b) == Payloads(a) + Payloads(b) && Pings(a + b) == Pings(a) + Pings(b)
  {
    if a == [] {
      assert a + b == b;
    } else {
      var rest := a[1..];
      assert (a + b)[0] == a[0] && (a + b)[1..] == rest + b;
      PayloadsAppend(rest, b);
      Regroup(if a[0].Data? then [a[0].payload] else [], Payloads(rest), Payloads(b));
      Regroup(if a[0].Ping? then [a[0].payload] else [], Pings(rest), Pings(b));
    }
  }

  lemma TakenMore(taken: seq<Event>, f: Frame)
    ensures var now := taken + Meaning(f);
      && Payloads(now) == Payloads(taken) + (if f.opcode == 0x01 || f.opcode == 0x02 then [f.payload] else [])
      && Pings(now) == Pings(taken) + (if f.opcode == 0x09 then [f.payload] else [])
      && (Close in now <==> Close in taken || f.opcode == 0x08)
  {
    PayloadsAppend(taken, Meaning(f));
    MeaningParts(f);
  }

  ghost predicate IsPong(frame: Bytes, payload: Bytes) {
    exists mask: Mask :: frame == PongFrame(payload, mask)
  }

  ghost predicate Pongs(frames: seq<Bytes>, payloads: seq<Bytes>) {
    |frames| == |payloads| && forall i :: 0 <= i < |frames| ==> IsPong(frames[i], payloads[i])
  }

  lemma PongsSnoc(frames: seq<Bytes>, payloads: seq<Bytes>, frame: Bytes, payload: Bytes)
    requires Pongs(frames, payloads) && IsPong(frame, payload)
    ensures Pongs(frames + [frame], payloads + [payload])
  {
  }

  /** Replies, compared after unmasking: each is a pong that decodes to its ping. */
  lemma PongsDecode(frames: seq<Bytes>, payloads: seq<Bytes>, i: nat)
    requires Pongs(frames, payloads) && i < |frames| && |payloads[i]| <= 125
    ensures Decode(frames[i]) == Some(Frame(0x0A, payloads[i], |frames[i]|))
  {
    assert IsPong(frames[i], payloads[i]);
    var mask: Mask :| frames[i] == PongFrame(payloads[i], mask);
    PongRoundTrip(payloads[i], mask, []);
    assert frames[i] + [] == frames[i];
  }

  /** The random mask of a frame. */
  method NextMaskKey() returns (mask: Mask)
  {
    var a: Byte, b: Byte, c: Byte, d: Byte := *, *, *, *;
    mask := [a, b, c, d];
  }

  /** Mask key and masked payload behind a header. */
  method AppendMasked(head: Bytes, payload: Bytes, mask: Mask) returns (frame: Bytes)
    ensures frame == head + mask + Masked(payload, mask)
  {
    frame := head + mask;
    for i := 0 to |payload|
      invariant frame == head + mask + Masked(payload, mask)[..i]
    {
      frame := frame + [Xor(payload[i], mask[i % 4])];
    }
    assert Masked(payload, mask)[..|payload|] == Masked(payload, mask);
  }

  /** The frame that `send` writes. */
  method BuildTextFrame(payload: Bytes, mask: Mask) returns (frame: Bytes)
    requires |payload| < WORD
    ensures frame == TextFrame(payload, mask)
  {
    frame := [0x81];
    var len := |payload|;
    if len <= 125 {
      frame := frame + [LengthByte(len)];
    } else if len <= 0xFFFF {
      frame := frame + [LengthByte(126)];
      frame := frame + [Low(Shift(len, 1))];
      frame := frame + [Low(len)];
      assert Shift(len, 1) == Shift(len, 0) / 256;
      assert BigEndian(len, 2) == BigEndian(len / 256, 1) + [Low(len)];
    } else {
      frame := frame + [LengthByte(127)];
      var length := ShiftOut(len);
      frame := frame + length;
    }
    assert frame == [0x81] + LengthField(len);
    frame := AppendMasked(frame, payload, mask);
  }

  method ShiftOut(len: nat) returns (out: Bytes)
    ensures out == BigEndian(len, 8)
  {
    out := [];
    var i := 7;
    while i >= 0
      invariant -1 <= i <= 7
      invariant out == BigEndian(Shift(len, i + 1), 7 - i)
    {
      out := out + [Low(Shift(len, i))];
      i := i - 1;
    }
  }

  /** The frame that `sendCloseFrame` writes. */
  method BuildClose(mask: Mask) returns (frame: Bytes)
    ensures frame == CloseFrame(mask)
  {
    frame := [0x88];
    frame := frame + [LengthByte(|REASON|)];
    frame := AppendMasked(frame, REASON, mask);
    assert [0x88] + [LengthByte(|REASON|)] == [0x88, LengthByte(|REASON|)];
  }

  method BuildPong(payload: Bytes) returns (pong: Bytes)
    ensures IsPong(pong, payload)
  {
    pong := [0x8A];
    pong := pong + [LengthByte(|payload|)];
    var mask := NextMaskKey();
    pong := AppendMasked(pong, payload, mask);
    assert pong == PongFrame(payload, mask);
  }

  /** The receive buffer of the worker and what its callbacks saw. */
  class FramedReceiver {
    var assembled: Bytes
    var running: bool
    var delivered: seq<Bytes>     // payloads handed to onData
    var replies: seq<Bytes>       // frames handed to tunnelWrite

    ghost var taken: seq<Event>   // every frame acted on, in order

    ghost predicate Valid()
      reads this
    {
      && delivered == Payloads(taken) && Pongs(replies, Pings(taken))
      && (running ==> Close !in taken)
    }

    /** The session so far. */
    ghost function Session(): (d: Drain)
      reads this
    {
      Drain(taken, assembled, !running)
    }

    constructor ()
      ensures Valid() && Session() == FRESH
    {
      assembled, running, delivered, replies, taken := [], true, [], [], [];
    }

    /** One pass of the worker's loop that read `chunk`. */
    method OnReceived(chunk: Bytes)
      requires Valid()
      modifies this
      ensures Valid() && Session() == Receive(old(Session()), chunk)
    {
      if !running {
        return;
      }
      assembled := assembled + chunk;
      DispatchFramedBuffer();
    }

    method DispatchFramedBuffer()
      requires Valid() && running
      modifies this
      ensures Valid()
      ensures var d := DrainAll(old(assembled));
              Session() == d.(events := old(taken) + d.events)
    {
      ghost var goal := Receive(Session(), []);
      assert assembled + [] == assembled;
      while |assembled| >= 2 && running
        invariant Valid() && Receive(Session(), []) == goal
        decreases |assembled|
      {
        ReceiveStep(Session());
        var ok, opcode, payload, size := Split();
        if !ok {
          return;
        }
        Act(opcode, payload, size);
      }
      if running {
        ReceiveStep(Session());
      }
    }

    /** Cut a frame off the buffer and act on it. */
    method Act(opcode: Byte, payload: Bytes, size: nat)
      requires Valid() && running && Decode(assembled) == Some(Frame(opcode, payload, size))
      modifies this
      ensures Valid() && assembled == old(assembled)[size..]
      ensures running <==> opcode != 0x08
      ensures taken == old(taken) + Meaning(Frame(opcode, payload, size))
    {
      assembled := assembled[size..];
      ghost var f := Frame(opcode, payload, size);
      TakenMore(taken, f);
      if opcode == 0x01 || opcode == 0x02 {
        delivered := delivered + [payload];
      } else if opcode == 0x08 {
        running := false;
      } else if opcode == 0x09 {
        var pong := BuildPong(payload);
        PongsSnoc(replies, Pings(taken), pong, payload);
        replies := replies + [pong];
      }
      taken := taken + Meaning(f);
    }

    /** Header and payload of the frame at the front of the buffer. */
    method Split() returns (ok: bool, opcode: Byte, payload: Bytes, size: nat)
      requires |assembled| >= 2
      ensures Decode(assembled) == if ok then Some(Frame(opcode, payload, size)) else None
    {
      var headerSize, payloadLen, masked;
      ok, opcode, masked, headerSize, payloadLen := SplitHeader();
      payload, size := [], 0;
      if !ok || |assembled| < headerSize + payloadLen {
        return false, opcode, payload, size;
      }
      size := headerSize + payloadLen;
      payload := assembled[headerSize..size];
      if masked {
        var mask := assembled[headerSize - 4..headerSize];
        payload := Unmask(payload, mask);
      }
    }

    method SplitHeader() returns (ok: bool, opcode: Byte, masked: bool, headerSize: nat, payloadLen: nat)
      requires |assembled| >= 2
      ensures DecodeHeader(assembled) == if ok then Some(Header(opcode, masked, headerSize, payloadLen)) else None
    {
      var b1, b2 := assembled[0], assembled[1];
      ok, opcode, masked := true, Opcode(b1), HasMask(b2);
      payloadLen, headerSize := LengthCode(b2), 2;
      if payloadLen == 126 {
        if |assembled| < 4 {
          return false, opcode, masked, 0, 0;
        }
        var word := ShiftIn(assembled[2..4]);
        payloadLen, headerSize := word as int, 4;
      } else if payloadLen == 127 {
        if |assembled| < 10 {
          return false, opcode, masked, 0, 0;
        }
        var word := ShiftIn(assembled[2..10]);
        payloadLen, headerSize := word as int, 10;
      }
      if masked {
        headerSize := headerSize + 4;
      }
    }
  }

  method Unmask(raw: Bytes, mask: Mask) returns (payload: Bytes)
    ensures payload == Masked(raw, mask)
  {
    payload := raw;
    for i := 0 to |raw|
      invariant |payload| == |raw|
      invariant forall j :: 0 <= j < |raw| ==> payload[j] == if j < i then Xor(raw[j], mask[j % 4]) else raw[j]
    {
      payload := payload[i := Xor(payload[i], mask[i % 4])];
    }
  }
}
