/** WebSocket framing: the standard's format (section 5.2 of RFC 6455), the frames the server writes,
    and the header accounting of its incremental parser. */
module Frames {

  /** Bit operations on bytes are written arithmetically: & 0x7f is % 128, & 0x0f is % 16, & 0x80 tests
      for 128 or more, and | of bits that do not overlap is +. */
  newtype byte = x: int | 0 <= x < 256

  type Bytes = seq<byte>

  datatype Option<+T> = None | Some(value: T)

  /** Sizes are 64-bit words. */
  const WORD := 0x1_0000_0000_0000_0000

  // ---------------------------------------------------------------- big-endian numbers

  function Power(k: nat): nat {
    if k == 0 then 1 else 256 * Power(k - 1)
  }

  function BigEndian(n: nat, k: nat): (b: Bytes)
    ensures |b| == k
  {
    if k == 0 then [] else BigEndian(n / 256, k - 1) + [(n % 256) as byte]
  }

  function FromBigEndian(b: Bytes): nat {
    if b == [] then 0 else FromBigEndian(b[..|b| - 1]) * 256 + b[|b| - 1] as int
  }

  lemma {:induction false} BigEndianRoundTrip(n: nat, k: nat)
    requires n < Power(k)
    ensures FromBigEndian(BigEndian(n, k)) == n
  {
    if k > 0 {
      var b := BigEndian(n, k);
      assert n / 256 < Power(k - 1);
      BigEndianRoundTrip(n / 256, k - 1);
      assert b[..k - 1] == BigEndian(n / 256, k - 1);
    }
  }

  lemma {:induction false} FromBigEndianBound(b: Bytes)
    ensures FromBigEndian(b) < Power(|b|)
  {
    if b != [] {
      FromBigEndianBound(b[..|b| - 1]);
    }
  }

  /** The most significant byte comes first: what follows shifts a number up, one byte stands for itself. */
  lemma {:induction false} BigEndianWeighs(a: Bytes, b: Bytes)
    ensures FromBigEndian(a + b) == FromBigEndian(a) * Power(|b|) + FromBigEndian(b)
    ensures |b| == 1 ==> FromBigEndian(b) == b[0] as int
  {
    if b == [] {
      assert a + b == a;
    } else {
      var init, last := b[..|b| - 1], b[|b| - 1] as int;
      assert (a + b)[..|a + b| - 1] == a + init;
      BigEndianWeighs(a, init);
      Shifted(FromBigEndian(a), Power(|init|), FromBigEndian(init), last);
    }
  }

  lemma Shifted(n: nat, power: nat, m: nat, last: nat)
    ensures (n * power + m) * 256 + last == n * (256 * power) + (m * 256 + last)
  {
  }

  lemma Powers()
    ensures Power(2) == 65536 && Power(8) == WORD
  {
    assert Power(4) == 256 * 256 * 256 * 256;
  }

  // ---------------------------------------------------------------- the standard

  datatype Frame = Frame(fin: bool, opcode: nat, masked: bool, payload: Bytes)

  datatype Decoded = Incomplete | Complete(frame: Frame, size: nat)

  /** Exclusive or of the low k bits. */
  function XorBits(a: nat, b: nat, k: nat): nat {
    if k == 0 then 0 else (if a % 2 == b % 2 then 0 else 1) + 2 * XorBits(a / 2, b / 2, k - 1)
  }

  lemma {:induction false} XorBitsBound(a: nat, b: nat, k: nat)
    ensures 2 * XorBits(a, b, k) <= 2 * TwoTo(k) - 2
  {
    if k > 0 {
      XorBitsBound(a / 2, b / 2, k - 1);
    }
  }

  lemma {:induction false} XorBitsTwice(a: nat, b: nat, k: nat)
    requires a < TwoTo(k)
    ensures XorBits(XorBits(a, b, k), b, k) == a
  {
    if k > 0 {
      var low := if a % 2 == b % 2 then 0 else 1;
      var high := XorBits(a / 2, b / 2, k - 1);
      assert (low + 2 * high) / 2 == high && (low + 2 * high) % 2 == low;
      XorBitsTwice(a / 2, b / 2, k - 1);
      assert a == a % 2 + 2 * (a / 2);
    }
  }

  /** Bit i of a number, the least significant first. */
  function BitAt(a: nat, i: nat): nat {
    if i == 0 then a % 2 else BitAt(a / 2, i - 1)
  }

  /** A bit of the exclusive or is set exactly where the two operands' bits differ. */
  lemma {:induction false} XorBitwise(a: nat, b: nat, k: nat, i: nat)
    requires i < k
    ensures BitAt(XorBits(a, b, k), i) == 1 <==> BitAt(a, i) != BitAt(b, i)
  {
    assert XorBits(a, b, k) / 2 == XorBits(a / 2, b / 2, k - 1);
    if i > 0 {
      XorBitwise(a / 2, b / 2, k - 1, i - 1);
    }
  }

  function TwoTo(k: nat): nat {
    if k == 0 then 1 else 2 * TwoTo(k - 1)
  }

  function XorByte(a: byte, b: byte): byte {
    XorBitsBound(a as int, b as int, 8);
    assert TwoTo(4) == 16;
    XorBits(a as int, b as int, 8) as byte
  }

  lemma XorByteTwice(a: byte, b: byte)
    ensures XorByte(XorByte(a, b), b) == a
  {
    assert TwoTo(4) == 16;
    XorBitsTwice(a as int, b as int, 8);
  }

  /** Unmasking (section 5.3 of RFC 6455): bit by bit, the octet and the one of the mask. */
  lemma XorByteBitwise(a: byte, b: byte, i: nat)
    requires i < 8
    ensures BitAt(XorByte(a, b) as int, i) == 1 <==> BitAt(a as int, i) != BitAt(b as int, i)
  {
    XorBitwise(a as int, b as int, 8, i);
  }

  lemma XorAt(data: Bytes, mask: Bytes, j: nat, i: nat)
    requires |mask| == 4 && j < |data| && i < 8
    ensures |Xor(data, mask)| == |data|
    ensures BitAt(Xor(data, mask)[j] as int, i) == 1 <==> BitAt(data[j] as int, i) != BitAt(mask[j % 4] as int, i)
  {
    hide XorByte;
    XorByteBitwise(data[j], mask[j % 4], i);
  }

  function Xor(data: Bytes, mask: Bytes): Bytes
    requires |mask| == 4
  {
    seq(|data|, i requires 0 <= i < |data| => XorByte(data[i], mask[i % 4]))
  }

  lemma XorTwice(data: Bytes, mask: Bytes)
    requires |mask| == 4
    ensures Xor(Xor(data, mask), mask) == data
  {
    hide XorByte;
    forall i | 0 <= i < |data| ensures Xor(Xor(data, mask), mask)[i] == data[i] {
      XorByteTwice(data[i], mask[i % 4]);
    }
  }

  function Len7(b: Bytes): nat
    requires |b| >= 2
  {
    b[1] as int % 128
  }

  predicate Masked(b: Bytes)
    requires |b| >= 2
  {
    b[1] >= 128
  }

  /** Bytes of the extended payload length. */
  function ExtSize(len7: nat): nat {
    if len7 < 126 then 0 else if len7 == 126 then 2 else 8
  }

  function PayloadLength(b: Bytes): nat
    requires |b| >= 2 && |b| >= 2 + ExtSize(Len7(b))
  {
    if Len7(b) < 126 then Len7(b) else FromBigEndian(b[2..2 + ExtSize(Len7(b))])
  }

  /** The frame at the front of b, as section 5.2 of RFC 6455 reads it. */
  function Decode(b: Bytes): Decoded {
    if |b| < 2 || |b| < 2 + ExtSize(Len7(b)) then Incomplete
    else
      var head := 2 + ExtSize(Len7(b));
      var data := head + if Masked(b) then 4 else 0;
      var size := data + PayloadLength(b);
      if |b| < size then Incomplete
      else Complete(Frame(b[0] >= 128, b[0] as int % 16, Masked(b),
                          if Masked(b) then Xor(b[data..size], b[head..data]) else b[data..size]), size)
  }

  /** What follows a complete frame does not change how it reads. */
  lemma DecodeExtends(a: Bytes, b: Bytes)
    requires Decode(a).Complete?
    ensures Decode(a + b) == Decode(a)
  {
    hide Xor, FromBigEndian;
    var head := 2 + ExtSize(Len7(a));
    var data := head + if Masked(a) then 4 else 0;
    var size := Decode(a).size;
    assert (a + b)[0] == a[0] && (a + b)[1] == a[1];
    assert (a + b)[2..head] == a[2..head];
    assert (a + b)[head..data] == a[head..data];
    assert (a + b)[data..size] == a[data..size];
  }

  // ---------------------------------------------------------------- writing frames

  function LengthBytes(len: nat, maskBit: byte): Bytes
    requires maskBit == 0 || maskBit == 0x80
  {
    if len < 126 then [maskBit + len as byte]
    else if len < 65536 then [maskBit + 126] + BigEndian(len, 2)
    else [maskBit + 127] + BigEndian(len, 8)
  }

  /** A frame with the given first byte; mask is absent or four bytes. */
  function Header(first: byte, mask: Option<Bytes>, len: nat): Bytes {
    match mask
    case None => [first] + LengthBytes(len, 0)
    case Some(m) => [first] + LengthBytes(len, 0x80) + m
  }

  function Encode(first: byte, mask: Option<Bytes>, payload: Bytes): Bytes
    requires mask.Some? ==> |mask.value| == 4
  {
    Header(first, mask, |payload|) + (if mask.Some? then Xor(payload, mask.value) else payload)
  }

  lemma LengthReads(len: nat, bit: byte, first: byte, rest: Bytes)
    requires len < WORD && (bit == 0 || bit == 0x80)
    ensures
      var b := [first] + LengthBytes(len, bit) + rest;
      && |b| >= 2 + ExtSize(Len7(b)) && 1 + |LengthBytes(len, bit)| == 2 + ExtSize(Len7(b))
      && PayloadLength(b) == len && (Masked(b) <==> bit == 0x80) && b[0] == first
  {
    Powers();
    var l := LengthBytes(len, bit);
    var b := [first] + l + rest;
    assert b[1] == l[0];
    if 126 <= len {
      var k := if len < 65536 then 2 else 8;
      assert b[2..2 + k] == BigEndian(len, k);
      BigEndianRoundTrip(len, k);
    }
  }

  lemma DecodeParts(b: Bytes, head: Bytes, m: Bytes, body: Bytes, rest: Bytes)
    requires b == head + m + body + rest && |b| >= 2
    requires |head| == 2 + ExtSize(Len7(b)) && PayloadLength(b) == |body|
    requires if Masked(b) then |m| == 4 else m == []
    ensures
      var payload := if Masked(b) then Xor(body, m) else body;
      Decode(b) == Complete(Frame(b[0] >= 128, b[0] as int % 16, Masked(b), payload), |head| + |m| + |body|)
  {
    hide Xor, FromBigEndian, PayloadLength;
    assert b[|head|..|head| + |m|] == m;
    assert b[|head| + |m|..|head| + |m| + |body|] == body;
  }

  /** Whatever is written reads back: a decoder following the standard finds flag, opcode, masking and
      payload, and where the frame ends, for payloads of every length the format can carry. */
  lemma DecodeEncode(first: byte, mask: Option<Bytes>, payload: Bytes, rest: Bytes)
    requires |payload| < WORD && (mask.Some? ==> |mask.value| == 4)
    ensures Decode(Encode(first, mask, payload) + rest) ==
              Complete(Frame(first >= 128, first as int % 16, mask.Some?, payload), |Encode(first, mask, payload)|)
  {
    hide Xor, FromBigEndian, LengthBytes, PayloadLength, Decode, Len7, Masked;
    var bit: byte := if mask.Some? then 0x80 else 0;
    var m := if mask.Some? then mask.value else [];
    var body := if mask.Some? then Xor(payload, mask.value) else payload;
    var head := [first] + LengthBytes(|payload|, bit);
    XorLength(payload, m);
    var e := Encode(first, mask, payload);
    assert e == head + m + body;
    var b := e + rest;
    assert b == head + (m + body + rest);
    LengthReads(|payload|, bit, first, m + body + rest);
    DecodeParts(b, head, m, body, rest);
    if mask.Some? {
      XorTwice(payload, mask.value);
    }
  }

  lemma XorLength(data: Bytes, mask: Bytes)
    ensures |mask| == 4 ==> |Xor(data, mask)| == |data|
  {
  }

  /** The server's own frames: final, text, unmasked. */
  const TEXT: byte := 0x81

  /** Of all frames with a payload of that length the written one is the shortest. */
  lemma ShortestForm(mask: Option<Bytes>, payload: Bytes, other: Bytes)
    requires |payload| < WORD && (mask.Some? ==> |mask.value| == 4)
    requires Decode(other).Complete?
    requires |Decode(other).frame.payload| == |payload| && Decode(other).frame.masked == mask.Some?
    ensures |Encode(TEXT, mask, payload)| <= Decode(other).size
  {
    Powers();
    if Len7(other) >= 126 {
      FromBigEndianBound(other[2..2 + ExtSize(Len7(other))]);
    } else {
      assert Len7(other) < 126;
    }
  }

  // ---------------------------------------------------------------- the parser's verdict

  /** What one call of the parser does with the bytes it has. OutOfBounds: it takes bytes for received
      that are not there, and from then on the code has no defined behaviour. */
  datatype Verdict = NeedMore | Deliver(message: Bytes, consumed: nat) | Unmasked(consumed: nat) | OutOfBounds

  /** head is the header's size, avail what the code believes to have after it. */
  function Judge(b: Bytes, head: nat, size: nat, avail: nat): Verdict
    requires |b| >= 2
  {
    if !Masked(b) then
      if head + size <= |b| then Unmasked(head + size) else OutOfBounds
    else if avail < (4 + size) % WORD then NeedMore
    else if head + 4 + size <= |b| then
      Deliver(Xor(b[head + 4..head + 4 + size], b[head..head + 4]), head + 4 + size)
    else OutOfBounds
  }

  function Parse(b: Bytes): Verdict {
    if |b| < 2 then NeedMore
    else if Len7(b) < 126 then Judge(b, 2, Len7(b), |b| - 2)
    else if Len7(b) == 126 then
      if |b| < 4 then NeedMore else Judge(b, 4, FromBigEndian(b[2..4]), (|b| - 8) % WORD)
    else
      if |b| < 10 then NeedMore else Judge(b, 10, FromBigEndian(b[2..10]), (|b| - 8) % WORD)
  }

  predicate Agrees(v: Verdict, d: Decoded) {
    match v
    case NeedMore => d.Incomplete?
    case Deliver(message, consumed) => d.Complete? && d.frame.masked && d.frame.payload == message && d.size == consumed
    case Unmasked(consumed) => d.Complete? && !d.frame.masked && d.size == consumed
    case OutOfBounds => false
  }

  /** Both branches for extended lengths take 8 off the available count, where the standard's headers
      have 4 and 10 bytes before the mask. On a masked frame the parser therefore agrees with the standard
      exactly when the length fits the short form, or the header is not there yet, or the count is not
      in the window where the wrong subtraction shows. */
  lemma ParserAgreesExactly(b: Bytes)
    requires |b| < WORD && (|b| >= 2 ==> Masked(b))
    ensures Agrees(Parse(b), Decode(b)) <==>
      || |b| < 2
      || |b| < 2 + ExtSize(Len7(b))
      || Len7(b) < 126
      || (Len7(b) == 126 && (8 <= |b| < 8 + PayloadLength(b) || |b| >= 12 + PayloadLength(b)))
      || (Len7(b) == 127 && (|b| - 8 < (4 + PayloadLength(b)) % WORD || |b| >= 14 + PayloadLength(b)))
  {
    hide Xor, FromBigEndian, Power, PayloadLength, Judge, Agrees;
    Powers();
    if |b| >= 2 && |b| >= 2 + ExtSize(Len7(b)) {
      var size := PayloadLength(b);
      if Len7(b) < 126 {
        assert size == Len7(b) by { PayloadField(b); }
        ExactCount(b, 2, size, |b| - 2);
      } else {
        PayloadField(b);
        FromBigEndianBound(b[2..2 + ExtSize(Len7(b))]);
        ExactCount(b, 2 + ExtSize(Len7(b)), size, (|b| - 8) % WORD);
      }
    } else {
      assert Agrees(NeedMore, Incomplete) by { WaitingAgrees(); }
    }
  }

  lemma WaitingAgrees()
    ensures Agrees(NeedMore, Incomplete)
  {
  }

  lemma PayloadField(b: Bytes)
    requires |b| >= 2 && |b| >= 2 + ExtSize(Len7(b))
    ensures PayloadLength(b) == if Len7(b) < 126 then Len7(b) else FromBigEndian(b[2..2 + ExtSize(Len7(b))])
  {
  }

  /** Whether the parser agrees depends on the count it takes for the bytes after the header. */
  lemma ExactCount(b: Bytes, head: nat, size: nat, avail: nat)
    requires 2 <= |b| < WORD && Masked(b) && head == 2 + ExtSize(Len7(b)) <= |b| && size == PayloadLength(b)
    ensures Agrees(Judge(b, head, size, avail), Decode(b)) <==>
              (avail < (4 + size) % WORD <==> |b| < head + 4 + size)
  {
    hide Xor, FromBigEndian, PayloadLength;
  }

  /** A frame without a mask ends the connection (section 5.1 of RFC 6455). If it is complete it is skipped
      exactly; as soon as its header is there but not its payload, more is consumed than was received. */
  lemma UnmaskedFrames(b: Bytes)
    requires 2 <= |b| < WORD && !Masked(b)
    ensures Decode(b).Complete? ==> Agrees(Parse(b), Decode(b))
    ensures Decode(b).Incomplete? ==> Parse(b) == if |b| < 2 + ExtSize(Len7(b)) then NeedMore else OutOfBounds
  {
    hide Xor, FromBigEndian;
  }

  /** Whenever the parser delivers a message, it is the one the standard reads there. */
  lemma DeliverIsStandard(b: Bytes)
    requires |b| < WORD && Parse(b).Deliver?
    ensures Agrees(Parse(b), Decode(b))
  {
    hide Xor, FromBigEndian;
  }

  lemma SamePart(a: Bytes, b: Bytes, i: nat, j: nat)
    requires |a| <= |b| && b[..|a|] == a && i <= j <= |a|
    ensures b[i..j] == a[i..j]
  {
    forall k | i <= k < j ensures b[k] == a[k] {
      assert b[..|a|][k] == b[k];
    }
  }

  lemma JudgeExtends(a: Bytes, b: Bytes, head: nat, size: nat, availA: nat, availB: nat)
    requires 2 <= |a| <= |b| && b[..|a|] == a && (Masked(a) && |a| >= head + 4 ==> availA <= availB)
    requires Judge(a, head, size, availA).Deliver? || Judge(a, head, size, availA).Unmasked?
    ensures Judge(b, head, size, availB) == Judge(a, head, size, availA)
    ensures head <= Judge(a, head, size, availA).consumed <= |a|
  {
    hide Xor;
    assert a[1] == b[1];
    if Masked(a) {
      SamePart(a, b, head, head + 4);
      SamePart(a, b, head + 4, head + 4 + size);
    }
  }

  /** A verdict other than waiting does not change when more bytes arrive. */
  lemma ParseExtends(a: Bytes, b: Bytes)
    requires |a| + |b| < WORD && (Parse(a).Deliver? || Parse(a).Unmasked?)
    ensures Parse(a + b) == Parse(a)
    ensures 2 <= Parse(a).consumed <= |a|
  {
    hide Judge, FromBigEndian;
    var c := a + b;
    assert c[1] == a[1] && c[..|a|] == a;
    if Len7(a) < 126 {
      JudgeExtends(a, c, 2, Len7(a), |a| - 2, |c| - 2);
    } else {
      var k := ExtSize(Len7(a));
      assert c[2..2 + k] == a[2..2 + k];
      JudgeExtends(a, c, 2 + k, FromBigEndian(a[2..2 + k]), (|a| - 8) % WORD, (|c| - 8) % WORD);
    }
  }

  /** The three forms of the payload length in section 5.2 of RFC 6455, octet by octet; first is the octet
      with FIN and opcode, bit the mask bit. */
  lemma LengthForms(first: byte, bit: byte, len: nat)
    requires len < WORD && (bit == 0 || bit == 0x80)
    ensures
      var h := [first] + LengthBytes(len, bit);
      if len <= 125 then h == [first, bit + len as byte]
      else if len <= 0xffff then h == [first, bit + 126, (len / 256) as byte, (len % 256) as byte]
      else |h| == 10 && h[..2] == [first, bit + 127] && FromBigEndian(h[2..]) == len
  {
    hide FromBigEndian;
    Powers();
    if len > 0xffff {
      BigEndianRoundTrip(len, 8);
      assert ([first] + LengthBytes(len, bit))[2..] == BigEndian(len, 8);
    } else if len > 125 {
      assert BigEndian(len, 2) == BigEndian(len / 256, 1) + [(len % 256) as byte];
      assert BigEndian(len / 256, 1) == BigEndian(len / 256 / 256, 0) + [(len / 256) as byte];
    }
  }

  const HELLO: Bytes := [0x48, 0x65, 0x6c, 0x6c, 0x6f]

  /** The first example of section 5.7 of RFC 6455: "Hello" in one unmasked text frame. */
  lemma HelloUnmasked()
    ensures Encode(0x81, None, HELLO) == [0x81, 0x05] + HELLO
    ensures Decode([0x81, 0x05] + HELLO) == Complete(Frame(true, 1, false, HELLO), 7)
    ensures Parse([0x81, 0x05] + HELLO) == Unmasked(7)
  {
    assert ([0x81, 0x05] + HELLO)[2..7] == HELLO;
  }
}
