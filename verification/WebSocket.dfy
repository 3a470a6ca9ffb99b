/**
 WebSocket framing (`scripts/browser-check/cdp.py`) against RFC 6455: frames as sections 5.2 and 5.3
 define them, and the client that writes masked text frames and reads frames from received chunks.
 */
module WebSocket {
  import opened Wrappers
  import Sequences

  type Bytes = seq<bv8>

  // ----- A byte's number -----

  /** The byte with these bits, most significant first. */
  function FromBits(b7: bool, b6: bool, b5: bool, b4: bool, b3: bool, b2: bool, b1: bool, b0: bool): bv8 {
    (if b7 then 0x80 else 0) | (if b6 then 0x40 else 0) | (if b5 then 0x20 else 0) | (if b4 then 0x10 else 0)
    | (if b3 then 0x08 else 0) | (if b2 then 0x04 else 0) | (if b1 then 0x02 else 0) | (if b0 then 0x01 else 0)
  }

  /** What is left of `n` once the bit worth `worth` is taken. */
  function Less(n: int, worth: int): int {
    if n >= worth then n - worth else n
  }

  /** A number below 256 as a byte. */
  function ToByte(n: nat): bv8 {
    var n6 := Less(n, 128);
    var n5 := Less(n6, 64);
    var n4 := Less(n5, 32);
    var n3 := Less(n4, 16);
    var n2 := Less(n3, 8);
    var n1 := Less(n2, 4);
    FromBits(n >= 128, n6 >= 64, n5 >= 32, n4 >= 16, n3 >= 8, n2 >= 4, n1 >= 2, Less(n1, 2) >= 1)
  }

  function FromByte(b: bv8): (n: nat)
    ensures n < 256
  {
    (if b & 0x80 != 0 then 128 else 0) + (if b & 0x40 != 0 then 64 else 0)
    + (if b & 0x20 != 0 then 32 else 0) + (if b & 0x10 != 0 then 16 else 0)
    + (if b & 0x08 != 0 then 8 else 0) + (if b & 0x04 != 0 then 4 else 0)
    + (if b & 0x02 != 0 then 2 else 0) + (if b & 0x01 != 0 then 1 else 0)
  }

  lemma BitsOf(b7: bool, b6: bool, b5: bool, b4: bool, b3: bool, b2: bool, b1: bool, b0: bool)
    ensures var b := FromBits(b7, b6, b5, b4, b3, b2, b1, b0);
            && (b & 0x80 != 0) == b7 && (b & 0x40 != 0) == b6 && (b & 0x20 != 0) == b5 && (b & 0x10 != 0) == b4
            && (b & 0x08 != 0) == b3 && (b & 0x04 != 0) == b2 && (b & 0x02 != 0) == b1 && (b & 0x01 != 0) == b0
  {
  }

  function Worth(bit: bool, worth: nat): nat {
    if bit then worth else 0
  }

  lemma FromByteIs(b7: bool, b6: bool, b5: bool, b4: bool, b3: bool, b2: bool, b1: bool, b0: bool)
    ensures FromByte(FromBits(b7, b6, b5, b4, b3, b2, b1, b0))
         == Worth(b7, 128) + Worth(b6, 64) + Worth(b5, 32) + Worth(b4, 16) + Worth(b3, 8) + Worth(b2, 4)
             + Worth(b1, 2) + Worth(b0, 1)
  {
    hide FromBits;
    BitsOf(b7, b6, b5, b4, b3, b2, b1, b0);
  }

  lemma LessPlusWorth(n: nat, worth: nat)
    requires n < 2 * worth
    ensures Worth(n >= worth, worth) + Less(n, worth) == n && 0 <= Less(n, worth) < worth
  {
  }

  lemma BitsSum(n: nat)
    requires n < 256
    ensures var n6 := Less(n, 128);
            var n5 := Less(n6, 64);
            var n4 := Less(n5, 32);
            var n3 := Less(n4, 16);
            var n2 := Less(n3, 8);
            var n1 := Less(n2, 4);
            Worth(n >= 128, 128) + Worth(n6 >= 64, 64) + Worth(n5 >= 32, 32) + Worth(n4 >= 16, 16)
            + Worth(n3 >= 8, 8) + Worth(n2 >= 4, 4) + Worth(n1 >= 2, 2) + Worth(Less(n1, 2) >= 1, 1) == n
  {
    hide Less;
    hide Worth;
    var n6 := Less(n, 128);
    LessPlusWorth(n, 128);
    var n5 := Less(n6, 64);
    LessPlusWorth(n6, 64);
    var n4 := Less(n5, 32);
    LessPlusWorth(n5, 32);
    var n3 := Less(n4, 16);
    LessPlusWorth(n4, 16);
    var n2 := Less(n3, 8);
    LessPlusWorth(n3, 8);
    var n1 := Less(n2, 4);
    LessPlusWorth(n2, 4);
    LessPlusWorth(n1, 2);
    LessPlusWorth(Less(n1, 2), 1);
  }

  lemma ByteReadsBack(n: nat)
    requires n < 256
    ensures FromByte(ToByte(n)) == n && (ToByte(n) & 0x80 != 0 <==> n >= 128)
  {
    hide FromBits;
    hide FromByte;
    hide Less;
    hide Worth;
    BitsSum(n);
    var n6 := Less(n, 128);
    var n5 := Less(n6, 64);
    var n4 := Less(n5, 32);
    var n3 := Less(n4, 16);
    var n2 := Less(n3, 8);
    var n1 := Less(n2, 4);
    BitsOf(n >= 128, n6 >= 64, n5 >= 32, n4 >= 16, n3 >= 8, n2 >= 4, n1 >= 2, Less(n1, 2) >= 1);
    FromByteIs(n >= 128, n6 >= 64, n5 >= 32, n4 >= 16, n3 >= 8, n2 >= 4, n1 >= 2, Less(n1, 2) >= 1);
  }

  // ----- Numbers in network byte order -----

  function Power(width: nat): nat {
    if width == 0 then 1 else 256 * Power(width - 1)
  }

  /** `n` in `width` bytes, most significant first, as `struct.pack` writes it. */
  function Pack(n: nat, width: nat): (bytes: Bytes)
    ensures |bytes| == width
  {
    if width == 0 then [] else Pack(n / 256, width - 1) + [ToByte(n % 256)]
  }

  function Unpack(bytes: Bytes): nat {
    if bytes == [] then 0 else 256 * Unpack(bytes[..|bytes| - 1]) + FromByte(bytes[|bytes| - 1])
  }

  lemma {:induction false} PackReadsBack(n: nat, width: nat)
    requires n < Power(width)
    ensures Unpack(Pack(n, width)) == n
  {
    hide ToByte;
    hide FromByte;
    if width > 0 {
      PackReadsBack(n / 256, width - 1);
      ByteReadsBack(n % 256);
      assert Pack(n, width)[..width - 1] == Pack(n / 256, width - 1);
    }
  }

  lemma TopBit(b: bv8)
    ensures b & 0x80 == 0 ==> b & 0x7F == b && (0x80 | b) & 0x7F == b && (0x80 | b) & 0x80 != 0
  {
  }

  lemma Low7(n: nat)
    requires n < 128
    ensures FromByte(ToByte(n) & 0x7F) == n && ToByte(n) & 0x80 == 0
    ensures FromByte((0x80 | ToByte(n)) & 0x7F) == n && (0x80 | ToByte(n)) & 0x80 != 0
  {
    hide ToByte;
    hide FromByte;
    ByteReadsBack(n);
    TopBit(ToByte(n));
  }

  // ----- Frames, as sections 5.2 and 5.3 of RFC 6455 define them -----

  /** `head` is the FIN and reserved bits, in place; `key` masks the payload when there is one. */
  datatype Frame = Frame(head: bv8, opcode: bv8, key: Option<Bytes>, payload: Bytes) {
    predicate Valid() {
      && head & 0x0F == 0 && opcode & 0xF0 == 0
      && (key.Some? ==> |key.value| == 4)
      && |payload| < 0x8000_0000_0000_0000
    }
  }

  const FIN: bv8 := 0x80
  const TEXT: bv8 := 0x1
  const CLOSE: bv8 := 0x8

  /** Section 5.3: each byte with the key's byte in its turn; the same for masking and unmasking. */
  function Masked(payload: Bytes, key: Bytes): (masked: Bytes)
    requires |key| == 4
    ensures |masked| == |payload|
  {
    seq(|payload|, i requires 0 <= i < |payload| => payload[i] ^ key[i % 4])
  }

  lemma MaskingTwice(payload: Bytes, key: Bytes)
    requires |key| == 4
    ensures Masked(Masked(payload, key), key) == payload
  {
    forall i | 0 <= i < |payload| ensures Masked(Masked(payload, key), key)[i] == payload[i] {
      XorTwice(payload[i], key[i % 4]);
    }
  }

  lemma XorTwice(a: bv8, b: bv8)
    ensures (a ^ b) ^ b == a
  {
  }

  /** How many bytes of extended length follow a 7-bit length. */
  function Extra(short: nat): nat {
    if short == 126 then 2 else if short == 127 then 8 else 0
  }

  /** The 7-bit length a payload's length is written with: the shortest form that holds it. */
  function Short(length: nat): (short: nat)
    ensures short <= 127
  {
    if length <= 125 then length else if length <= 0xFFFF then 126 else 127
  }

  /** Whether a length stands in the form section 5.2 asks for: the shortest, with the top bit of eight bytes clear. */
  predicate IsMinimal(short: nat, length: nat) {
    short == Short(length) && length < 0x8000_0000_0000_0000
  }

  /** The second byte: the mask bit and the 7-bit length. */
  function Second(f: Frame): bv8 {
    var short := ToByte(Short(|f.payload|));
    if f.key.Some? then 0x80 | short else short
  }

  function Packed(f: Frame): Bytes {
    Pack(|f.payload|, Extra(Short(|f.payload|)))
  }

  /** The payload as it is sent. */
  function Body(f: Frame): (body: Bytes)
    requires f.Valid()
    ensures |body| == |f.payload|
  {
    if f.key.Some? then Masked(f.payload, f.key.value) else f.payload
  }

  /** A frame's bytes. */
  function Encode(f: Frame): Bytes
    requires f.Valid()
  {
    [f.head | f.opcode, Second(f)] + Packed(f) + f.key.GetOr([]) + Body(f)
  }

  lemma FirstByte(head: bv8, opcode: bv8)
    requires head & 0x0F == 0 && opcode & 0xF0 == 0
    ensures (head | opcode) & 0xF0 == head && (head | opcode) & 0x0F == opcode
  {
  }

  lemma SecondByte(masked: bool, short: nat)
    requires short <= 127
    ensures var b := if masked then 0x80 | ToByte(short) else ToByte(short);
            (b & 0x80 != 0) == masked && FromByte(b & 0x7F) == short
  {
    Low7(short);
  }

  lemma LengthReadsBack(length: nat)
    requires length < 0x8000_0000_0000_0000
    ensures Extra(Short(length)) > 0 ==> Unpack(Pack(length, Extra(Short(length)))) == length
    ensures Extra(Short(length)) == 0 ==> length == Short(length)
  {
    if Extra(Short(length)) > 0 {
      Powers();
      PackReadsBack(length, Extra(Short(length)));
    }
  }

  lemma Powers()
    ensures Power(2) == 0x1_0000 && Power(8) == 0x1_0000_0000_0000_0000
  {
    assert Power(4) == 0x1_0000_0000;
  }

  /**
   What `Decode` reads before the payload: whether it is masked, where the key and the payload start, and its length.
   */
  datatype Head = Head(masked: bool, key: nat, start: nat, length: nat)

  function DecodeHead(s: Bytes): (head: Option<Head>)
    ensures head.Some?
            ==> 2 <= head.value.key
                && head.value.start == (if head.value.masked then head.value.key + 4 else head.value.key)
    ensures head.Some? ==> head.value.key <= |s|
  {
    if |s| < 2 then None
    else
      var masked, short := s[1] & 0x80 != 0, FromByte(s[1] & 0x7F);
      var at := 2 + Extra(short);
      if |s| < at then None
      else
        var length := if Extra(short) == 0 then short else Unpack(s[2..at]);
        if !IsMinimal(short, length) then None
        else Some(Head(masked, at, if masked then at + 4 else at, length))
  }

  /** One frame at the start of `s`, and what follows it. */
  function Decode(s: Bytes): Option<(Frame, Bytes)> {
    match DecodeHead(s)
    case None => None
    case Some(h) =>
      if |s| < h.start + h.length then None
      else
        var body := s[h.start..h.start + h.length];
        var key := if h.masked then Some(s[h.key..h.start]) else None;
        Some((Frame(s[0] & 0xF0, s[0] & 0x0F, key, if h.masked then Masked(body, key.value) else body),
              s[h.start + h.length..]))
  }

  lemma HeadReadsBack(f: Frame, first: bv8, rest: Bytes)
    requires f.Valid()
    ensures var at := 2 + |Packed(f)|;
            DecodeHead([first, Second(f)] + Packed(f) + rest)
            == Some(Head(f.key.Some?, at, if f.key.Some? then at + 4 else at, |f.payload|))
  {
    hide Pack;
    hide Unpack;
    hide ToByte;
    hide FromByte;
    var short := Short(|f.payload|);
    var s := [first, Second(f)] + Packed(f) + rest;
    SecondByte(f.key.Some?, short);
    LengthReadsBack(|f.payload|);
    assert s[1] == Second(f) && s[2..2 + Extra(short)] == Packed(f);
  }

  lemma PartsOf(head: Bytes, packed: Bytes, key: Bytes, body: Bytes, rest: Bytes)
    ensures var s := head + packed + (key + body + rest);
            var (a, b, c) := (|head| + |packed|, |head| + |packed| + |key|, |head| + |packed| + |key| + |body|);
            && |s| == c + |rest|
            && s[|head|..a] == packed && s[a..b] == key && s[b..c] == body && s[c..] == rest
  {
  }

  lemma DecodeIs(s: Bytes, h: Head, f: Frame, body: Bytes, rest: Bytes)
    requires DecodeHead(s) == Some(h) && h.masked == f.key.Some? && f.Valid()
    requires |s| == h.start + h.length + |rest|
    requires s[h.key..h.start] == f.key.GetOr([]) && s[h.start..h.start + h.length] == body
             && s[h.start + h.length..] == rest
    requires f.payload == if f.key.Some? then Masked(body, f.key.value) else body
    requires s[0] == f.head | f.opcode
    ensures Decode(s) == Some((f, rest))
  {
    hide DecodeHead;
    hide Masked;
    FirstByte(f.head, f.opcode);
  }

  lemma UnmaskedBody(f: Frame)
    requires f.Valid()
    ensures f.payload == if f.key.Some? then Masked(Body(f), f.key.value) else Body(f)
  {
    hide Masked;
    if f.key.Some? {
      MaskingTwice(f.payload, f.key.value);
    }
  }

  lemma EncodeIs(f: Frame, rest: Bytes)
    requires f.Valid()
    ensures Encode(f) + rest == [f.head | f.opcode, Second(f)] + Packed(f) + (f.key.GetOr([]) + Body(f) + rest)
    ensures (Encode(f) + rest)[0] == f.head | f.opcode
  {
    hide Packed;
    hide Body;
    hide Second;
  }

  /** Every frame, masked or not and of any length below 2^63, is read back from its bytes, whatever follows. */
  lemma FramesRoundTrip(f: Frame, rest: Bytes)
    requires f.Valid()
    ensures Decode(Encode(f) + rest) == Some((f, rest))
  {
    hide Masked;
    hide DecodeHead;
    hide Decode;
    hide Encode;
    hide Packed;
    hide Body;
    hide Second;
    var key, at := f.key.GetOr([]), 2 + |Packed(f)|;
    UnmaskedBody(f);
    EncodeIs(f, rest);
    HeadReadsBack(f, f.head | f.opcode, key + Body(f) + rest);
    PartsOf([f.head | f.opcode, Second(f)], Packed(f), key, Body(f), rest);
    DecodeIs(Encode(f) + rest, Head(f.key.Some?, at, if f.key.Some? then at + 4 else at, |f.payload|), f, Body(f),
             rest);
  }

  // ----- Nothing else is a frame -----

  lemma BitsBack(b: bv8)
    ensures FromBits(b & 0x80 != 0, b & 0x40 != 0, b & 0x20 != 0, b & 0x10 != 0, b & 0x08 != 0, b & 0x04 != 0,
                     b & 0x02 != 0, b & 0x01 != 0) == b
  {
  }

  lemma TopWorth(bit: bool, worth: nat, rest: nat)
    requires rest < worth
    ensures var n := Worth(bit, worth) + rest;
            (n >= worth <==> bit) && Less(n, worth) == rest && n < 2 * worth
  {
  }

  lemma BitsOfSum(b7: bool, b6: bool, b5: bool, b4: bool, b3: bool, b2: bool, b1: bool, b0: bool)
    ensures ToByte(Worth(b7, 128) + Worth(b6, 64) + Worth(b5, 32) + Worth(b4, 16) + Worth(b3, 8) + Worth(b2, 4)
                   + Worth(b1, 2) + Worth(b0, 1))
            == FromBits(b7, b6, b5, b4, b3, b2, b1, b0)
  {
    hide FromBits;
    hide Less;
    hide Worth;
    TopWorth(b0, 1, 0);
    var n0 := Worth(b0, 1);
    TopWorth(b1, 2, n0);
    var n1 := Worth(b1, 2) + n0;
    TopWorth(b2, 4, n1);
    var n2 := Worth(b2, 4) + n1;
    TopWorth(b3, 8, n2);
    var n3 := Worth(b3, 8) + n2;
    TopWorth(b4, 16, n3);
    var n4 := Worth(b4, 16) + n3;
    TopWorth(b5, 32, n4);
    var n5 := Worth(b5, 32) + n4;
    TopWorth(b6, 64, n5);
    TopWorth(b7, 128, Worth(b6, 64) + n5);
  }

  lemma NumberReadsBack(b: bv8)
    ensures ToByte(FromByte(b)) == b
  {
    hide FromByte;
    hide ToByte;
    hide FromBits;
    hide Worth;
    BitsBack(b);
    FromByteIs(b & 0x80 != 0, b & 0x40 != 0, b & 0x20 != 0, b & 0x10 != 0, b & 0x08 != 0, b & 0x04 != 0,
               b & 0x02 != 0, b & 0x01 != 0);
    BitsOfSum(b & 0x80 != 0, b & 0x40 != 0, b & 0x20 != 0, b & 0x10 != 0, b & 0x08 != 0, b & 0x04 != 0,
              b & 0x02 != 0, b & 0x01 != 0);
  }

  lemma {:induction false} UnpackReadsBack(bytes: Bytes)
    ensures Pack(Unpack(bytes), |bytes|) == bytes
  {
    hide ToByte;
    hide FromByte;
    if bytes != [] {
      var front, last := bytes[..|bytes| - 1], bytes[|bytes| - 1];
      UnpackReadsBack(front);
      NumberReadsBack(last);
      Sequences.LastBack(bytes);
      LastDigit(Unpack(front), FromByte(last));
    }
  }

  lemma LastDigit(high: nat, low: nat)
    requires low < 256
    ensures (256 * high + low) / 256 == high && (256 * high + low) % 256 == low
  {
  }

  lemma BytesBack(first: bv8, second: bv8)
    ensures (first & 0xF0) | (first & 0x0F) == first && (first & 0xF0) & 0x0F == 0 && (first & 0x0F) & 0xF0 == 0
    ensures second == if second & 0x80 != 0 then 0x80 | (second & 0x7F) else second & 0x7F
  {
  }

  lemma HeadIsEncoded(s: Bytes, h: Head, f: Frame)
    requires DecodeHead(s) == Some(h) && h.masked == f.key.Some? && |f.payload| == h.length
    ensures s[1] == Second(f) && s[2..h.key] == Packed(f) && h.length < 0x8000_0000_0000_0000
  {
    hide FromByte;
    hide ToByte;
    hide Pack;
    hide Unpack;
    BytesBack(s[0], s[1]);
    NumberReadsBack(s[1] & 0x7F);
    UnpackReadsBack(s[2..h.key]);
  }

  lemma FiveParts(s: Bytes, a: nat, b: nat, c: nat)
    requires 2 <= a <= b <= c <= |s|
    ensures s == [s[0], s[1]] + s[2..a] + (s[a..b] + s[b..c] + s[c..])
  {
  }

  /** Bytes are read as a frame and a rest exactly when they are that frame's bytes and the rest. */
  lemma OnlyFramesDecode(s: Bytes, f: Frame, rest: Bytes)
    ensures Decode(s) == Some((f, rest)) <==> f.Valid() && s == Encode(f) + rest
  {
    hide Decode;
    hide Encode;
    hide Frame.Valid;
    if f.Valid() && s == Encode(f) + rest {
      FramesRoundTrip(f, rest);
    }
    if Decode(s) == Some((f, rest)) {
      DecodedIsEncoded(s, f, rest);
    }
  }

  lemma PartsDecoded(s: Bytes, f: Frame, rest: Bytes)
    requires Decode(s) == Some((f, rest))
    ensures DecodeHead(s).Some? && |s| >= 2
    ensures var h := DecodeHead(s).value;
            && 2 <= h.key <= h.start <= h.start + h.length <= |s| && h.masked == f.key.Some?
            && f.head == s[0] & 0xF0 && f.opcode == s[0] & 0x0F && rest == s[h.start + h.length..]
            && f.key == (if h.masked then Some(s[h.key..h.start]) else None) && h.start == h.key + |f.key.GetOr([])|
            && (h.masked ==> |f.key.value| == 4)
            && f.payload == var body := s[h.start..h.start + h.length];
                            if h.masked && |f.key.value| == 4 then Masked(body, f.key.value) else body
  {
    hide DecodeHead;
    hide Masked;
  }

  lemma FrameDecoded(s: Bytes, f: Frame, rest: Bytes)
    requires Decode(s) == Some((f, rest))
    ensures f.Valid() && [f.head | f.opcode, Second(f)] == [s[0], s[1]]
    ensures Packed(f) == s[2..DecodeHead(s).value.key]
  {
    hide DecodeHead;
    hide Decode;
    hide Masked;
    hide Second;
    hide Packed;
    PartsDecoded(s, f, rest);
    HeadIsEncoded(s, DecodeHead(s).value, f);
    BytesBack(s[0], s[1]);
  }

  lemma BodyDecoded(s: Bytes, f: Frame, rest: Bytes)
    requires Decode(s) == Some((f, rest)) && f.Valid()
    ensures var h := DecodeHead(s).value;
            && h.key <= h.start <= h.start + h.length <= |s|
            && f.key.GetOr([]) == s[h.key..h.start] && Body(f) == s[h.start..h.start + h.length]
            && rest == s[h.start + h.length..]
  {
    hide DecodeHead;
    hide Decode;
    hide Masked;
    PartsDecoded(s, f, rest);
    var h := DecodeHead(s).value;
    if f.key.Some? {
      MaskingTwice(s[h.start..h.start + h.length], f.key.value);
    }
  }

  lemma DecodedIsEncoded(s: Bytes, f: Frame, rest: Bytes)
    requires Decode(s) == Some((f, rest))
    ensures f.Valid() && s == Encode(f) + rest
  {
    hide DecodeHead;
    hide Decode;
    hide Encode;
    hide Second;
    hide Packed;
    hide Body;
    hide Frame.Valid;
    PartsDecoded(s, f, rest);
    FrameDecoded(s, f, rest);
    BodyDecoded(s, f, rest);
    EncodeIs(f, rest);
    var h := DecodeHead(s).value;
    FiveParts(s, h.key, h.start, h.start + h.length);
  }

  // ----- The examples of section 5.7 -----

  const HELLO: Bytes := [0x48, 0x65, 0x6c, 0x6c, 0x6f]
  const KEY: Bytes := [0x37, 0xfa, 0x21, 0x3d]

  lemma BytesAre()
    ensures ToByte(0) == 0 && ToByte(1) == 1 && ToByte(5) == 5 && ToByte(126) == 0x7E && ToByte(127) == 0x7F
  {
  }

  lemma MaskedHello()
    ensures Masked(HELLO, KEY) == [0x7f, 0x9f, 0x4d, 0x51, 0x58]
  {
    var masked := Masked(HELLO, KEY);
    assert masked[0] == 0x48 ^ 0x37 && masked[1] == 0x65 ^ 0xfa && masked[2] == 0x6c ^ 0x21;
    assert masked[3] == 0x6c ^ 0x3d && masked[4] == 0x6f ^ 0x37;
  }

  /** Single-frame text messages that hold "Hello", masked and not. */
  lemma HelloIs()
    ensures Encode(Frame(FIN, TEXT, None, HELLO)) == [0x81, 0x05] + HELLO
    ensures Encode(Frame(FIN, TEXT, Some(KEY), HELLO)) == [0x81, 0x85] + KEY + [0x7f, 0x9f, 0x4d, 0x51, 0x58]
  {
    hide ToByte;
    hide Masked;
    BytesAre();
    MaskedHello();
    TextBits();
    NoExtra(5);
    MaskBit();
    var plain, masked := Frame(FIN, TEXT, None, HELLO), Frame(FIN, TEXT, Some(KEY), HELLO);
    assert Packed(plain) == [] && Packed(masked) == [];
    assert Second(plain) == 5 && Second(masked) == 0x85;
  }

  lemma MaskBit()
    ensures (0x80 as bv8) | 5 == 0x85
  {
  }

  lemma PackStep(n: nat, width: nat)
    ensures Pack(n, width + 1) == Pack(n / 256, width) + [ToByte(n % 256)]
    ensures Pack(n, 0) == []
  {
    hide ToByte;
  }

  lemma Packs256()
    ensures Pack(256, 2) == [ToByte(1), ToByte(0)]
  {
    hide ToByte;
    hide Pack;
    PackStep(256, 1);
    PackStep(1, 0);
  }

  lemma PacksNothing()
    ensures Pack(0, 5) == [ToByte(0), ToByte(0), ToByte(0), ToByte(0), ToByte(0)]
  {
    hide ToByte;
    hide Pack;
    PackStep(0, 0);
    PackStep(0, 1);
    PackStep(0, 2);
    PackStep(0, 3);
    PackStep(0, 4);
  }

  lemma Packs64K()
    ensures Pack(0x1_0000, 8)
         == [ToByte(0), ToByte(0), ToByte(0), ToByte(0), ToByte(0)] + [ToByte(1)] + [ToByte(0)] + [ToByte(0)]
  {
    hide ToByte;
    hide Pack;
    PacksNothing();
    PackStep(1, 5);
    PackStep(256, 6);
    PackStep(0x1_0000, 7);
  }

  /** Unmasked binary messages of 256 bytes and of 64 kilobytes. */
  lemma LongFramesAre(payload: Bytes)
    ensures |payload| == 256 ==> Encode(Frame(FIN, 2, None, payload)) == [0x82, 0x7E, 0x01, 0x00] + payload
    ensures |payload| == 0x1_0000 ==>
              Encode(Frame(FIN, 2, None, payload)) == [0x82, 0x7F, 0, 0, 0, 0, 0, 1, 0, 0] + payload
  {
    hide ToByte;
    hide Pack;
    BytesAre();
    BinaryBits();
    Packs256();
    Packs64K();
  }

  lemma BinaryBits()
    ensures FIN | 2 == 0x82 && FIN & 0x0F == 0 && (2 as bv8) & 0xF0 == 0
  {
  }

  // ----- What the client reads -----

  /** The first `n` bytes, and the rest. */
  function Take(s: Bytes, n: nat): (taken: Option<(Bytes, Bytes)>)
    ensures taken.Some? ==> |taken.value.0| == n && |taken.value.1| == |s| - n
  {
    if n <= |s| then Some((s[..n], s[n..])) else None
  }

  /** A payload's length, from its 7-bit length and what follows. */
  function ReadLength(short: nat, s: Bytes): (length: Option<(nat, Bytes)>)
    ensures length.Some? ==> |length.value.1| <= |s|
  {
    if Extra(short) == 0 then Some((short, s))
    else match Take(s, Extra(short))
      case None => None
      case Some((extended, rest)) => Some((Unpack(extended), rest))
  }

  /** A frame's opcode and payload as the client reads them from a stream of bytes, which it takes to be unmasked. */
  function ReadFrame(s: Bytes): (read: Option<(bv8, Bytes, Bytes)>)
    ensures read.Some? ==> |read.value.2| < |s|
  {
    match Take(s, 2)
    case None => None
    case Some((header, afterHeader)) =>
      match ReadLength(FromByte(header[1] & 0x7F), afterHeader)
      case None => None
      case Some((length, afterLength)) =>
        match Take(afterLength, length)
        case None => None
        case Some((payload, rest)) => Some((header[0] & 0x0F, payload, rest))
  }

  /** What is left to read where the socket closed inside a frame: all past the parts of the frame that came whole. */
  function FrameStub(s: Bytes): Bytes {
    match Take(s, 2)
    case None => s
    case Some((header, afterHeader)) =>
      match ReadLength(FromByte(header[1] & 0x7F), afterHeader)
      case None => afterHeader
      case Some((_, afterLength)) => afterLength
  }

  lemma Slices(s: Bytes, a: nat, b: nat, c: nat)
    requires a <= b <= c <= |s|
    ensures s[a..][..b - a] == s[a..b] && s[a..][b - a..] == s[b..]
    ensures s[b..][..c - b] == s[b..c] && s[b..][c - b..] == s[c..]
  {
  }

  lemma HeadIsRead(s: Bytes)
    ensures match DecodeHead(s)
            case Some(h) =>
              && |s| >= 2 && (h.masked <==> s[1] & 0x80 != 0)
              && ReadLength(FromByte(s[1] & 0x7F), s[2..]) == Some((h.length, s[h.key..]))
            case None => true
  {
    hide Unpack;
    hide FromByte;
    hide IsMinimal;
    match DecodeHead(s)
    case Some(h) => Slices(s, 2, h.key, h.key);
    case None =>
  }

  /** Whatever section 5.2 makes of an unmasked frame, the client reads its opcode and payload and nothing past them. */
  lemma ReadsUnmasked(s: Bytes, f: Frame, rest: Bytes)
    requires Decode(s) == Some((f, rest)) && f.key.None?
    ensures ReadFrame(s) == Some((f.opcode, f.payload, rest))
  {
    hide Unpack;
    hide FromByte;
    hide Masked;
    hide IsMinimal;
    hide ReadLength;
    hide DecodeHead;
    var h := DecodeHead(s).value;
    HeadIsRead(s);
    DecodedIs(s, h, f, rest);
    Slices(s, 2, h.key, h.key + h.length);
    ReadFrameIs(s, h.length, s[h.key..]);
  }

  lemma DecodedIs(s: Bytes, h: Head, f: Frame, rest: Bytes)
    requires DecodeHead(s) == Some(h) && Decode(s) == Some((f, rest)) && f.key.None?
    ensures h.start == h.key && h.key + h.length <= |s| && !h.masked
    ensures f.opcode == s[0] & 0x0F && f.payload == s[h.key..h.key + h.length] && rest == s[h.key + h.length..]
  {
    hide DecodeHead;
    hide Masked;
  }

  lemma ReadFrameIs(s: Bytes, length: nat, after: Bytes)
    requires |s| >= 2 && ReadLength(FromByte(s[1] & 0x7F), s[2..]) == Some((length, after)) && length <= |after|
    ensures ReadFrame(s) == Some((s[0] & 0x0F, after[..length], after[length..]))
  {
    hide FromByte;
    hide ReadLength;
    assert s[..2][1] == s[1] && s[..2][0] == s[0];
  }

  /** Frames one after another on the wire. */
  function Wire(frames: seq<Frame>): Bytes
    requires forall f | f in frames :: f.Valid()
  {
    if frames == [] then [] else Encode(frames[0]) + Wire(frames[1..])
  }

  /** `n` frames read one after another. */
  function ReadFrames(s: Bytes, n: nat): Option<(seq<(bv8, Bytes)>, Bytes)> {
    if n == 0 then Some(([], s))
    else match ReadFrame(s)
      case None => None
      case Some((opcode, payload, rest)) =>
        match ReadFrames(rest, n - 1)
        case None => None
        case Some((more, end)) => Some(([(opcode, payload)] + more, end))
  }

  function Contents(frames: seq<Frame>): seq<(bv8, Bytes)> {
    if frames == [] then [] else [(frames[0].opcode, frames[0].payload)] + Contents(frames[1..])
  }

  /** A series of unmasked frames is read exactly, in order. */
  lemma {:induction false} SeriesIsRead(frames: seq<Frame>, rest: Bytes)
    requires forall f | f in frames :: f.Valid() && f.key.None?
    ensures ReadFrames(Wire(frames) + rest, |frames|) == Some((Contents(frames), rest))
  {
    hide Encode;
    hide Decode;
    hide ReadFrame;
    hide Frame.Valid;
    if frames == [] {
      assert [] + rest == rest;
    } else {
      var first, after := frames[0], Wire(frames[1..]) + rest;
      assert first in frames;
      SeriesIsRead(frames[1..], rest);
      assert Wire(frames) + rest == Encode(first) + after;
      FramesRoundTrip(first, after);
      ReadsUnmasked(Encode(first) + after, first, after);
    }
  }

  datatype Received = Message(payload: Bytes, rest: Bytes) | ClosedByServer | SocketClosed

  /** The next text frame's payload, frames that are neither text nor a close passed over. */
  function NextMessage(s: Bytes): Received
    decreases |s|
  {
    match ReadFrame(s)
    case None => SocketClosed
    case Some((opcode, payload, rest)) =>
      if opcode == TEXT then Message(payload, rest)
      else if opcode == CLOSE then ClosedByServer
      else NextMessage(rest)
  }

  /** Frames before the next text frame are passed over, and a close among them is seen. */
  lemma {:induction false} MessagesAreFound(before: seq<Frame>, last: Frame, rest: Bytes)
    requires forall f | f in before + [last] :: f.Valid() && f.key.None?
    requires forall f | f in before :: f.opcode != 1 && f.opcode != 8
    ensures last.opcode == 1 ==> NextMessage(Wire(before + [last]) + rest) == Message(last.payload, rest)
    ensures last.opcode == 8 ==> NextMessage(Wire(before + [last]) + rest) == ClosedByServer
    decreases |before|
  {
    hide Encode;
    hide Decode;
    hide ReadFrame;
    hide Frame.Valid;
    var frames := before + [last];
    var first, after := frames[0], Wire(frames[1..]) + rest;
    assert first in frames;
    assert Wire(frames) + rest == Encode(first) + after;
    FramesRoundTrip(first, after);
    ReadsUnmasked(Encode(first) + after, first, after);
    if before == [] {
      assert frames[1..] == [] && [] + rest == rest;
    } else {
      assert frames[1..] == before[1..] + [last] && first == before[0];
      MessagesAreFound(before[1..], last, rest);
    }
  }

  // ----- The client -----

  /** What is still to be received from chunks: an empty one, or none, is the end. */
  function Arriving(chunks: seq<Bytes>): Bytes {
    if chunks == [] || chunks[0] == [] then [] else chunks[0] + Arriving(chunks[1..])
  }

  lemma ChunkArrives(buf: Bytes, chunks: seq<Bytes>)
    requires chunks != [] && chunks[0] != []
    ensures (buf + chunks[0]) + Arriving(chunks[1..]) == buf + Arriving(chunks)
  {
  }

  lemma NoneArrive(buf: Bytes, chunks: seq<Bytes>)
    requires chunks == [] || chunks[0] == []
    ensures buf + Arriving(chunks) == buf
  {
  }

  lemma TakesFromBuffer(buf: Bytes, more: Bytes, n: nat)
    requires n <= |buf|
    ensures Take(buf + more, n) == Some((buf[..n], buf[n..] + more))
  {
    assert (buf + more)[..n] == buf[..n] && (buf + more)[n..] == buf[n..] + more;
  }

  class Connection {
    /** What was sent to the server, and what it sends: chunks as the socket hands them over. */
    var sent: Bytes
    var chunks: seq<Bytes>
    /** What was received and not yet read. */
    var buf: Bytes

    constructor (chunks: seq<Bytes>)
      ensures sent == [] && Pending() == Arriving(chunks)
    {
      this.sent, this.chunks, this.buf := [], chunks, [];
    }

    ghost function Pending(): Bytes
      reads this
    {
      buf + Arriving(chunks)
    }

    /** Sends one final, masked text frame; `mask` is four random bytes. */
    method SendFrame(data: Bytes, mask: Bytes)
      requires |mask| == 4 && |data| < 0x8000_0000_0000_0000
      modifies this`sent
      ensures sent == old(sent) + Encode(Frame(FIN, TEXT, Some(mask), data))
    {
      hide Pack;
      hide ToByte;
      var masked := Masked(data, mask);
      var length := |data|;
      var header := [0x81];
      if length <= 125 {
        header := header + [0x80 | ToByte(length)];
        NoExtra(length);
      } else if length <= 0xFFFF {
        header := header + [0x80 | ToByte(126)];
        header := header + Pack(length, 2);
      } else {
        header := header + [0x80 | ToByte(127)];
        header := header + Pack(length, 8);
      }
      header := header + mask;
      TextBits();
      assert header + masked == Encode(Frame(FIN, TEXT, Some(mask), data));
      sent := sent + (header + masked);
    }

    /** The next `n` bytes, or `None` once the socket closes before them. */
    method RecvExact(n: nat) returns (data: Option<Bytes>)
      modifies this`buf, this`chunks
      ensures match Take(old(Pending()), n)
              case Some((taken, rest)) => data == Some(taken) && Pending() == rest
              case None => data.None? && Pending() == old(Pending())
    {
      while |buf| < n
        invariant Pending() == old(Pending())
        decreases |chunks|
      {
        if chunks == [] || chunks[0] == [] {
          NoneArrive(buf, chunks);
          return None;
        }
        ChunkArrives(buf, chunks);
        buf, chunks := buf + chunks[0], chunks[1..];
      }
      TakesFromBuffer(buf, Arriving(chunks), n);
      var taken := buf[..n];
      buf := buf[n..];
      return Some(taken);
    }

    /** A payload's length: what its 7-bit length says, or the bytes after it. */
    method RecvLength(short: nat) returns (length: Option<nat>)
      modifies this`buf, this`chunks
      ensures match ReadLength(short, old(Pending()))
              case None => length.None? && Pending() == old(Pending())
              case Some((n, rest)) => length == Some(n) && Pending() == rest
    {
      hide Unpack;
      hide Take;
      hide Arriving;
      if short == 126 {
        var extended := RecvExact(2);
        if extended.None? {
          return None;
        }
        return Some(Unpack(extended.value));
      } else if short == 127 {
        var extended := RecvExact(8);
        if extended.None? {
          return None;
        }
        return Some(Unpack(extended.value));
      }
      return Some(short);
    }

    /** The next frame's opcode and payload, or `None` once the socket closes before its end. */
    method RecvFrame() returns (frame: Option<(bv8, Bytes)>)
      modifies this`buf, this`chunks
      ensures match ReadFrame(old(Pending()))
              case None => frame.None? && Pending() == FrameStub(old(Pending()))
              case Some((opcode, payload, rest)) => frame == Some((opcode, payload)) && Pending() == rest
    {
      hide FromByte;
      hide Take;
      hide ReadLength;
      hide Arriving;
      var header := RecvExact(2);
      if header.None? {
        return None;
      }
      var b0, b1 := header.value[0], header.value[1];
      var opcode := b0 & 0x0F;
      var length := RecvLength(FromByte(b1 & 0x7F));
      if length.None? {
        return None;
      }
      var payload := RecvExact(length.value);
      if payload.None? {
        return None;
      }
      return Some((opcode, payload.value));
    }

    /** The next message, before `json.loads`. */
    method RecvJson() returns (received: Received)
      modifies this`buf, this`chunks
      ensures received == NextMessage(old(Pending()))
      ensures received.Message? ==> Pending() == received.rest
    {
      hide ReadFrame;
      while true
        invariant NextMessage(Pending()) == NextMessage(old(Pending()))
        decreases |Pending()|
      {
        ghost var before := Pending();
        var frame := RecvFrame();
        if frame.None? {
          return SocketClosed;
        }
        var (opcode, payload) := frame.value;
        if opcode == TEXT {
          received := Message(payload, buf + Arriving(chunks));
          return;
        }
        if opcode == CLOSE {
          return ClosedByServer;
        }
      }
    }
  }

  lemma TextBits()
    ensures FIN | TEXT == 0x81 && FIN & 0x0F == 0 && TEXT & 0xF0 == 0
  {
  }

  lemma NoExtra(length: nat)
    requires length <= 125
    ensures Pack(length, Extra(Short(length))) == []
  {
  }

  /** What `SendFrame` sends decodes as one final text frame with exactly the payload, for every length below 2^63. */
  lemma SentFramesDecode(data: Bytes, mask: Bytes)
    requires |mask| == 4 && |data| < 0x8000_0000_0000_0000
    ensures Decode(Encode(Frame(FIN, TEXT, Some(mask), data))) == Some((Frame(FIN, TEXT, Some(mask), data), []))
  {
    hide Encode;
    hide Decode;
    TextBits();
    var f := Frame(FIN, TEXT, Some(mask), data);
    FramesRoundTrip(f, []);
    assert Encode(f) + [] == Encode(f);
  }
}
