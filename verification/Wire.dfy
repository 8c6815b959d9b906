/** The qmux wire format (mux/frame): seven message kinds, numbered 100 to 106,
    written as one type byte followed by big-endian uint32 fields; a Data frame
    carries its payload after the two fixed fields. */
module Wire {

  type Byte = n: nat | n < 256

  const U32: nat := 0x1_0000_0000

  datatype Option<+T> = None | Some(value: T)

  datatype Message =
    | Open(senderID: nat, windowSize: nat, maxPacketSize: nat)
    | OpenConfirm(channelID: nat, senderID: nat, windowSize: nat, maxPacketSize: nat)
    | OpenFailure(channelID: nat)
    | WindowAdjust(channelID: nat, additionalBytes: nat)
    | Data(channelID: nat, length: nat, data: seq<Byte>)
    | EOF(channelID: nat)
    | Close(channelID: nat)

  /** What the Go field types guarantee, plus the one thing they do not: that
      a Data message announces the number of bytes it carries. */
  predicate WellFormed(m: Message) {
    && AllU32(Fields(m))
    && (m.Data? ==> m.length == |m.data|)
  }

  predicate AllU32(fs: seq<nat>) {
    forall i :: 0 <= i < |fs| ==> fs[i] < U32
  }

  function Number(m: Message): Byte {
    match m
    case Open(_, _, _) => 100
    case OpenConfirm(_, _, _, _) => 101
    case OpenFailure(_) => 102
    case WindowAdjust(_, _) => 103
    case Data(_, _, _) => 104
    case EOF(_) => 105
    case Close(_) => 106
  }

  /** The uint32 fields in struct order. */
  function Fields(m: Message): seq<nat> {
    match m
    case Open(sender, window, max) => [sender, window, max]
    case OpenConfirm(id, sender, window, max) => [id, sender, window, max]
    case OpenFailure(id) => [id]
    case WindowAdjust(id, n) => [id, n]
    case Data(id, length, _) => [id, length]
    case EOF(id) => [id]
    case Close(id) => [id]
  }

  function Payload(m: Message): seq<Byte> {
    if m.Data? then m.data else []
  }

  /** messageFrom: which struct a type byte announces, by its field count. */
  function FieldCount(num: Byte): (n: nat)
    requires 100 <= num <= 106
  {
    if num == 100 then 3 else if num == 101 then 4
    else if num == 103 || num == 104 then 2 else 1
  }

  function Build(num: Byte, fs: seq<nat>, payload: seq<Byte>): Message
    requires 100 <= num <= 106 && |fs| == FieldCount(num)
  {
    if num == 100 then Open(fs[0], fs[1], fs[2])
    else if num == 101 then OpenConfirm(fs[0], fs[1], fs[2], fs[3])
    else if num == 102 then OpenFailure(fs[0])
    else if num == 103 then WindowAdjust(fs[0], fs[1])
    else if num == 104 then Data(fs[0], fs[1], payload)
    else if num == 105 then EOF(fs[0])
    else Close(fs[0])
  }

  // ---- big-endian uint32 ----

  /** The k low-order base-256 digits of n, most significant first. */
  function Digits(n: nat, k: nat): (s: seq<Byte>)
    ensures |s| == k
  {
    if k == 0 then [] else Digits(n / 256, k - 1) + [n % 256]
  }

  function Value(s: seq<Byte>): nat {
    if s == [] then 0 else Value(s[..|s| - 1]) * 256 + s[|s| - 1]
  }

  function Pow256(k: nat): nat {
    if k == 0 then 1 else 256 * Pow256(k - 1)
  }

  /** PutUint32: a value above 2^32 loses its high-order digits. */
  function Be32(n: nat): (s: seq<Byte>)
    ensures |s| == 4
  {
    Digits(n, 4)
  }

  lemma {:induction false} ValueBound(s: seq<Byte>)
    ensures Value(s) < Pow256(|s|)
  {
    if s != [] { ValueBound(s[..|s| - 1]); }
  }

  lemma {:induction false} ValueOfDigits(n: nat, k: nat)
    requires n < Pow256(k)
    ensures Value(Digits(n, k)) == n
  {
    if k != 0 {
      ValueOfDigits(n / 256, k - 1);
      assert Digits(n, k)[..k - 1] == Digits(n / 256, k - 1);
    }
  }

  lemma {:induction false} DigitsOfValue(s: seq<Byte>)
    ensures Digits(Value(s), |s|) == s
  {
    if s != [] {
      var front, last := s[..|s| - 1], s[|s| - 1];
      DigitsOfValue(front);
      assert Value(s) / 256 == Value(front) && Value(s) % 256 == last;
    }
  }

  lemma Be32Bytes(n: nat)
    ensures Be32(n) == [n / 0x100_0000 % 256, n / 0x1_0000 % 256, n / 0x100 % 256, n % 256]
  {
    var n1, n2, n3 := n / 256, n / 256 / 256, n / 256 / 256 / 256;
    assert n2 == n / 0x1_0000 && n3 == n / 0x100_0000;
    assert Digits(n3, 1) == [n3 % 256];
    assert Digits(n2, 2) == [n3 % 256, n2 % 256];
    assert Digits(n1, 3) == [n3 % 256, n2 % 256, n1 % 256];
  }

  lemma ValueBytes(s: seq<Byte>)
    requires |s| == 4
    ensures Value(s) == s[0] as nat * 0x100_0000 + s[1] as nat * 0x1_0000 + s[2] as nat * 0x100 + s[3]
  {
    assert s[..3][..2] == s[..2] && s[..2][..1] == s[..1] && s[..1][..0] == [];
    assert Value(s[..1]) == s[0];
    assert Value(s[..2]) == Value(s[..1]) * 256 + s[1];
    assert Value(s[..3]) == Value(s[..2]) * 256 + s[2];
  }

  /** binary.Write and binary.Read of a struct of uint32 fields. */
  function Pack(fs: seq<nat>): (s: seq<Byte>)
    ensures |s| == 4 * |fs|
  {
    if fs == [] then [] else Be32(fs[0]) + Pack(fs[1..])
  }

  function Unpack(s: seq<Byte>, n: nat): (fs: seq<nat>)
    requires |s| == 4 * n
    ensures |fs| == n
  {
    if n == 0 then [] else [Value(s[..4])] + Unpack(s[4..], n - 1)
  }

  lemma FourBytes()
    ensures Pow256(4) == U32
  {
    assert Pow256(4) == 256 * (256 * (256 * Pow256(1)));
  }

  lemma {:induction false} UnpackPack(fs: seq<nat>)
    requires AllU32(fs)
    ensures Unpack(Pack(fs), |fs|) == fs
  {
    if fs != [] {
      FourBytes();
      assert fs[0] < U32;
      ValueOfDigits(fs[0], 4);
      assert Pack(fs)[..4] == Be32(fs[0]) && Pack(fs)[4..] == Pack(fs[1..]);
      UnpackPack(fs[1..]);
    }
  }

  lemma {:induction false} PackUnpack(s: seq<Byte>, n: nat)
    requires |s| == 4 * n
    ensures Pack(Unpack(s, n)) == s
    ensures AllU32(Unpack(s, n))
  {
    if n != 0 {
      FourBytes();
      ValueBound(s[..4]);
      DigitsOfValue(s[..4]);
      PackUnpack(s[4..], n - 1);
      assert Unpack(s, n)[1..] == Unpack(s[4..], n - 1);
      assert s == s[..4] + s[4..];
    }
  }

  // ---- encoding and decoding one frame ----

  function Encode(m: Message): seq<Byte> {
    [Number(m)] + Pack(Fields(m)) + Payload(m)
  }

  function EncodeAll(ms: seq<Message>): seq<Byte> {
    if ms == [] then [] else Encode(ms[0]) + EncodeAll(ms[1..])
  }

  /** io.EOF, io.ErrUnexpectedEOF, and the error of messageFrom. */
  datatype ReadError = EndOfStream | UnexpectedEnd | UnknownType(num: Byte)

  datatype Decoded = Got(msg: Message, rest: seq<Byte>) | Failed(error: ReadError)

  /** The error io.ReadFull reports when only `available` bytes were left. */
  function ShortRead(available: seq<Byte>): ReadError {
    if available == [] then EndOfStream else UnexpectedEnd
  }

  function Decode(s: seq<Byte>): Decoded {
    if s == [] then Failed(EndOfStream)
    else if !(100 <= s[0] <= 106) then Failed(UnknownType(s[0]))
    else DecodeBody(s[0], s[1..])
  }

  function DecodeBody(num: Byte, body: seq<Byte>): Decoded
    requires 100 <= num <= 106
  {
    var n := FieldCount(num);
    if |body| < 4 * n then Failed(ShortRead(body))
    else
      var fs := Unpack(body[..4 * n], n);
      var rest := body[4 * n..];
      var size := if num == 104 then fs[1] else 0;
      if |rest| < size then Failed(ShortRead(rest))
      else Got(Build(num, fs, rest[..size]), rest[size..])
  }

  /** n calls of Decode on one stream. */
  function DecodeMany(s: seq<Byte>, n: nat): Option<(seq<Message>, seq<Byte>)> {
    if n == 0 then Some(([], s))
    else match Decode(s)
      case Failed(_) => None
      case Got(m, rest) =>
        match DecodeMany(rest, n - 1)
        case None => None
        case Some((ms, end)) => Some(([m] + ms, end))
  }

  // ---- Decode inverts Encode ----

  lemma Rebuilds(m: Message)
    ensures |Fields(m)| == FieldCount(Number(m))
    ensures Build(Number(m), Fields(m), Payload(m)) == m
  {}

  lemma DecodesBody(num: Byte, fs: seq<nat>, payload: seq<Byte>, suffix: seq<Byte>)
    requires 100 <= num <= 106 && |fs| == FieldCount(num) && AllU32(fs)
    requires |payload| == if num == 104 then fs[1] else 0
    ensures DecodeBody(num, Pack(fs) + (payload + suffix)) == Got(Build(num, fs, payload), suffix)
  {
    UnpackPack(fs);
    var n, tail := |fs|, payload + suffix;
    var body := Pack(fs) + tail;
    assert body[..4 * n] == Pack(fs) && body[4 * n..] == tail;
    assert tail[..|payload|] == payload && tail[|payload|..] == suffix;
  }

  lemma Uncons(num: Byte, fields: seq<Byte>, payload: seq<Byte>, suffix: seq<Byte>)
    ensures [num] + fields + payload + suffix == [num] + (fields + (payload + suffix))
  {}

  lemma DecodeCons(num: Byte, body: seq<Byte>)
    requires 100 <= num <= 106
    ensures Decode([num] + body) == DecodeBody(num, body)
  {
    assert ([num] + body)[1..] == body;
  }

  /** One frame: decoding what was encoded gives the message back and leaves
      whatever follows it untouched. */
  lemma DecodeEncode(m: Message, suffix: seq<Byte>)
    requires WellFormed(m)
    ensures Decode(Encode(m) + suffix) == Got(m, suffix)
  {
    Rebuilds(m);
    var num, fs, payload := Number(m), Fields(m), Payload(m);
    Uncons(num, Pack(fs), payload, suffix);
    DecodeCons(num, Pack(fs) + (payload + suffix));
    DecodesBody(num, fs, payload, suffix);
  }

  lemma DecodeManyStep(s: seq<Byte>, m: Message, rest: seq<Byte>, ms: seq<Message>, end: seq<Byte>)
    requires Decode(s) == Got(m, rest)
    requires DecodeMany(rest, |ms|) == Some((ms, end))
    ensures DecodeMany(s, |ms| + 1) == Some(([m] + ms, end))
  {}

  /** A whole stream: |ms| calls of Decode on the concatenated encodings return
      exactly ms and stop at the suffix. */
  lemma {:induction false} StreamRoundTrip(ms: seq<Message>, suffix: seq<Byte>)
    requires forall m :: m in ms ==> WellFormed(m)
    ensures DecodeMany(EncodeAll(ms) + suffix, |ms|) == Some((ms, suffix))
  {
    if ms == [] {
      assert EncodeAll(ms) + suffix == suffix;
    } else {
      var rest := EncodeAll(ms[1..]) + suffix;
      assert EncodeAll(ms) + suffix == Encode(ms[0]) + rest;
      DecodeEncode(ms[0], rest);
      StreamRoundTrip(ms[1..], suffix);
      DecodeManyStep(Encode(ms[0]) + rest, ms[0], rest, ms[1..], suffix);
      assert ms == [ms[0]] + ms[1..];
    }
  }

  // ---- Encode inverts Decode ----

  /** Bytes that decode are the encoding of what they decode to, byte for byte,
      so the format has no two spellings of one message. */
  lemma EncodeDecode(s: seq<Byte>)
    requires Decode(s).Got?
    ensures WellFormed(Decode(s).msg)
    ensures s == Encode(Decode(s).msg) + Decode(s).rest
  {
    var num, body := s[0], s[1..];
    var n := FieldCount(num);
    var fs := Unpack(body[..4 * n], n);
    PackUnpack(body[..4 * n], n);
    var m := Decode(s).msg;
    assert Fields(m) == fs && Number(m) == num;
    assert s == [num] + body[..4 * n] + Payload(m) + Decode(s).rest;
  }

  predicate StartsWith(s: seq<Byte>, m: Message) {
    WellFormed(m) && Encode(m) <= s
  }

  lemma DecodesPrefix(s: seq<Byte>, m: Message)
    requires StartsWith(s, m)
    ensures Decode(s) == Got(m, s[|Encode(m)|..])
  {
    DecodeEncode(m, s[|Encode(m)|..]);
    assert s == Encode(m) + s[|Encode(m)|..];
  }

  /** Decode succeeds exactly on the streams that begin with some encoding. */
  lemma DecodesExactlyEncodings(s: seq<Byte>)
    ensures Decode(s).Got? <==> exists m :: StartsWith(s, m)
  {
    if Decode(s).Got? {
      EncodeDecode(s);
      assert StartsWith(s, Decode(s).msg);
    }
    if m :| StartsWith(s, m) {
      DecodesPrefix(s, m);
    }
  }

  /** No encoding is a proper prefix of another. */
  lemma PrefixFree(m: Message, m': Message)
    requires WellFormed(m) && WellFormed(m') && Encode(m) <= Encode(m')
    ensures m == m'
  {
    DecodesPrefix(Encode(m'), m);
    DecodesPrefix(Encode(m'), m');
  }

  /** Hence a byte stream determines the list of messages that was sent. */
  lemma {:induction false} StreamInjective(ms: seq<Message>, ms': seq<Message>)
    requires forall m :: m in ms ==> WellFormed(m)
    requires forall m :: m in ms' ==> WellFormed(m)
    requires EncodeAll(ms) == EncodeAll(ms')
    ensures ms == ms'
  {
    if ms != [] && ms' != [] {
      DecodeEncode(ms[0], EncodeAll(ms[1..]));
      DecodeEncode(ms'[0], EncodeAll(ms'[1..]));
      StreamInjective(ms[1..], ms'[1..]);
    }
  }

  // ---- the format, byte for byte ----

  lemma PackOne(a: nat)
    ensures Pack([a]) == Be32(a)
  {
    assert [a][1..] == [] && Pack([]) == [];
  }

  lemma PackTwo(a: nat, b: nat)
    ensures Pack([a, b]) == Be32(a) + Be32(b)
  {
    assert [a, b][1..] == [b];
    PackOne(b);
  }

  lemma PackThree(a: nat, b: nat, c: nat)
    ensures Pack([a, b, c]) == Be32(a) + Be32(b) + Be32(c)
  {
    assert [a, b, c][1..] == [b, c];
    PackTwo(b, c);
  }

  lemma PackFour(a: nat, b: nat, c: nat, d: nat)
    ensures Pack([a, b, c, d]) == Be32(a) + Be32(b) + Be32(c) + Be32(d)
  {
    assert [a, b, c, d][1..] == [b, c, d];
    PackThree(b, c, d);
  }

  /** The seven frames, as mux/frame/message.go numbers them and the structs order
      their fields; Be32Bytes says what the four bytes of a field are. */
  lemma EncodingLayout(m: Message)
    ensures match m
      case Open(sender, window, max) => Encode(m) == [100] + Be32(sender) + Be32(window) + Be32(max)
      case OpenConfirm(id, sender, window, max) =>
        Encode(m) == [101] + Be32(id) + Be32(sender) + Be32(window) + Be32(max)
      case OpenFailure(id) => Encode(m) == [102] + Be32(id)
      case WindowAdjust(id, n) => Encode(m) == [103] + Be32(id) + Be32(n)
      case Data(id, length, data) => Encode(m) == [104] + Be32(id) + Be32(length) + data
      case EOF(id) => Encode(m) == [105] + Be32(id)
      case Close(id) => Encode(m) == [106] + Be32(id)
  {
    match m {
      case Open(sender, window, max) => PackThree(sender, window, max);
      case OpenConfirm(id, sender, window, max) => PackFour(id, sender, window, max);
      case OpenFailure(id) => PackOne(id);
      case WindowAdjust(id, n) => PackTwo(id, n);
      case Data(id, length, data) => PackTwo(id, length);
      case EOF(id) => PackOne(id);
      case Close(id) => PackOne(id);
    }
  }

  /** Every uint32 field fits, and Data announces its length. */
  lemma WellFormedMeans(m: Message)
    ensures WellFormed(m) <==> match m
      case Open(sender, window, max) => sender < U32 && window < U32 && max < U32
      case OpenConfirm(id, sender, window, max) => id < U32 && sender < U32 && window < U32 && max < U32
      case OpenFailure(id) => id < U32
      case WindowAdjust(id, n) => id < U32 && n < U32
      case Data(id, length, data) => id < U32 && length == |data| < U32
      case EOF(id) => id < U32
      case Close(id) => id < U32
  {
    var fs := Fields(m);
    if WellFormed(m) {
      assert forall i :: 0 <= i < |fs| ==> fs[i] < U32;
      if |fs| > 1 { assert fs[1] < U32; }
      if |fs| > 2 { assert fs[2] < U32; }
      if |fs| > 3 { assert fs[3] < U32; }
      assert fs[0] < U32;
    }
  }

  /** The same read backwards, whatever follows. */
  lemma DecodingLayout(m: Message, suffix: seq<Byte>)
    requires WellFormed(m)
    ensures Got(m, suffix) == match m
      case Open(sender, window, max) => Decode([100] + Be32(sender) + Be32(window) + Be32(max) + suffix)
      case OpenConfirm(id, sender, window, max) =>
        Decode([101] + Be32(id) + Be32(sender) + Be32(window) + Be32(max) + suffix)
      case OpenFailure(id) => Decode([102] + Be32(id) + suffix)
      case WindowAdjust(id, n) => Decode([103] + Be32(id) + Be32(n) + suffix)
      case Data(id, length, data) => Decode([104] + Be32(id) + Be32(length) + data + suffix)
      case EOF(id) => Decode([105] + Be32(id) + suffix)
      case Close(id) => Decode([106] + Be32(id) + suffix)
  {
    DecodeEncode(m, suffix);
    EncodingLayout(m);
  }

  /** The bytes of the fixed part after the type byte. */
  function FixedPart(num: Byte): nat {
    if num == 100 then 12 else if num == 101 then 16 else if num == 103 || num == 104 then 8 else 4
  }

  /** How reading fails: at a clean end, in the middle, or on an unknown type. An end
      that falls exactly behind a part already read is reported as a clean one. */
  lemma DecodingErrors(s: seq<Byte>)
    ensures Decode(s) == Failed(EndOfStream) <==>
      || s == []
      || (100 <= s[0] <= 106 && |s| == 1)
      || (s[0] == 104 && |s| == 9 && Value(s[5..9]) > 0)
    ensures Decode(s) == Failed(UnexpectedEnd) <==>
      && s != [] && 100 <= s[0] <= 106
      && (1 < |s| < 1 + FixedPart(s[0]) || (s[0] == 104 && 9 < |s| < 9 + Value(s[5..9])))
    ensures forall k :: Decode(s) == Failed(UnknownType(k)) <==> s != [] && s[0] == k && !(100 <= k <= 106)
  {
    if s != [] && s[0] == 104 && |s| >= 9 {
      var body := s[1..];
      assert body[..8][4..] == s[5..9] && s[5..9][..4] == s[5..9];
      assert Unpack(body[..8], 2)[1] == Unpack(body[..8][4..], 1)[0] == Value(s[5..9]);
    }
  }

  // ---- the stateful encoder and decoder ----

  /** frame.Encoder: one Write per message on the underlying writer. */
  class Encoder {
    var w: seq<Byte>

    constructor ()
      ensures w == []
    {
      w := [];
    }

    method Send(m: Message)
      modifies this
      ensures w == old(w) + Encode(m)
    {
      var bytes;
      if m.Data? {
        bytes := DataBytes(m);
      } else {
        bytes := Encode(m);
      }
      w := w + bytes;
    }

    /** DataMessage.Bytes: a nine-byte header filled in place, then the payload. */
    method DataBytes(m: Message) returns (bytes: seq<Byte>)
      requires m.Data?
      ensures bytes == Encode(m)
    {
      var packet := new Byte[9];
      packet[0] := 104;
      PutUint32(packet, 1, m.channelID);
      PutUint32(packet, 5, m.length);
      assert Pack([m.channelID, m.length]) == Be32(m.channelID) + Be32(m.length);
      assert packet[..] == [packet[0]] + packet[1..5] + packet[5..9];
      bytes := packet[..] + m.data;
    }

    method PutUint32(packet: array<Byte>, at: nat, n: nat)
      requires at + 4 <= packet.Length
      modifies packet
      ensures packet[at..at + 4] == Be32(n)
      ensures forall i :: 0 <= i < packet.Length && !(at <= i < at + 4) ==> packet[i] == old(packet[i])
    {
      Be32Bytes(n);
      packet[at], packet[at + 1] := n / 0x100_0000 % 256, n / 0x1_0000 % 256;
      packet[at + 2], packet[at + 3] := n / 0x100 % 256, n % 256;
    }
  }

  /** frame.Decoder: reads its stream piece by piece, so that a failed call has
      already consumed what it read. */
  class Decoder {
    var r: seq<Byte>

    constructor (stream: seq<Byte>)
      ensures r == stream
    {
      r := stream;
    }

    /** io.ReadFull for n bytes. */
    method ReadFull(n: nat) returns (bytes: Option<seq<Byte>>)
      modifies this
      ensures n <= |old(r)| ==> bytes == Some(old(r)[..n]) && r == old(r)[n..]
      ensures n > |old(r)| ==> bytes == None && r == []
    {
      if n <= |r| {
        bytes, r := Some(r[..n]), r[n..];
      } else {
        bytes, r := None, [];
      }
    }

    method Next() returns (result: Decoded)
      modifies this
      ensures result == Decode(old(r))
      ensures result.Got? ==> r == result.rest
    {
      var s := r;
      var num := ReadFull(1);
      if num == None {
        return Failed(EndOfStream);
      }
      var k := num.value[0];
      if !(100 <= k <= 106) {
        return Failed(UnknownType(k));
      }
      var n := FieldCount(k);
      var fixed := ReadFull(4 * n);
      if fixed == None {
        return Failed(ShortRead(s[1..]));
      }
      var fs := Unpack(fixed.value, n);
      if k != 104 {
        return Got(Build(k, fs, []), r);
      }
      var before := r;
      var payload := ReadFull(fs[1]);
      if payload == None {
        return Failed(ShortRead(before));
      }
      return Got(Build(k, fs, payload.value), r);
    }
  }
}
