/** Length-prefixed framing of encoded values (rpc/frame.go) over any codec and any
    way the transport cuts the byte stream into pieces. */
module RpcFrame {
  import opened Wire
  import System
  import Guarantees

  /** A codec as a pair of functions; either may refuse. */
  datatype Codec<!V> = Codec(enc: V -> Option<seq<Byte>>, dec: seq<Byte> -> Option<V>)

  ghost predicate Inverts<V(!new)>(c: Codec<V>) {
    forall v :: c.enc(v).Some? ==> c.dec(c.enc(v).value) == Some(v)
  }

  // ---- frames ----

  function Frame(b: seq<Byte>): seq<Byte> {
    Be32(|b|) + b
  }

  function Frames(bs: seq<seq<Byte>>): seq<Byte> {
    if bs == [] then [] else Frame(bs[0]) + Frames(bs[1..])
  }

  datatype Unframed = Body(b: seq<Byte>, rest: seq<Byte>) | Short(error: ReadError)

  function Unframe(s: seq<Byte>): Unframed {
    if |s| < 4 then Short(ShortRead(s))
    else
      var size := Value(s[..4]);
      if |s| - 4 < size then Short(ShortRead(s[4..]))
      else Body(s[4..][..size], s[4..][size..])
  }

  lemma UnframeFrame(b: seq<Byte>, suffix: seq<Byte>)
    requires |b| < U32
    ensures Unframe(Frame(b) + suffix) == Body(b, suffix)
  {
    var s := Frame(b) + suffix;
    FourBytes();
    ValueOfDigits(|b|, 4);
    assert s[..4] == Be32(|b|) && s[4..] == b + suffix;
  }

  /** The four-byte prefix is enough exactly for bodies under 2^32 bytes. */
  lemma FrameReadsBackIffShort(b: seq<Byte>, suffix: seq<Byte>)
    ensures Unframe(Frame(b) + suffix) == Body(b, suffix) <==> |b| < U32
  {
    if |b| < U32 {
      UnframeFrame(b, suffix);
    } else {
      FourBytes();
      ValueBound((Frame(b) + suffix)[..4]);
    }
  }

  /** The prefix is the length of the body, most significant byte first. */
  lemma FrameLayout(b: seq<Byte>)
    ensures Frame(b)
         == [|b| / 0x100_0000 % 256, |b| / 0x1_0000 % 256, |b| / 0x100 % 256, |b| % 256] + b
  {
    Be32Bytes(|b|);
  }

  /** What is read from any bytes: the body that the prefix announces and what follows
      it, or an error; an end exactly behind the prefix is reported as a clean one. */
  lemma UnframeMeans(s: seq<Byte>)
    ensures |s| < 4 ==> Unframe(s) == Short(if s == [] then EndOfStream else UnexpectedEnd)
    ensures |s| >= 4 ==>
      var size := s[0] as nat * 0x100_0000 + s[1] as nat * 0x1_0000 + s[2] as nat * 0x100 + s[3];
      if |s| < 4 + size then Unframe(s) == Short(if |s| == 4 then EndOfStream else UnexpectedEnd)
      else Unframe(s) == Body(s[4..4 + size], s[4 + size..])
  {
    if |s| >= 4 { ValueBytes(s[..4]); }
  }

  // ---- values ----

  /** One Decode: None for a body the codec refuses, which is consumed all the
      same. */
  datatype Item<V> = Item(v: Option<V>, rest: seq<Byte>) | Cut(error: ReadError)

  function DecodeItem<V>(c: Codec<V>, s: seq<Byte>): Item<V> {
    match Unframe(s)
    case Short(error) => Cut(error)
    case Body(b, rest) => Item(c.dec(b), rest)
  }

  function DecodeItems<V>(c: Codec<V>, s: seq<Byte>, n: nat): Option<(seq<Option<V>>, seq<Byte>)> {
    if n == 0 then Some(([], s))
    else match DecodeItem(c, s)
      case Cut(_) => None
      case Item(v, rest) =>
        match DecodeItems(c, rest, n - 1)
        case None => None
        case Some((vs, end)) => Some(([v] + vs, end))
  }

  function Inner<V>(c: Codec<V>, bs: seq<seq<Byte>>): (vs: seq<Option<V>>)
    ensures |vs| == |bs|
  {
    if bs == [] then [] else [c.dec(bs[0])] + Inner(c, bs[1..])
  }

  /** Whatever the bodies, well encoded or not, n calls of Decode see exactly the
      n bodies: a body that the codec refuses does not disturb the next. */
  lemma {:induction false} FramesStayAligned<V>(c: Codec<V>, bs: seq<seq<Byte>>, suffix: seq<Byte>)
    requires forall i :: 0 <= i < |bs| ==> |bs[i]| < U32
    ensures DecodeItems(c, Frames(bs) + suffix, |bs|) == Some((Inner(c, bs), suffix))
  {
    if bs == [] {
      assert Frames(bs) + suffix == suffix;
    } else {
      var rest := Frames(bs[1..]) + suffix;
      assert Frames(bs) + suffix == Frame(bs[0]) + rest;
      UnframeFrame(bs[0], rest);
      FramesStayAligned(c, bs[1..], suffix);
    }
  }

  ghost predicate Encodable<V>(c: Codec<V>, vs: seq<V>) {
    forall i :: 0 <= i < |vs| ==> c.enc(vs[i]).Some? && |c.enc(vs[i]).value| < U32
  }

  function Bodies<V>(c: Codec<V>, vs: seq<V>): (bs: seq<seq<Byte>>)
    requires Encodable(c, vs)
    ensures |bs| == |vs| && forall i :: 0 <= i < |vs| ==> bs[i] == c.enc(vs[i]).value
  {
    if vs == [] then [] else [c.enc(vs[0]).value] + Bodies(c, vs[1..])
  }

  function Somes<V>(vs: seq<V>): seq<Option<V>> {
    if vs == [] then [] else [Some(vs[0])] + Somes(vs[1..])
  }

  lemma {:induction false} SomesAt<V>(vs: seq<V>)
    ensures |Somes(vs)| == |vs| && forall i :: 0 <= i < |vs| ==> Somes(vs)[i] == Some(vs[i])
  {
    if vs != [] { SomesAt(vs[1..]); }
  }

  /** What an encoder writes for the values, one after the other. */
  function Written<V>(c: Codec<V>, vs: seq<V>): seq<Byte> {
    if vs == [] then []
    else
      var b := c.enc(vs[|vs| - 1]);
      Written(c, vs[..|vs| - 1]) + if b.Some? then Frame(b.value) else []
  }

  lemma {:induction false} FramesAppend(bs: seq<seq<Byte>>, b: seq<Byte>)
    ensures Frames(bs + [b]) == Frames(bs) + Frame(b)
  {
    if bs == [] {
      assert [b][1..] == [];
    } else {
      assert (bs + [b])[1..] == bs[1..] + [b];
      FramesAppend(bs[1..], b);
    }
  }

  lemma WrittenMore<V>(c: Codec<V>, vs: seq<V>, v: V)
    ensures Written(c, vs + [v]) == Written(c, vs) + if c.enc(v).Some? then Frame(c.enc(v).value) else []
  {
    assert (vs + [v])[..|vs|] == vs;
  }

  lemma BodiesLast<V>(c: Codec<V>, vs: seq<V>)
    requires Encodable(c, vs) && vs != []
    ensures var n := |vs| - 1; Bodies(c, vs) == Bodies(c, vs[..n]) + [c.enc(vs[n]).value]
  {}

  lemma {:induction false} WrittenIsFrames<V>(c: Codec<V>, vs: seq<V>)
    requires Encodable(c, vs)
    ensures Written(c, vs) == Frames(Bodies(c, vs))
  {
    if vs != [] {
      var n := |vs| - 1;
      WrittenIsFrames(c, vs[..n]);
      BodiesLast(c, vs);
      FramesAppend(Bodies(c, vs[..n]), c.enc(vs[n]).value);
    }
  }

  lemma {:induction false} InnerOfBodies<V(!new)>(c: Codec<V>, vs: seq<V>)
    requires Inverts(c) && Encodable(c, vs)
    ensures Inner(c, Bodies(c, vs)) == Somes(vs)
  {
    if vs != [] {
      InnerOfBodies(c, vs[1..]);
      assert c.dec(c.enc(vs[0]).value) == Some(vs[0]);
      assert Bodies(c, vs)[1..] == Bodies(c, vs[1..]);
    }
  }

  /** With a codec that inverts itself, the values sent are the values received,
      in order, and whatever follows is untouched. */
  lemma ValuesRoundTrip<V(!new)>(c: Codec<V>, vs: seq<V>, suffix: seq<Byte>)
    requires Inverts(c) && Encodable(c, vs)
    ensures DecodeItems(c, Frames(Bodies(c, vs)) + suffix, |vs|) == Some((Somes(vs), suffix))
  {
    FramesStayAligned(c, Bodies(c, vs), suffix);
    InnerOfBodies(c, vs);
  }

  // ---- partial streams ----

  /** All complete frames at the front of s. */
  function Complete(s: seq<Byte>): seq<seq<Byte>>
    decreases |s|
  {
    match Unframe(s)
    case Short(_) => []
    case Body(b, rest) => [b] + Complete(rest)
  }

  lemma UnframePrefix(b: seq<Byte>, rest: seq<Byte>, s: seq<Byte>)
    requires |b| < U32 && s <= Frame(b) + rest
    ensures Unframe(s).Body? ==> Unframe(s).b == b && Unframe(s).rest <= rest
  {
    var all := Frame(b) + rest;
    UnframeFrame(b, rest);
    if |s| >= 4 { assert s[..4] == all[..4]; }
  }

  /** A reader that has only part of the stream sees only frames that were sent,
      from the first one on. */
  lemma {:induction false} PartialReadSeesPrefix(bs: seq<seq<Byte>>, s: seq<Byte>)
    requires forall i :: 0 <= i < |bs| ==> |bs[i]| < U32
    requires s <= Frames(bs)
    ensures Complete(s) <= bs
    ensures s == Frames(bs) ==> Complete(s) == bs
  {
    if bs != [] {
      var rest := Frames(bs[1..]);
      UnframePrefix(bs[0], rest, s);
      if Unframe(s).Body? { PartialReadSeesPrefix(bs[1..], Unframe(s).rest); }
      if s == Frames(bs) { UnframeFrame(bs[0], rest); }
    }
  }

  /** More bytes only add frames. */
  lemma {:induction false} CompleteGrows(s: seq<Byte>, s': seq<Byte>)
    requires s <= s'
    ensures Complete(s) <= Complete(s')
    decreases |s|
  {
    if Unframe(s).Body? {
      assert s'[..4] == s[..4] && s'[4..][..|s| - 4] == s[4..];
      assert Unframe(s').Body? && Unframe(s').b == Unframe(s).b;
      CompleteGrows(Unframe(s).rest, Unframe(s').rest);
    }
  }

  /** Framing over a mux channel: while one end is writing the frames bs, at any
      moment of any run, in the middle of a frame too, and however the channel cut
      them up, the complete frames that the other end has read are a prefix of bs.
      Once that end has seen the end of the stream, it has all the frames that were
      completely written by then. */
  lemma FramesOverChannel(run: seq<System.Event>, s: System.State, k: nat, bs: seq<seq<Byte>>)
    requires Guarantees.Reached(run, s) && Guarantees.Established(s, k)
    requires forall i :: 0 <= i < |bs| ==> |bs[i]| < U32
    requires s.a.objs[k].written <= Frames(bs)
    ensures Complete(s.b.objs[k].read) <= Complete(s.a.objs[k].written) <= bs
    ensures Guarantees.AtEnd(s.b.objs[k]) ==>
      Complete(Guarantees.BeforeEof(s.a.objs[k])) <= Complete(s.b.objs[k].read)
    ensures s.a.objs[k].written == Frames(bs) ==> Complete(s.a.objs[k].written) == bs
  {
    Guarantees.StreamIsIntact(run, s, k);
    PartialReadSeesPrefix(bs, s.b.objs[k].read);
    PartialReadSeesPrefix(bs, s.a.objs[k].written);
    CompleteGrows(s.b.objs[k].read, s.a.objs[k].written);
    if Guarantees.AtEnd(s.b.objs[k]) {
      Guarantees.EndOfStreamMeansComplete(run, s, k);
      CompleteGrows(Guarantees.BeforeEof(s.a.objs[k]), s.b.objs[k].read);
    }
  }

  // ---- the objects ----

  function Flat(chunks: seq<seq<Byte>>): seq<Byte> {
    if chunks == [] then [] else chunks[0] + Flat(chunks[1..])
  }

  /** A transport that delivers its bytes in arbitrary pieces. */
  class Reader {
    var chunks: seq<seq<Byte>>

    constructor (chunks: seq<seq<Byte>>)
      ensures this.chunks == chunks
    {
      this.chunks := chunks;
    }

    /** io.Reader: at most n bytes of the next piece; none at the end. */
    method Read(n: nat) returns (b: seq<Byte>)
      requires n > 0
      modifies this
      ensures Flat(old(chunks)) == b + Flat(chunks) && |b| <= n
      ensures b == [] ==> Flat(old(chunks)) == []
    {
      while chunks != [] && chunks[0] == []
        invariant Flat(chunks) == Flat(old(chunks))
        decreases |chunks|
      {
        chunks := chunks[1..];
      }
      if chunks == [] {
        return [];
      }
      var k := if n < |chunks[0]| then n else |chunks[0]|;
      b := chunks[0][..k];
      ghost var whole := Flat(chunks);
      chunks := [chunks[0][k..]] + chunks[1..];
      assert whole == b + Flat(chunks);
    }

    /** io.ReadFull: the pieces do not matter, only their concatenation. */
    method ReadFull(n: nat) returns (b: Option<seq<Byte>>, got: nat)
      modifies this
      ensures var s := Flat(old(chunks));
        if n <= |s| then b == Some(s[..n]) && Flat(chunks) == s[n..] && got == n
        else b == None && Flat(chunks) == [] && got == |s|
    {
      var acc: seq<Byte> := [];
      ghost var s := Flat(chunks);
      while |acc| < n
        invariant s == acc + Flat(chunks) && |acc| <= n
        decreases n - |acc|
      {
        var piece := Read(n - |acc|);
        if piece == [] {
          return None, |acc|;
        }
        assert s == acc + piece + Flat(chunks);
        acc := acc + piece;
      }
      return Some(acc), n;
    }
  }

  /** frameDecoder */
  class FrameDecoder<V> {
    const r: Reader
    const c: Codec<V>

    constructor (r: Reader, c: Codec<V>)
      ensures this.r == r && this.c == c
    {
      this.r, this.c := r, c;
    }

    /** cut is set when the stream ends inside a frame; v is None as well when
        the codec refuses the body. */
    method Decode() returns (v: Option<V>, cut: Option<ReadError>)
      modifies r
      ensures match DecodeItem(c, Flat(old(r.chunks)))
        case Item(x, rest) => v == x && cut == None && Flat(r.chunks) == rest
        case Cut(error) => v == None && cut == Some(error)
    {
      var prefix, n := r.ReadFull(4);
      if prefix == None {
        return None, Some(if n == 0 then EndOfStream else UnexpectedEnd);
      }
      var size := Value(prefix.value);
      var body;
      body, n := r.ReadFull(size);
      if body == None {
        return None, Some(if n == 0 then EndOfStream else UnexpectedEnd);
      }
      return c.dec(body.value), None;
    }
  }

  /** frameEncoder: one Write of prefix and body; a refused value writes nothing. */
  class FrameEncoder<V> {
    var w: seq<Byte>
    const c: Codec<V>

    constructor (c: Codec<V>)
      ensures this.c == c && w == []
    {
      this.c, w := c, [];
    }

    method Encode(v: V) returns (ok: bool)
      modifies this
      ensures ok == c.enc(v).Some?
      ensures w == old(w) + if ok then Frame(c.enc(v).value) else []
    {
      var b := c.enc(v);
      if b == None {
        return false;
      }
      var prefix := new Byte[4];
      Be32Bytes(|b.value|);
      prefix[0], prefix[1] := |b.value| / 0x100_0000 % 256, |b.value| / 0x1_0000 % 256;
      prefix[2], prefix[3] := |b.value| / 0x100 % 256, |b.value| % 256;
      assert prefix[..] == Be32(|b.value|);
      w := w + (prefix[..] + b.value);
      return true;
    }
  }
}
