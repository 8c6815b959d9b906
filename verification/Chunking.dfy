/** The loop of channel.Write: data is cut into frames no longer than the peer's
    payload limit and the credit at hand. */
module Chunking {
  import opened Wire
  import opened Window
  import opened Protocol
  import opened Link

  /** Spinning: the chunk came out empty although data is left, so the loop sends
      the same empty frame for ever. */
  datatype Status = Done | EndOfFile | Waiting | Spinning

  /** The channel and the frames after Write has run as far as it can; a spinning
      loop is followed up to its first empty frame. */
  datatype Written = Written(c: Chan, out: seq<Message>, status: Status)

  function WriteLoop(c: Chan, data: seq<Byte>): Written
    decreases |data|
  {
    if data == [] then Written(c, [], Done)
    else match Reserve(c.remoteWin, Min(c.maxRemotePayload, |data|))
      case (_, WouldBlock) => Written(c, [], Waiting)
      case (w, AtEOF(_)) => Written(c.(remoteWin := w), [], EndOfFile)
      case (w, Granted(n)) =>
        var m := Message.Data(c.remoteId, n, data[..n]);
        if n == 0 then Written(c.(remoteWin := w), [m], Spinning)
        else
          var r := WriteLoop(c.(remoteWin := w), data[n..]);
          r.(out := [m] + r.out)
  }

  /** The loop's outcome once a step has sent out and left the channel at c. */
  function Resumed(c: Chan, out: seq<Message>, data: seq<Byte>): Written {
    var r :=
      if out == [] then Written(c, [], EndOfFile)
      else if Bytes(out) == [] then Written(c, [], Spinning)
      else WriteLoop(c, if Bytes(out) <= data then data[|Bytes(out)|..] else []);
    r.(out := out + r.out)
  }

  /** The loop is made of the atomic Write steps that sessions are made of. */
  lemma LoopIsSteps(o: Obj, data: seq<Byte>)
    requires o.owned && !o.c.sentEOF && data != []
    ensures match Do(o, Write(data))
      case Blocked => WriteLoop(o.c, data) == Written(o.c, [], Waiting)
      case Moved(q, out) =>
        && q.written == o.written + Bytes(out) && Bytes(out) <= data
        && WriteLoop(o.c, data) == Resumed(q.c, out, data)
  {
    var (w, g) := Reserve(o.c.remoteWin, Min(o.c.maxRemotePayload, |data|));
    if g.Granted? { OneFrame(Message.Data(o.c.remoteId, g.n, data[..g.n])); }
  }

  lemma OneFrame(m: Message)
    requires m.Data?
    ensures Bytes([m]) == m.data
  {
    assert [m][1..] == [];
  }

  ghost predicate ChunkOf(c: Chan, m: Message) {
    m.Data? && m.channelID == c.remoteId && 0 < m.length == |m.data| <= c.maxRemotePayload
  }

  /** The frames carry exactly a prefix of the data, in order; every frame makes
      progress and respects the limit, but for the last one of a loop that spins;
      Write succeeds exactly when the prefix is all of it; and the credit drawn is
      the number of bytes sent. */
  ghost predicate SendsAPrefix(c: Chan, data: seq<Byte>, r: Written) {
    var chunks := if r.status == Spinning then |r.out| - 1 else |r.out|;
    && Bytes(r.out) <= data
    && 0 <= chunks && (forall i :: 0 <= i < chunks ==> ChunkOf(c, r.out[i]))
    && (r.status == Spinning ==> r.out[chunks] == Message.Data(c.remoteId, 0, []))
    && (r.status == Done <==> |Bytes(r.out)| == |data|)
    && r.c == c.(remoteWin := r.c.remoteWin) && r.c.remoteWin.closed == c.remoteWin.closed
    && (r.status != EndOfFile ==> r.c.remoteWin.win + |Bytes(r.out)| == c.remoteWin.win)
    && (r.status == Waiting ==> r.c.remoteWin == Credit(0, false))
    && (r.status == EndOfFile ==> c.remoteWin.closed && r.out == [])
    && (r.status == Spinning ==>
          !r.c.remoteWin.closed && r.c.remoteWin.win > 0
          && Min(c.maxRemotePayload, |data| - |Bytes(r.out)|) == 0)
  }

  lemma PrependChunk(c: Chan, w: Credit, n: nat, data: seq<Byte>, r: Written)
    requires 0 < n <= |data| && n <= c.maxRemotePayload
    requires n <= c.remoteWin.win && !c.remoteWin.closed && w == Credit(c.remoteWin.win - n, false)
    requires SendsAPrefix(c.(remoteWin := w), data[n..], r)
    ensures SendsAPrefix(c, data, r.(out := [Message.Data(c.remoteId, n, data[..n])] + r.out))
  {
    var first := Message.Data(c.remoteId, n, data[..n]);
    var out := [first] + r.out;
    assert out[1..] == r.out && Bytes(out) == data[..n] + Bytes(r.out);
    forall i | 0 <= i < |out| && (r.status == Spinning ==> i < |out| - 1) ensures ChunkOf(c, out[i]) {
      if i > 0 { assert ChunkOf(c.(remoteWin := w), r.out[i - 1]); }
    }
    assert data == data[..n] + data[n..];
  }

  lemma {:induction false} WriteSendsAPrefix(c: Chan, data: seq<Byte>)
    ensures SendsAPrefix(c, data, WriteLoop(c, data))
    decreases |data|
  {
    if data != [] {
      var (w, g) := Reserve(c.remoteWin, Min(c.maxRemotePayload, |data|));
      if g.Granted? {
        if g.n > 0 {
          WriteSendsAPrefix(c.(remoteWin := w), data[g.n..]);
          PrependChunk(c, w, g.n, data, WriteLoop(c.(remoteWin := w), data[g.n..]));
        } else {
          SpinsAtOnce(c, data);
        }
      }
    }
  }

  lemma SpinsAtOnce(c: Chan, data: seq<Byte>)
    requires data != [] && c.remoteWin.win > 0 && !c.remoteWin.closed && Min(c.maxRemotePayload, |data|) == 0
    ensures WriteLoop(c, data) == Written(c, [Message.Data(c.remoteId, 0, [])], Spinning)
    ensures Bytes(WriteLoop(c, data).out) == []
  {
    assert data[..0] == [];
    OneFrame(Message.Data(c.remoteId, 0, []));
  }

  /** A loop that spins goes on doing so: where it was left, it sends the empty
      frame again and is left in the same place. */
  lemma SpinningIsForEver(c: Chan, data: seq<Byte>)
    requires WriteLoop(c, data).status == Spinning
    ensures var r := WriteLoop(c, data);
      && |Bytes(r.out)| <= |data|
      && WriteLoop(r.c, data[|Bytes(r.out)|..]) == Written(r.c, [Message.Data(c.remoteId, 0, [])], Spinning)
  {
    WriteSendsAPrefix(c, data);
    var r := WriteLoop(c, data);
    SpinsAtOnce(r.c, data[|Bytes(r.out)|..]);
  }

  /** No frame is smaller than it must be: all but the last one are as large as the
      peer's limit allows. */
  ghost predicate FullChunks(limit: nat, r: Written) {
    var full := |r.out| - if r.status == Spinning then 2 else 1;
    forall i :: 0 <= i < full ==> r.out[i].Data? && r.out[i].length == limit
  }

  lemma {:induction false} ChunksAreFull(c: Chan, data: seq<Byte>)
    ensures FullChunks(c.maxRemotePayload, WriteLoop(c, data))
    decreases |data|
  {
    if data != [] {
      var (w, g) := Reserve(c.remoteWin, Min(c.maxRemotePayload, |data|));
      if g.Granted? && g.n > 0 {
        ChunksAreFull(c.(remoteWin := w), data[g.n..]);
        if g.n < c.maxRemotePayload { ShortChunkIsLast(c, w, g.n, data); }
      }
    }
  }

  /** A chunk below the limit has used up the credit, or the data modulo 2^32. */
  lemma ShortChunkIsLast(c: Chan, w: Credit, n: nat, data: seq<Byte>)
    requires data != [] && 0 < n < c.maxRemotePayload
    requires Reserve(c.remoteWin, Min(c.maxRemotePayload, |data|)) == (w, Granted(n))
    ensures var r := WriteLoop(c.(remoteWin := w), data[n..]);
      r.out == [] || (r.status == Spinning && |r.out| == 1)
  {
    if w.win > 0 && n < |data| {
      assert (|data| - n) % U32 == 0;
      SpinsAtOnce(c.(remoteWin := w), data[n..]);
    }
  }

  // ---- how Write ends ----

  /** How Write ends, from the length of its data and the window alone: what
      matters is the length modulo 2^32, because min converts it to uint32. */
  function Ending(size: nat, w: Credit): Status {
    if size == 0 then Done
    else if w.closed then EndOfFile
    else if w.win < size % U32 then Waiting
    else if size < U32 then Done
    else if w.win == size % U32 then Waiting
    else Spinning
  }

  lemma EndingStep(size: nat, limit: nat, w: Credit, n: nat)
    requires size > 0 && limit > 0 && !w.closed && w.win > 0
    requires n == if w.win < Min(limit, size) then w.win else Min(limit, size)
    ensures n <= size && (n == 0 <==> size % U32 == 0)
    ensures n > 0 ==> Ending(size - n, Credit(w.win - n, false)) == Ending(size, w)
    ensures n == 0 ==> Ending(size, w) == Spinning
  {
    assert size == size / U32 * U32 + size % U32;
    if n > 0 {
      assert size - n == size / U32 * U32 + (size % U32 - n);
      assert (size - n) % U32 == size % U32 - n;
    }
  }

  lemma EndingWithoutCredit(size: nat, w: Credit)
    requires size > 0
    ensures w.closed ==> Ending(size, w) == EndOfFile
    ensures w == Credit(0, false) ==> Ending(size, w) == Waiting
  {}

  lemma GoesOn(c: Chan, w: Credit, n: nat, data: seq<Byte>)
    requires data != [] && n > 0 && Reserve(c.remoteWin, Min(c.maxRemotePayload, |data|)) == (w, Granted(n))
    ensures n <= |data| && WriteLoop(c, data).status == WriteLoop(c.(remoteWin := w), data[n..]).status
  {}

  lemma {:induction false} WriteEnds(c: Chan, data: seq<Byte>)
    requires c.maxRemotePayload > 0
    ensures WriteLoop(c, data).status == Ending(|data|, c.remoteWin)
    decreases |data|
  {
    if data != [] {
      var (w, g) := Reserve(c.remoteWin, Min(c.maxRemotePayload, |data|));
      if g.Granted? {
        EndingStep(|data|, c.maxRemotePayload, c.remoteWin, g.n);
        if g.n > 0 {
          GoesOn(c, w, g.n, data);
          WriteEnds(c.(remoteWin := w), data[g.n..]);
        }
      } else {
        EndingWithoutCredit(|data|, c.remoteWin);
      }
    }
  }

  // ---- with credit coming in ----

  /** A Write in progress: the channel's state and the bytes still to be sent. */
  datatype Progress = Progress(o: Obj, rest: seq<Byte>)

  /** One iteration, after the window has been set to the given credit. */
  function Iteration(p: Progress, credit: nat): Progress {
    var o := p.o.(c := p.o.c.(remoteWin := Credit(credit, false)));
    if p.rest == [] then Progress(o, [])
    else match Do(o, Write(p.rest))
      case Blocked => Progress(o, p.rest)
      case Moved(q, out) => Progress(q, if Bytes(out) <= p.rest then p.rest[|Bytes(out)|..] else [])
  }

  /** Write as it runs in a session: iteration i finds the window at credits[i]. */
  function Iterations(p: Progress, credits: seq<nat>): Progress {
    if credits == [] then p
    else Iteration(Iterations(p, credits[..|credits| - 1]), credits[|credits| - 1])
  }

  ghost predicate AllPositive(credits: seq<nat>) {
    forall i :: 0 <= i < |credits| ==> credits[i] > 0
  }

  ghost predicate Writing(p: Progress) {
    p.o.owned && !p.o.c.sentEOF && p.o.c.maxRemotePayload > 0
  }

  /** How much the next iteration sends. */
  function Chunk(p: Progress, credit: nat): (n: nat)
    ensures n <= |p.rest|
  {
    var want := Min(p.o.c.maxRemotePayload, |p.rest|);
    if credit < want then credit else want
  }

  lemma IterationSends(p: Progress, credit: nat)
    requires Writing(p) && credit > 0
    ensures var q, n := Iteration(p, credit), Chunk(p, credit);
      && Writing(q) && q.o.c.maxRemotePayload == p.o.c.maxRemotePayload
      && q.rest == p.rest[n..] && q.o.written == p.o.written + p.rest[..n]
  {
    if p.rest != [] {
      var o := p.o.(c := p.o.c.(remoteWin := Credit(credit, false)));
      var n := WriteEmits(o, p.rest);
      assert n == Chunk(p, credit);
      OneFrame(Message.Data(o.c.remoteId, n, p.rest[..n]));
    }
  }

  lemma IterationSplits(p: Progress, credit: nat)
    requires Writing(p) && credit > 0
    ensures var q := Iteration(p, credit);
      Writing(q) && q.o.written + q.rest == p.o.written + p.rest
  {
    IterationSends(p, credit);
    Resplit(p.o.written, p.rest, Chunk(p, credit));
  }

  lemma Resplit<T>(a: seq<T>, b: seq<T>, n: nat)
    requires n <= |b|
    ensures a + b[..n] + b[n..] == a + b
  {}

  /** A Write of 2^32 bytes or more gets no further than a multiple of 2^32
      bytes from its end. */
  lemma {:induction false} LongWritesStall(p: Progress, credits: seq<nat>)
    requires Writing(p) && AllPositive(credits)
    ensures Writing(Iterations(p, credits))
    ensures |p.rest| / U32 * U32 <= |Iterations(p, credits).rest| <= |p.rest|
  {
    if credits != [] {
      var before := credits[..|credits| - 1];
      LongWritesStall(p, before);
      assert credits[|credits| - 1] > 0;
      IterationSends(Iterations(p, before), credits[|credits| - 1]);
      var left := |Iterations(p, before).rest|;
      assert left / U32 == |p.rest| / U32;
      assert left == left / U32 * U32 + left % U32;
    }
  }

  lemma ChunkIsPositive(p: Progress, credit: nat)
    requires Writing(p) && credit > 0 && 0 < |p.rest| < U32
    ensures Chunk(p, credit) > 0
  {
    assert |p.rest| % U32 == |p.rest|;
  }

  lemma IterationShrinks(p: Progress, credit: nat)
    requires Writing(p) && credit > 0 && |p.rest| < U32
    ensures Writing(Iteration(p, credit))
    ensures |Iteration(p, credit).rest| <= if p.rest == [] then 0 else |p.rest| - 1
  {
    IterationSends(p, credit);
    if p.rest != [] { ChunkIsPositive(p, credit); }
  }

  /** Below 2^32 bytes every iteration with credit makes progress. */
  lemma {:induction false} ShortWritesFinish(p: Progress, credits: seq<nat>)
    requires Writing(p) && AllPositive(credits) && |p.rest| < U32
    ensures Writing(Iterations(p, credits))
    ensures |Iterations(p, credits).rest| <= if |credits| <= |p.rest| then |p.rest| - |credits| else 0
  {
    if credits != [] {
      var before := credits[..|credits| - 1];
      ShortWritesFinish(p, before);
      assert credits[|credits| - 1] > 0;
      IterationShrinks(Iterations(p, before), credits[|credits| - 1]);
    }
  }

  /** However the credit arrives, what has been written is a prefix of the data and
      the rest is what is left of it. */
  lemma {:induction false} IterationsSplitTheData(p: Progress, credits: seq<nat>)
    requires Writing(p) && AllPositive(credits)
    ensures var q := Iterations(p, credits);
      Writing(q) && q.o.written + q.rest == p.o.written + p.rest
  {
    if credits != [] {
      var before := credits[..|credits| - 1];
      IterationsSplitTheData(p, before);
      assert credits[|credits| - 1] > 0;
      IterationSplits(Iterations(p, before), credits[|credits| - 1]);
    }
  }

  /** Given credit at every turn, Write can finish if and only if its data is
      shorter than 2^32 bytes. */
  lemma WriteFinishesIffShort(o: Obj, data: seq<Byte>)
    requires Writing(Progress(o, data))
    ensures (exists credits :: AllPositive(credits) && Iterations(Progress(o, data), credits).rest == [])
       <==> |data| < U32
  {
    var p := Progress(o, data);
    if |data| < U32 {
      var credits := seq(|data|, _ => 1);
      ShortWritesFinish(p, credits);
      assert AllPositive(credits) && Iterations(p, credits).rest == [];
    } else {
      forall credits | AllPositive(credits) ensures Iterations(p, credits).rest != [] {
        LongWritesStall(p, credits);
        assert |data| / U32 >= 1;
      }
    }
  }
}
