/** What module System's invariant means for users of a session, stated for every
    state that some run of two conforming endpoints reaches. Each result is stated
    for one side; System.Mirror turns it into the same result about the other. */
module Guarantees {
  import opened Wire
  import opened Protocol
  import opened Link
  import opened System

  ghost predicate Reached(run: seq<Event>, s: State) {
    Obedient(Init, run) && Exec(Init, run) == Next(s)
  }

  /** Channel k exists at both ends and the accepting application got it. */
  ghost predicate Established(s: State, k: nat) {
    && k in s.a.objs && k in s.b.objs
    && (s.a.objs[k].c.direction == Inbound ==> s.a.objs[k].owned)
    && (s.b.objs[k].c.direction == Inbound ==> s.b.objs[k].owned)
  }

  lemma ReachedInv(run: seq<Event>, s: State)
    requires Reached(run, s)
    ensures Inv(s)
  {
    RunsKeepInv(Init, run);
  }

  lemma EstablishedIsLinked(s: State, k: nat)
    requires Inv(s) && Established(s, k)
    ensures Both(s.a.objs[k], s.b.objs[k], Proj(s.ab, k), Proj(s.ba, k), InTable(s.a, k), InTable(s.b, k))
  {
    assert Good(PairOf(s, k));
  }

  // ---- safety of delivery ----

  /** Whatever the interleaving of opens, time-outs, writes, reads, ends of
      stream, closes and id reuse, no packet is ever rejected: neither an unknown
      channel, nor an oversized or over-window payload, nor a bad window update,
      nor a misplaced answer; and the receive loop never hangs. */
  lemma NoPacketIsRejected(run: seq<Event>)
    requires Obedient(Init, run)
    ensures Exec(Init, run).Next?
    ensures var s := Exec(Init, run).s; forall atA, accept ::
      Act(s, Event(atA, Deliver(accept))).Next? || Act(s, Event(atA, Deliver(accept))) == Disabled
  {
    RunsKeepInv(Init, run);
    var s := Exec(Init, run).s;
    forall atA, accept
      ensures Act(s, Event(atA, Deliver(accept))).Next? || Act(s, Event(atA, Deliver(accept))) == Disabled
    {
      var e := Event(atA, Deliver(accept));
      if Act(s, e) != Disabled { StepKeepsInv(s, e); }
    }
  }

  // ---- credit and bytes ----

  /** Credit from a to b: what a may still send, plus what a has reserved and not
      yet encoded, plus data in flight, plus bytes buffered unread, plus bytes read
      but not yet credited, plus credit in flight, is the initial window until b
      closes, and never more than it. */
  lemma CreditIsConserved(run: seq<Event>, s: State, k: nat)
    requires Reached(run, s) && Established(s, k)
    ensures var x, y := s.a.objs[k], s.b.objs[k];
      var total :=
        x.c.remoteWin.win + Held(x) + |Bytes(Proj(s.ab, k))| + |y.c.pending| + y.uncredited + Credits(Proj(s.ba, k));
      && total <= 0x4000_0000
      && (!y.c.sentClose ==> total == 0x4000_0000)
      && (x.c.remoteWin.closed ==> y.c.sentClose)
  {
    ReachedInv(run, s);
    EstablishedIsLinked(s, k);
  }

  /** What a's Write accepted is what b's Read returned, then what b has
      buffered, then what is in flight, in order and without loss. */
  lemma StreamIsIntact(run: seq<Event>, s: State, k: nat)
    requires Reached(run, s) && Established(s, k)
    ensures s.a.objs[k].written == s.b.objs[k].read + s.b.objs[k].c.pending + Bytes(Proj(s.ab, k))
  {
    ReachedInv(run, s);
    EstablishedIsLinked(s, k);
  }

  /** What x had written by its first CloseWrite; everything, if there was none or
      nothing has been written since. */
  function BeforeEof(x: Obj): seq<Byte> {
    if Behind(x) <= |x.written| then x.written[..|x.written| - Behind(x)] else []
  }

  /** b's Read reports the end of the stream. */
  predicate AtEnd(y: Obj) {
    y.c.pendingClosed && y.c.pending == []
  }

  /** When b's Read reports end of stream, a has ended the stream, and b has read
      all that a wrote before that. */
  lemma EndOfStreamMeansComplete(run: seq<Event>, s: State, k: nat)
    requires Reached(run, s) && Established(s, k) && AtEnd(s.b.objs[k])
    ensures BeforeEof(s.a.objs[k]) <= s.b.objs[k].read <= s.a.objs[k].written
    ensures s.a.objs[k].c.sentEOF || s.a.objs[k].c.sentClose
  {
    ReachedInv(run, s);
    InvEndOfStream(s, k);
  }

  lemma InvEndOfStream(s: State, k: nat)
    requires Inv(s) && Established(s, k) && AtEnd(s.b.objs[k])
    ensures BeforeEof(s.a.objs[k]) <= s.b.objs[k].read <= s.a.objs[k].written
    ensures s.a.objs[k].c.sentEOF || s.a.objs[k].c.sentClose
  {
    EstablishedIsLinked(s, k);
    var x, y := s.a.objs[k], s.b.objs[k];
    assert y.read + [] == y.read && x.written == y.read + Bytes(Proj(s.ab, k));
  }

  // ---- ids ----

  lemma InFlightHasHome(v: Pair, m: Message)
    requires Good(v) && m in v.xy && !m.Open?
    ensures v.y.Some? && v.yin && m.channelID == v.y.value.c.localId
  {
    if Linked(v) {
      var i :| 0 <= i < |v.xy| && v.xy[i] == m;
      assert LegalAt(v.xy, i, RouteOf(v.x.value, v.y.value));
    }
  }

  /** Every frame in flight towards b, not only the next one, is addressed to the
      table slot that holds the very channel it was sent for. */
  lemma FramesAreRoutable(run: seq<Event>, s: State, i: nat)
    requires Reached(run, s) && i < |s.ab| && !s.ab[i].msg.Open?
    ensures Get(s.b.table, s.ab[i].msg.channelID) == Some(s.ab[i].tag)
  {
    ReachedInv(run, s);
    ProjMember(s.ab, i);
    InFlightHasHome(PairOf(s, s.ab[i].tag), s.ab[i].msg);
  }

  /** So two frames in flight with the same id belong to the same channel, even
      though ids are reused. */
  lemma IdsAreUnambiguous(run: seq<Event>, s: State, i: nat, j: nat)
    requires Reached(run, s) && i < |s.ab| && j < |s.ab|
    requires !s.ab[i].msg.Open? && !s.ab[j].msg.Open? && s.ab[i].msg.channelID == s.ab[j].msg.channelID
    ensures s.ab[i].tag == s.ab[j].tag
  {
    FramesAreRoutable(run, s, i);
    FramesAreRoutable(run, s, j);
  }

  /** An established channel leaves a's table exactly when both sides have sent
      Close and b's has arrived; nothing is then left in flight towards it. */
  lemma IdFreedOnlyWhenClosed(run: seq<Event>, s: State, k: nat)
    requires Reached(run, s) && Established(s, k)
    ensures !InTable(s.a, k) ==>
      s.a.objs[k].c.sentClose && s.b.objs[k].c.sentClose && Proj(s.ba, k) == []
    ensures InTable(s.a, k) && s.b.objs[k].c.sentClose ==>
      Proj(s.ba, k) != [] && Proj(s.ba, k)[|Proj(s.ba, k)| - 1].Close?
  {
    ReachedInv(run, s);
    EstablishedIsLinked(s, k);
  }

  // ---- the bytes on the wire ----

  ghost predicate IdsFit(e: Endpoint) {
    forall k :: k in e.objs ==> e.objs[k].c.localId < U32
  }

  function Messages(link: seq<Frame>): seq<Message> {
    if link == [] then [] else [link[0].msg] + Messages(link[1..])
  }

  lemma {:induction false} CreditOfMember(q: seq<Message>, m: Message)
    requires m in q
    ensures CreditOf(m) <= Credits(q)
  {
    if q[0] != m { CreditOfMember(q[1..], m); }
  }

  lemma InFlightFits(v: Pair, m: Message)
    requires Good(v) && m in v.xy
    requires v.x.Some? ==> v.x.value.c.localId < U32
    requires v.y.Some? ==> v.y.value.c.localId < U32
    ensures WellFormed(m)
  {
    if Linked(v) {
      var i :| 0 <= i < |v.xy| && v.xy[i] == m;
      assert LegalAt(v.xy, i, RouteOf(v.x.value, v.y.value));
      CreditOfMember(v.xy, m);
    }
  }

  lemma {:induction false} MessagesFit(s: State, link: seq<Frame>)
    requires Inv(s) && IdsFit(s.a) && IdsFit(s.b)
    requires forall f :: f in link ==> f in s.ab
    ensures forall m :: m in Messages(link) ==> WellFormed(m)
  {
    if link != [] {
      var f := link[0];
      assert f in link;
      var i :| 0 <= i < |s.ab| && s.ab[i] == f;
      ProjMember(s.ab, i);
      InFlightFits(PairOf(s, f.tag), f.msg);
      MessagesFit(s, link[1..]);
    }
  }

  /** As long as local ids fit in a uint32, the frames in flight are recovered
      from the bytes on the wire, exactly and in order. */
  lemma WireCarriesTheLink(run: seq<Event>, s: State)
    requires Reached(run, s) && IdsFit(s.a) && IdsFit(s.b)
    ensures DecodeMany(EncodeAll(Messages(s.ab)), |Messages(s.ab)|) == Some((Messages(s.ab), []))
  {
    ReachedInv(run, s);
    MessagesFit(s, s.ab);
    StreamRoundTrip(Messages(s.ab), []);
    assert EncodeAll(Messages(s.ab)) + [] == EncodeAll(Messages(s.ab));
  }
}
