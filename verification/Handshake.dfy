/** How channels come about and what their packets may be (mux/session.go:198-224,
    mux/channel.go:194-264), against a peer that may send anything. The limits of the
    protocol are written out as numbers here. */
module Handshake {
  import opened Wire
  import opened Window
  import opened Protocol
  import opened AnyPeer
  import Chunking

  // ---- opening ----

  /** An Open whose packet size is below 9 or above 2^31 makes no channel: the answer
      is one OpenFailure to the peer's channel, and table and channels stay. */
  lemma BadOpenIsRefused(e: Endpoint, k: nat, m: Message, accept: bool)
    requires m.Open?
    ensures Receive(e, k, m, accept) == Step(e, k, [Message.OpenFailure(m.senderID)])
       <==> !(9 <= m.maxPacketSize <= 0x8000_0000)
  {
    if 9 <= m.maxPacketSize <= 0x8000_0000 {
      var o := Answered(FreeSlot(e.table), m, accept);
      assert Put(e.table, FreeSlot(e.table), Some(k))[FreeSlot(e.table)] == Some(k);
      assert Receive(e, k, m, accept).e.table != e.table;
    }
  }

  /** id is the lowest one that no channel of the table has. */
  ghost predicate LowestFree(e: Endpoint, id: nat) {
    Get(e.table, id) == None && id <= |e.table| && forall j :: 0 <= j < id ==> e.table[j].Some?
  }

  /** What a new channel k with this id offers its peer: 2^30 bytes of window and
      packets of 2^24 bytes. Nothing has been read, written or queued, and no other
      channel is touched. */
  ghost predicate Created(e: Endpoint, e': Endpoint, k: nat, id: nat, owned: bool, m: Message) {
    && LowestFree(e, id) && Get(e'.table, id) == Some(k)
    && (forall j :: j != id ==> Get(e'.table, j) == Get(e.table, j))
    && e'.objs.Keys == e.objs.Keys + {k} && (forall j :: j in e.objs && j != k ==> e'.objs[j] == e.objs[j])
    && var o := e'.objs[k];
    && o.owned == owned && !o.abandoned && o.sent == [m]
    && o.written == [] && o.read == [] && o.uncredited == 0 && o.writers == 0 && o.inHand == None && o.eofAt == None
    && o.c.localId == id && o.c.myWindow == 0x4000_0000 && o.c.maxIncomingPayload == 0x100_0000
    && o.c.pending == [] && !o.c.pendingClosed && o.c.msg == [] && !o.c.msgClosed
    && !o.c.sentEOF && !o.c.sentClose && !o.c.remoteWin.closed
  }

  /** An Open inside the range creates one channel, at the lowest free id. If Accept
      takes it, the application holds it and the peer is told that id, the window and
      the packet size; if not, nobody holds it and the peer is told that it failed.
      Either way it sends to the peer's channel within the peer's limits. */
  lemma GoodOpenMakesAChannel(e: Endpoint, k: nat, m: Message, accept: bool)
    requires m.Open? && WellFormed(m) && 9 <= m.maxPacketSize <= 0x8000_0000
    ensures var r := Receive(e, k, m, accept);
      && r.Step? && r.k == k && |r.out| == 1
      && exists id ::
           && Created(e, r.e, k, id, accept, r.out[0])
           && r.out[0] == if accept then Message.OpenConfirm(m.senderID, id, 0x4000_0000, 0x100_0000)
                          else Message.OpenFailure(m.senderID)
    ensures var c := Receive(e, k, m, accept).e.objs[k].c;
      && c.direction == Inbound && c.remoteId == m.senderID
      && c.maxRemotePayload == m.maxPacketSize && c.remoteWin.win == m.windowSize
  {
    var r := Receive(e, k, m, accept);
    assert Fields(m)[1] < U32;
    AddIsExact(Credit(0, false), m.windowSize);
    assert Created(e, r.e, k, FreeSlot(e.table), accept, r.out[0]);
  }

  /** Open announces the lowest free id, 2^30 bytes of window and packets of 2^24
      bytes; nobody holds the channel yet, and it has no credit to send. */
  lemma OpenAnnounces(e: Endpoint, k: nat)
    ensures var r := StartOpen(e, k);
      && r.Step? && r.k == k && |r.out| == 1
      && exists id ::
           && Created(e, r.e, k, id, false, r.out[0])
           && r.out[0] == Message.Open(id, 0x4000_0000, 0x100_0000)
    ensures var c := StartOpen(e, k).e.objs[k].c;
      c.direction == Outbound && c.maxRemotePayload == 0 && c.remoteWin.win == 0
  {
    var r := StartOpen(e, k);
    assert Created(e, r.e, k, FreeSlot(e.table), false, r.out[0]);
  }

  // ---- the packet size of every channel ----

  /** A channel without a packet size is one that this side asked for and nobody
      holds: nothing but refusals may have come back. */
  ghost predicate Sized(o: Obj) {
    if o.c.maxRemotePayload == 0 then
      o.c.direction == Outbound && !o.owned && forall i :: 0 <= i < |o.c.msg| ==> o.c.msg[i].OpenFailure?
    else 9 <= o.c.maxRemotePayload <= 0x8000_0000
  }

  ghost predicate AllSized(e: Endpoint) {
    forall k :: k in e.objs ==> Sized(e.objs[k])
  }

  lemma DoKeepsSized(o: Obj, op: Op)
    requires Sized(o) && Do(o, op).Moved?
    ensures Sized(Do(o, op).o)
  {}

  lemma HandleKeepsSized(o: Obj, m: Message)
    requires Sized(o) && !Handle(o.c, m).Rejected?
    ensures Sized(o.(c := Handle(o.c, m).c))
  {}

  lemma ReceiveKeepsSized(e: Endpoint, k: nat, m: Message, accept: bool)
    requires AllSized(e)
    ensures var r := Receive(e, k, m, accept); r.Step? || r.Hung? ==> AllSized(r.e)
  {
    if !m.Open? && Get(e.table, m.channelID).Some? && Get(e.table, m.channelID).value in e.objs {
      var o := e.objs[Get(e.table, m.channelID).value];
      if !Handle(o.c, m).Rejected? { HandleKeepsSized(o, m); }
    }
  }

  lemma CallKeepsSized(s: Session, k: nat, op: Op)
    requires SessionOk(s) && AllSized(s.e)
    ensures AllSized(Feed(s, Call(k, op)).e)
  {
    if k in s.e.objs && Do(s.e.objs[k], op).Moved? {
      DoKeepsSized(s.e.objs[k], op);
      FeedCall(s, k, op);
      assert AllSized(s.e.(objs := s.e.objs[k := Do(s.e.objs[k], op).o]));
      if s.Wedged? && k == s.k { CallOnFull(s.e.objs[k], op); }
    }
  }

  lemma FeedKeepsSized(s: Session, i: Input)
    requires SessionOk(s) && AllSized(s.e)
    ensures AllSized(Feed(s, i).e)
  {
    match i {
      case Call(k, op) => CallKeepsSized(s, k, op);
      case Incoming(m, accept) => ReceiveKeepsSized(s.e, s.next, m, accept);
      case Opening =>
      case Lost =>
    }
  }

  lemma {:induction false} AlwaysSized(inputs: seq<Input>)
    requires Decodable(inputs)
    ensures AllSized(FeedAll(inputs).e)
  {
    if inputs != [] {
      var before := inputs[..|inputs| - 1];
      AlwaysSized(before);
      AlwaysOk(before);
      FeedKeepsSized(FeedAll(before), inputs[|inputs| - 1]);
    }
  }

  /** Whatever the peer sends, a channel that an application holds sends packets of
      at least 9 and at most 2^31 bytes; so a Write on it of less than 2^32 bytes ends
      or waits for credit, and never spins. */
  lemma HeldChannelsHaveALimit(inputs: seq<Input>, k: nat, data: seq<Byte>)
    requires Decodable(inputs) && k in FeedAll(inputs).e.objs && FeedAll(inputs).e.objs[k].owned
    ensures var c := FeedAll(inputs).e.objs[k].c;
      && 9 <= c.maxRemotePayload <= 0x8000_0000
      && (|data| < 0x1_0000_0000 ==> Chunking.WriteLoop(c, data).status != Chunking.Spinning)
  {
    AlwaysSized(inputs);
    var c := FeedAll(inputs).e.objs[k].c;
    assert Sized(FeedAll(inputs).e.objs[k]);
    Chunking.WriteEnds(c, data);
  }

  // ---- which packets end the session ----

  /** A packet that its channel takes. Data must fit the packet size and, with what is
      unread and uncredited, the window; a window update must leave a uint32; only an
      Open of this side is answered, with a usable packet size. */
  ghost predicate Welcome(o: Obj, m: Message) {
    match m
    case Data(_, length, _) =>
      length <= 0x100_0000 && |o.c.pending| + o.uncredited + length <= 0x4000_0000
    case WindowAdjust(_, n) => o.c.remoteWin.win + n < 0x1_0000_0000
    case OpenConfirm(_, _, _, max) => o.c.direction == Outbound && 9 <= max <= 0x8000_0000
    case OpenFailure(_) => o.c.direction == Outbound
    case EOF(_) => true
    case Close(_) => true
    case Open(_, _, _) => false
  }

  /** Channel k is listed under the id that m is addressed to, and takes m. */
  ghost predicate Takes(e: Endpoint, k: nat, m: Message) {
    !m.Open? && InTable(e, k) && e.objs[k].c.localId == m.channelID && Welcome(e.objs[k], m)
  }

  lemma HandledIffWelcome(o: Obj, m: Message)
    requires ObjOk(o, true, false) && WellFormed(m)
    ensures Handle(o.c, m).Rejected? <==> !Welcome(o, m)
    ensures m.Data? && Handle(o.c, m).Rejected? ==>
      Handle(o.c, m).reason == if m.length > 0x100_0000 then PayloadTooBig else WroteTooMuch
  {
    match m {
      case WindowAdjust(_, n) => assert Fields(m)[1] < U32; AddIsExact(o.c.remoteWin, n);
      case Data(_, length, data) => assert Fields(m)[1] < U32;
      case _ =>
    }
  }

  /** After any inputs, a packet ends the session if and only if it is not an Open and
      no listed channel takes it. */
  lemma PacketEndsSessionIff(inputs: seq<Input>, m: Message, accept: bool)
    requires Decodable(inputs) && FeedAll(inputs).Running? && WellFormed(m)
    ensures var s := FeedAll(inputs);
      Feed(s, Incoming(m, accept)).Ended? <==> !m.Open? && forall k :: !Takes(s.e, k, m)
  {
    AlwaysOk(inputs);
    EndsIffNotTaken(FeedAll(inputs), m, accept);
  }

  lemma EndsIffNotTaken(s: Session, m: Message, accept: bool)
    requires s.Running? && ObjsOk(s) && WellFormed(m)
    ensures Feed(s, Incoming(m, accept)).Ended? <==> !m.Open? && forall k :: !Takes(s.e, k, m)
  {
    if !m.Open? && Get(s.e.table, m.channelID).Some? {
      var k := Get(s.e.table, m.channelID).value;
      assert InTable(s.e, k) && ObjOk(s.e.objs[k], true, false);
      HandledIffWelcome(s.e.objs[k], m);
      ReceiveReaches(s.e, s.next, m, accept, k);
      assert Takes(s.e, k, m) <==> Welcome(s.e.objs[k], m);
    }
  }

  lemma EndingTearsDown(s: Session, m: Message, accept: bool)
    requires s.Running? && Feed(s, Incoming(m, accept)).Ended?
    ensures Feed(s, Incoming(m, accept)).e == Teardown(s.e)
  {}

  // ---- what a packet does that its channel takes ----

  /** The buffer grows by the data and by nothing else; it ends with EOF or Close;
      Close is answered once and, like OpenFailure, takes the channel off the table;
      credit and settings change as the packet says. */
  ghost predicate Does(o: Obj, o': Obj, m: Message) {
    && o'.c.pending == o.c.pending + (if m.Data? then m.data else [])
    && o'.c.pendingClosed == (o.c.pendingClosed || m.EOF? || m.Close?)
    && o'.sent == o.sent + (if m.Close? && !o.c.sentClose then [Message.Close(o.c.remoteId)] else [])
    && o'.c.sentClose == (o.c.sentClose || m.Close?)
    && o'.c.remoteWin.closed == m.Close? && o'.c.msgClosed == m.Close?
    && (m.WindowAdjust? ==> o'.c.remoteWin.win == o.c.remoteWin.win + m.additionalBytes)
    && (m.OpenConfirm? ==>
          o'.c.remoteId == m.senderID && o'.c.maxRemotePayload == m.maxPacketSize
          && o'.c.remoteWin.win == o.c.remoteWin.win
             + if o.c.remoteWin.win + m.windowSize < 0x1_0000_0000 then m.windowSize else 0)
    && (!m.WindowAdjust? && !m.OpenConfirm? ==> o'.c.remoteWin.win == o.c.remoteWin.win)
    && (!m.OpenConfirm? ==> o'.c.remoteId == o.c.remoteId && o'.c.maxRemotePayload == o.c.maxRemotePayload)
    && o'.c.sentEOF == o.c.sentEOF && o' == o.(c := o'.c, sent := o'.sent)
  }

  lemma HandleDoes(o: Obj, m: Message)
    requires ObjOk(o, true, false) && WellFormed(m) && Welcome(o, m)
    ensures var h := Handle(o.c, m);
      && !h.Rejected? && h.drop == (m.Close? || m.OpenFailure?) && h.c.localId == o.c.localId
      && Does(o, o.(c := h.c, sent := o.sent + if h.Accepted? then h.out else []), m)
  {
    HandledIffWelcome(o, m);
    match m {
      case WindowAdjust(_, n) => assert Fields(m)[1] < U32; AddIsExact(o.c.remoteWin, n);
      case OpenConfirm(_, _, n, _) => assert Fields(m)[2] < U32; AddIsExact(o.c.remoteWin, n);
      case _ =>
    }
  }

  /** e' is e after its channel k took m. */
  ghost predicate Took(e: Endpoint, e': Endpoint, k: nat, m: Message)
    requires k in e.objs
  {
    && e'.objs.Keys == e.objs.Keys && Does(e.objs[k], e'.objs[k], m)
    && (InTable(e', k) <==> !m.Close? && !m.OpenFailure?)
    && forall j :: j in e.objs && j != k ==>
         e'.objs[j] == e.objs[j] && (InTable(e', j) <==> InTable(e, j))
  }

  lemma UpdatedTook(e: Endpoint, k: nat, c: Chan, out: seq<Message>, m: Message)
    requires TableOk(e) && InTable(e, k) && c.localId == e.objs[k].c.localId
    requires Does(e.objs[k], e.objs[k].(c := c, sent := e.objs[k].sent + out), m)
    ensures Took(e, Updated(e, k, c, out, c.localId, m.Close? || m.OpenFailure?), k, m)
  {
    var o := e.objs[k].(c := c, sent := e.objs[k].sent + out);
    if m.Close? || m.OpenFailure? { RemoveTable(e, k, o); } else { UpdateTable(e, k, o); }
  }

  lemma ReceiveReaches(e: Endpoint, next: nat, m: Message, accept: bool, k: nat)
    requires InTable(e, k) && !m.Open? && e.objs[k].c.localId == m.channelID
    ensures Receive(e, next, m, accept) ==
      match Handle(e.objs[k].c, m)
      case Rejected(reason) => Broken(reason)
      case Stalled(c, drop) => Hung(Updated(e, k, c, [], m.channelID, drop), k)
      case Accepted(c, out, drop) => Step(Updated(e, k, c, out, m.channelID, drop), k, out)
  {}

  lemma FeedReaches(s: Session, m: Message, accept: bool, k: nat)
    requires s.Running? && InTable(s.e, k) && !m.Open? && s.e.objs[k].c.localId == m.channelID
    requires !Handle(s.e.objs[k].c, m).Rejected?
    ensures var h := Handle(s.e.objs[k].c, m);
      Feed(s, Incoming(m, accept)).e
      == Updated(s.e, k, h.c, if h.Accepted? then h.out else [], m.channelID, h.drop)
  {
    ReceiveReaches(s.e, s.next, m, accept, k);
  }

  lemma TakingDoes(s: Session, m: Message, accept: bool, k: nat)
    requires s.Running? && ObjsOk(s) && WellFormed(m) && Takes(s.e, k, m)
    ensures Took(s.e, Feed(s, Incoming(m, accept)).e, k, m)
  {
    var o := s.e.objs[k];
    assert ObjOk(o, true, false);
    HandleDoes(o, m);
    var h := Handle(o.c, m);
    FeedReaches(s, m, accept, k);
    UpdatedTook(s.e, k, h.c, if h.Accepted? then h.out else [], m);
  }

  /** After any inputs, a packet that channel k takes does this to k, and nothing to
      the others. */
  lemma PacketDoes(inputs: seq<Input>, m: Message, accept: bool, k: nat)
    requires Decodable(inputs) && FeedAll(inputs).Running? && WellFormed(m) && Takes(FeedAll(inputs).e, k, m)
    ensures Took(FeedAll(inputs).e, Feed(FeedAll(inputs), Incoming(m, accept)).e, k, m)
  {
    AlwaysOk(inputs);
    TakingDoes(FeedAll(inputs), m, accept, k);
  }
}
