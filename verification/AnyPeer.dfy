/** One endpoint whose peer may send anything: every sequence of decoded packets,
    local calls and loss of the transport. */
module AnyPeer {
  import opened Wire
  import opened Window
  import opened Protocol

  datatype Input =
    | Incoming(m: Message, accept: bool)
    | Opening
    | Call(k: nat, op: Op)
    | Lost

  /** `struck` records the channels that the peer refused after it had confirmed
      them. Ended is the state after the receive loop has returned; Wedged while it
      waits to put m into the full `msg` queue of channel k. */
  datatype Session =
    | Running(e: Endpoint, next: nat, struck: set<nat>)
    | Ended(e: Endpoint, next: nat, struck: set<nat>)
    | Wedged(e: Endpoint, next: nat, struck: set<nat>, k: nat, m: Message)

  const START: Session := Running(Endpoint([], map[]), 0, {})

  /** What loop does on its way out: dropAll, and close for each channel dropped. */
  function Teardown(e: Endpoint): Endpoint {
    Endpoint([], map k | k in e.objs ::
      if InTable(e, k) then e.objs[k].(c := Closed(e.objs[k].c)) else e.objs[k])
  }

  /** The channel that m refuses, if that channel was already confirmed. */
  function StruckBy(e: Endpoint, m: Message): set<nat> {
    if !m.OpenFailure? then {}
    else match Get(e.table, m.channelID)
      case None => {}
      case Some(k) => if k in e.objs && e.objs[k].c.maxRemotePayload != 0 then {k} else {}
  }

  predicate Roomy(e: Endpoint, k: nat) {
    k in e.objs && |e.objs[k].c.msg| < CHAN_SIZE
  }

  /** Lets a waiting loop go on once there is room in the queue. */
  function Resumed(s: Session): Session {
    if s.Wedged? && Roomy(s.e, s.k) then Running(Queued(s.e, s.k, s.m), s.next, s.struck) else s
  }

  function Queued(e: Endpoint, k: nat, m: Message): Endpoint
    requires k in e.objs
  {
    var o := e.objs[k];
    e.(objs := e.objs[k := o.(c := o.c.(msg := o.c.msg + [m]))])
  }

  function Feed(s: Session, i: Input): Session {
    match i
    case Call(k, op) =>
      (match Local(s.e, k, op) case Step(e, _, _) => Resumed(s.(e := e)) case _ => s)
    case Opening =>
      if s.Ended? then s else s.(e := StartOpen(s.e, s.next).e, next := s.next + 1)
    case Lost =>
      if !s.Running? then s else Ended(Teardown(s.e), s.next, s.struck)
    case Incoming(m, accept) =>
      if !s.Running? then s
      else
        match Receive(s.e, s.next, m, accept)
        case Step(e, _, _) => Running(e, s.next + 1, s.struck + StruckBy(s.e, m))
        case Broken(_) => Ended(Teardown(s.e), s.next, s.struck)
        case Hung(e, k) => Wedged(e, s.next, s.struck + StruckBy(s.e, m), k, m)
        case Idle => s
  }

  function FeedAll(inputs: seq<Input>): Session {
    if inputs == [] then START
    else Feed(FeedAll(inputs[..|inputs| - 1]), inputs[|inputs| - 1])
  }

  /** What the frame decoder guarantees of every packet. */
  ghost predicate Decodable(inputs: seq<Input>) {
    forall i :: 0 <= i < |inputs| && inputs[i].Incoming? ==> WellFormed(inputs[i].m)
  }

  // ---- the invariant ----

  /** Only data can follow a Close, and a Close sets the gate. */
  ghost predicate Gate(o: Obj) {
    forall i :: 0 <= i < |o.sent| && o.sent[i].Close? ==>
      o.c.sentClose && forall j :: i < j < |o.sent| ==> o.sent[j].Data?
  }

  ghost predicate Ledger(o: Obj) {
    && o.c.myWindow + |o.c.pending| + o.uncredited == CHANNEL_WINDOW_SIZE
    && o.c.remoteWin.win < U32 && o.c.maxIncomingPayload == CHANNEL_MAX_PACKET && |o.c.msg| <= CHAN_SIZE
  }

  ghost predicate Shut(o: Obj) {
    o.c.msgClosed && o.c.remoteWin.closed && o.c.pendingClosed && o.c.sentClose
  }

  /** A channel out of the table was closed, or refused before anyone held it,
      or struck. */
  ghost predicate Life(o: Obj, listed: bool, struck: bool) {
    && (o.c.msgClosed <==> Shut(o)) && (o.c.remoteWin.closed ==> o.c.msgClosed)
    && (listed ==> !struck && !o.c.msgClosed)
    && (listed && o.c.direction == Outbound && o.c.maxRemotePayload == 0 ==> o.c.msg == [] && !o.owned)
    && (struck ==> !o.c.msgClosed)
    && (!listed && !struck && !o.c.msgClosed ==>
          !o.owned && o.c.direction == Outbound
          && (o.abandoned || (o.c.msg != [] && o.c.msg[0].OpenFailure?)))
  }

  ghost predicate ObjOk(o: Obj, listed: bool, struck: bool) {
    Gate(o) && Ledger(o) && Life(o, listed, struck)
  }

  ghost predicate ObjsOk(s: Session) {
    && TableOk(s.e)
    && (forall k :: k in s.e.objs ==> k < s.next)
    && (forall k :: k in s.struck ==> k in s.e.objs)
    && (forall k :: k in s.e.objs ==> ObjOk(s.e.objs[k], InTable(s.e, k), k in s.struck))
  }

  ghost predicate SessionOk(s: Session) {
    ObjsOk(s) && (s.Wedged? ==> WedgedOk(s))
  }

  /** The channel that a waiting loop is about. */
  ghost predicate WedgedOk(s: Session)
    requires s.Wedged?
  {
    && s.k in s.e.objs && (InTable(s.e, s.k) || s.k in s.struck)
    && var c := s.e.objs[s.k].c;
    && |c.msg| == CHAN_SIZE && c.direction == Outbound && c.maxRemotePayload != 0 && !c.msgClosed
  }

  // ---- steps on one channel ----

  lemma GateAppend(o: Obj, o': Obj, out: seq<Message>)
    requires Gate(o) && o'.sent == o.sent + out && |out| <= 1 && (o.c.sentClose ==> o'.c.sentClose)
    requires out != [] && !out[0].Data? ==> !o.c.sentClose
    requires out != [] && out[0].Close? ==> o'.c.sentClose
    ensures Gate(o')
  {
    forall i | 0 <= i < |o'.sent| && o'.sent[i].Close?
      ensures o'.c.sentClose && forall j :: i < j < |o'.sent| ==> o'.sent[j].Data?
    {
      if i < |o.sent| { assert o.sent[i].Close?; }
    }
  }

  lemma DoKeepsOk(o: Obj, op: Op, listed: bool, struck: bool)
    requires ObjOk(o, listed, struck) && Do(o, op).Moved?
    ensures ObjOk(Do(o, op).o, listed, struck) && Do(o, op).o.c.localId == o.c.localId
  {
    DoKeepsGate(o, op);
    DoKeepsLife(o, op, listed, struck);
  }

  lemma DoKeepsGate(o: Obj, op: Op)
    requires Gate(o) && Do(o, op).Moved?
    ensures Gate(Do(o, op).o)
  {
    var r := Do(o, op);
    if r.o.sent == o.sent { assert r.o.sent == o.sent + []; GateAppend(o, r.o, []); }
    else { GateAppend(o, r.o, r.out); }
  }

  lemma DoKeepsLife(o: Obj, op: Op, listed: bool, struck: bool)
    requires Ledger(o) && Life(o, listed, struck) && Do(o, op).Moved?
    ensures Ledger(Do(o, op).o) && Life(Do(o, op).o, listed, struck) && Do(o, op).o.c.localId == o.c.localId
  {}

  lemma HandleKeepsOk(o: Obj, m: Message, struck: bool)
    requires ObjOk(o, true, struck) && WellFormed(m) && Handle(o.c, m).Accepted?
    ensures var h := Handle(o.c, m); var o' := o.(c := h.c, sent := o.sent + h.out);
      && ObjOk(o', !h.drop, m.OpenFailure? && o.c.maxRemotePayload != 0)
      && h.c.localId == o.c.localId
  {
    var h := Handle(o.c, m);
    var o' := o.(c := h.c, sent := o.sent + h.out);
    GateAppend(o, o', h.out);
    match m {
      case WindowAdjust(_, n) => assert Fields(m)[1] < U32; AddIsExact(o.c.remoteWin, n);
      case OpenConfirm(_, _, n, _) => assert Fields(m)[2] < U32; AddIsExact(o.c.remoteWin, n);
      case _ =>
    }
  }

  // ---- steps of the session ----

  /** A step that concerns channel k only. */
  lemma Restore(s: Session, s': Session, k: nat)
    requires ObjsOk(s) && TableOk(s'.e) && s.next <= s'.next && k < s'.next
    requires s'.e.objs.Keys == s.e.objs.Keys + {k} && s.struck <= s'.struck <= s.struck + {k}
    requires ObjOk(s'.e.objs[k], InTable(s'.e, k), k in s'.struck)
    requires forall j :: j in s.e.objs && j != k ==>
      s'.e.objs[j] == s.e.objs[j] && InTable(s'.e, j) == InTable(s.e, j)
    ensures ObjsOk(s')
  {
    forall j | j in s'.e.objs ensures ObjOk(s'.e.objs[j], InTable(s'.e, j), j in s'.struck) {
      if j != k { assert ObjOk(s.e.objs[j], InTable(s.e, j), j in s.struck); }
    }
  }

  lemma CallKeepsObjs(s: Session, k: nat, op: Op)
    requires ObjsOk(s) && k in s.e.objs && Do(s.e.objs[k], op).Moved?
    ensures ObjsOk(s.(e := s.e.(objs := s.e.objs[k := Do(s.e.objs[k], op).o])))
    ensures forall j :: InTable(s.e.(objs := s.e.objs[k := Do(s.e.objs[k], op).o]), j) == InTable(s.e, j)
  {
    var o := Do(s.e.objs[k], op).o;
    DoKeepsOk(s.e.objs[k], op, InTable(s.e, k), k in s.struck);
    UpdateTable(s.e, k, o);
    Restore(s, s.(e := s.e.(objs := s.e.objs[k := o])), k);
  }

  /** What a call does to the queue that a waiting loop is about: only the return
      of a pending Open takes something from it. */
  lemma CallOnFull(o: Obj, op: Op)
    requires o.c.msg != [] && o.c.direction == Outbound && Do(o, op).Moved?
    ensures var c := Do(o, op).o.c;
      && c.direction == Outbound && c.maxRemotePayload == o.c.maxRemotePayload && c.msgClosed == o.c.msgClosed
      && |c.msg| == |o.c.msg| - if op.OpenReturn? then 1 else 0
    ensures op.OpenReturn? ==> !o.owned && !o.abandoned
  {
    if !op.OpenReturn? { CallKeepsQueue(o, op); }
  }

  ghost predicate SameQueue(c: Chan, c': Chan) {
    c'.msg == c.msg && c'.direction == c.direction && c'.maxRemotePayload == c.maxRemotePayload
    && c'.msgClosed == c.msgClosed
  }

  lemma CallKeepsQueue(o: Obj, op: Op)
    requires !op.OpenReturn? && Do(o, op).Moved?
    ensures SameQueue(o.c, Do(o, op).o.c)
  {
    match op {
      case Write(_) =>
      case Reserving(_) =>
      case Read(_) =>
      case Adjust(_) =>
      case _ =>
    }
  }

  lemma QueuedKeepsObjs(s: Session, k: nat, m: Message)
    requires ObjsOk(s) && Roomy(s.e, k) && (InTable(s.e, k) || k in s.struck)
    requires s.e.objs[k].c.maxRemotePayload != 0 && !s.e.objs[k].c.msgClosed
    ensures ObjsOk(Running(Queued(s.e, k, m), s.next, s.struck))
  {
    var o := s.e.objs[k];
    var o' := o.(c := o.c.(msg := o.c.msg + [m]));
    UpdateTable(s.e, k, o');
    assert ObjOk(o, InTable(s.e, k), k in s.struck);
    Restore(s, Running(Queued(s.e, k, m), s.next, s.struck), k);
  }

  /** A waiting loop after something may have been taken from its queue. */
  lemma ResumedIsOk(t: Session)
    requires t.Wedged? && ObjsOk(t) && t.k in t.e.objs && (InTable(t.e, t.k) || t.k in t.struck)
    requires var c := t.e.objs[t.k].c;
      |c.msg| <= CHAN_SIZE && c.direction == Outbound && c.maxRemotePayload != 0 && !c.msgClosed
    ensures SessionOk(Resumed(t)) && (Resumed(t).Running? <==> Roomy(t.e, t.k))
  {
    if Roomy(t.e, t.k) { QueuedKeepsObjs(t, t.k, t.m); }
  }

  lemma WedgedCall(s: Session, k: nat, op: Op)
    requires s.Wedged? && SessionOk(s) && k in s.e.objs && Do(s.e.objs[k], op).Moved?
    ensures var t := Feed(s, Call(k, op));
      && SessionOk(t)
      && (t.Running? <==> k == s.k && op.OpenReturn?)
  {
    var t := s.(e := s.e.(objs := s.e.objs[k := Do(s.e.objs[k], op).o]));
    CallKeepsObjs(s, k, op);
    assert InTable(t.e, s.k) == InTable(s.e, s.k);
    if k == s.k { CallOnFull(s.e.objs[k], op); }
    FeedCall(s, k, op);
    ResumedIsOk(t);
  }

  lemma FeedCall(s: Session, k: nat, op: Op)
    requires k in s.e.objs && Do(s.e.objs[k], op).Moved?
    ensures Feed(s, Call(k, op)) == Resumed(s.(e := s.e.(objs := s.e.objs[k := Do(s.e.objs[k], op).o])))
  {}

  lemma CallKeepsOk(s: Session, k: nat, op: Op)
    requires SessionOk(s)
    ensures SessionOk(Feed(s, Call(k, op)))
  {
    if k in s.e.objs && Do(s.e.objs[k], op).Moved? {
      if s.Wedged? { WedgedCall(s, k, op); } else { CallKeepsObjs(s, k, op); }
    }
  }

  lemma NewIsOk(c: Chan, owned: bool, m: Message)
    requires c.myWindow == CHANNEL_WINDOW_SIZE && c.pending == [] && c.remoteWin.win < U32 && !c.remoteWin.closed
    requires c.maxIncomingPayload == CHANNEL_MAX_PACKET && !c.msgClosed && !m.Close?
    requires c.msg == [] && (c.direction == Outbound ==> !owned)
    ensures ObjOk(NewObj(c, owned, [m]), true, false)
  {}

  lemma InsertKeepsOk(s: Session, o: Obj)
    requires ObjsOk(s) && o.c.localId == FreeSlot(s.e.table) && ObjOk(o, true, false)
    ensures ObjsOk(s.(e := Insert(s.e, s.next, o), next := s.next + 1))
  {
    InsertTable(s.e, s.next, o);
    Restore(s, s.(e := Insert(s.e, s.next, o), next := s.next + 1), s.next);
  }

  lemma OpeningKeepsOk(s: Session)
    requires SessionOk(s)
    ensures SessionOk(Feed(s, Opening))
  {
    if !s.Ended? {
      var c := NewChan(FreeSlot(s.e.table), Outbound);
      var o := NewObj(c, false, [OpenMessage(c)]);
      NewIsOk(c, false, OpenMessage(c));
      InsertKeepsOk(s, o);
      InsertTable(s.e, s.next, o);
      if s.Wedged? { assert InTable(Insert(s.e, s.next, o), s.k) == InTable(s.e, s.k); }
    }
  }

  lemma TeardownKeepsOk(s: Session)
    requires ObjsOk(s)
    ensures ObjsOk(Ended(Teardown(s.e), s.next, s.struck))
  {
    forall k | k in s.e.objs
      ensures ObjOk(Teardown(s.e).objs[k], false, k in s.struck)
    {
      assert ObjOk(s.e.objs[k], InTable(s.e, k), k in s.struck);
    }
  }

  lemma OpenKeepsOk(s: Session, m: Message, accept: bool)
    requires s.Running? && ObjsOk(s) && m.Open? && WellFormed(m)
    ensures ObjsOk(Feed(s, Incoming(m, accept)))
  {
    if MIN_PACKET_LENGTH <= m.maxPacketSize <= MAX_PACKET_LENGTH {
      assert Fields(m)[1] < U32;
      AddIsExact(Credit(0, false), m.windowSize);
      var o := Answered(FreeSlot(s.e.table), m, accept);
      NewIsOk(o.c, accept, o.sent[0]);
      InsertKeepsOk(s, o);
      assert s.struck + {} == s.struck;
    }
  }

  /** r is s after a packet turned its channel t into c. */
  lemma UpdatedKeepsObjs(s: Session, r: Session, t: nat, c: Chan, out: seq<Message>, drop: bool, struck: bool)
    requires ObjsOk(s) && InTable(s.e, t) && c.localId == s.e.objs[t].c.localId
    requires ObjOk(s.e.objs[t].(c := c, sent := s.e.objs[t].sent + out), !drop, struck)
    requires r.e == Updated(s.e, t, c, out, c.localId, drop) && s.next <= r.next
    requires r.struck == s.struck + if struck then {t} else {}
    ensures ObjsOk(r) && InTable(r.e, t) == !drop
  {
    var o := s.e.objs[t].(c := c, sent := s.e.objs[t].sent + out);
    assert t !in s.struck;
    if drop { RemoveTable(s.e, t, o); } else { UpdateTable(s.e, t, o); }
    Restore(s, r, t);
  }

  lemma PacketKeepsOk(s: Session, m: Message, accept: bool)
    requires s.Running? && ObjsOk(s) && !m.Open? && WellFormed(m)
    requires Receive(s.e, s.next, m, accept).Step?
    ensures ObjsOk(Feed(s, Incoming(m, accept)))
  {
    var t := Get(s.e.table, m.channelID).value;
    assert InTable(s.e, t) && ObjOk(s.e.objs[t], true, false);
    HandleKeepsOk(s.e.objs[t], m, false);
    var h := Handle(s.e.objs[t].c, m);
    UpdatedKeepsObjs(s, Feed(s, Incoming(m, accept)), t, h.c, h.out, h.drop,
                     m.OpenFailure? && s.e.objs[t].c.maxRemotePayload != 0);
  }

  lemma StalledKeepsOk(o: Obj, m: Message)
    requires ObjOk(o, true, false) && WellFormed(m) && Handle(o.c, m).Stalled?
    ensures var h := Handle(o.c, m);
      && o.c.maxRemotePayload != 0 && h.c.maxRemotePayload != 0 && h.c.direction == Outbound
      && |h.c.msg| == CHAN_SIZE && !h.c.msgClosed && h.drop == m.OpenFailure? && h.c.localId == o.c.localId
      && ObjOk(o.(c := h.c, sent := o.sent + []), !h.drop, m.OpenFailure?)
  {
    assert o.sent + [] == o.sent;
    if m.OpenConfirm? {
      assert Fields(m)[2] < U32;
      AddIsExact(o.c.remoteWin, m.windowSize);
    }
  }

  lemma HungKeepsOk(s: Session, m: Message, accept: bool)
    requires s.Running? && SessionOk(s) && !m.Open? && WellFormed(m)
    requires Receive(s.e, s.next, m, accept).Hung?
    ensures SessionOk(Feed(s, Incoming(m, accept)))
  {
    var t := Get(s.e.table, m.channelID).value;
    assert InTable(s.e, t) && ObjOk(s.e.objs[t], true, false);
    StalledKeepsOk(s.e.objs[t], m);
    var h := Handle(s.e.objs[t].c, m);
    UpdatedKeepsObjs(s, Feed(s, Incoming(m, accept)), t, h.c, [], h.drop, m.OpenFailure?);
  }

  lemma FeedKeepsOk(s: Session, i: Input)
    requires SessionOk(s) && (i.Incoming? ==> WellFormed(i.m))
    ensures SessionOk(Feed(s, i))
  {
    match i {
      case Call(k, op) => CallKeepsOk(s, k, op);
      case Opening => OpeningKeepsOk(s);
      case Lost => TeardownKeepsOk(s);
      case Incoming(m, accept) => if s.Running? { IncomingKeepsOk(s, m, accept); }
    }
  }

  lemma IncomingKeepsOk(s: Session, m: Message, accept: bool)
    requires s.Running? && SessionOk(s) && WellFormed(m)
    ensures SessionOk(Feed(s, Incoming(m, accept)))
  {
    if m.Open? {
      OpenKeepsOk(s, m, accept);
    } else {
      match Receive(s.e, s.next, m, accept) {
        case Step(_, _, _) => PacketKeepsOk(s, m, accept);
        case Hung(_, _) => HungKeepsOk(s, m, accept);
        case Broken(_) => TeardownKeepsOk(s);
        case Idle =>
      }
    }
  }

  lemma {:induction false} AlwaysOk(inputs: seq<Input>)
    requires Decodable(inputs)
    ensures SessionOk(FeedAll(inputs))
  {
    if inputs != [] {
      AlwaysOk(inputs[..|inputs| - 1]);
      FeedKeepsOk(FeedAll(inputs[..|inputs| - 1]), inputs[|inputs| - 1]);
    }
  }

  // ---- what holds against every peer ----

  /** myWindow, unread bytes and bytes read but not yet credited always add up to
      the window; so no peer can make the buffer grow beyond it, and the addition
      in adjustWindow never wraps, as its comment claims. */
  lemma WindowBoundsTheBuffer(inputs: seq<Input>, k: nat, n: nat)
    requires Decodable(inputs) && k in FeedAll(inputs).e.objs
    ensures var o := FeedAll(inputs).e.objs[k];
      && o.c.myWindow + |o.c.pending| + o.uncredited == 0x4000_0000
      && |o.c.pending| <= 0x4000_0000
      && (n <= o.uncredited ==> o.c.myWindow + n < U32)
  {
    AlwaysOk(inputs);
    var o := FeedAll(inputs).e.objs[k];
    assert ObjOk(o, InTable(FeedAll(inputs).e, k), k in FeedAll(inputs).struck);
  }

  /** A packet that selects a channel selects one that has never been closed, at
      the slot of its own id; so close runs at most once per channel and nothing
      is sent on a closed `msg`. */
  lemma ClosedChannelsAreUnlisted(inputs: seq<Input>, id: nat)
    requires Decodable(inputs) && Get(FeedAll(inputs).e.table, id).Some?
    ensures var e := FeedAll(inputs).e; var k := Get(e.table, id).value;
      k in e.objs && e.objs[k].c.localId == id && !e.objs[k].c.msgClosed && !e.objs[k].c.remoteWin.closed
  {
    AlwaysOk(inputs);
    var e := FeedAll(inputs).e;
    var k := Get(e.table, id).value;
    assert InTable(e, k);
  }

  /** Each channel emits at most one Close, and no end of stream, window update
      or second Close after it, however often closing is requested. */
  lemma AtMostOneClose(inputs: seq<Input>, k: nat, i: nat, j: nat)
    requires Decodable(inputs) && k in FeedAll(inputs).e.objs
    requires i < j < |FeedAll(inputs).e.objs[k].sent| && FeedAll(inputs).e.objs[k].sent[i].Close?
    ensures FeedAll(inputs).e.objs[k].sent[j].Data?
  {
    AlwaysOk(inputs);
    var s := FeedAll(inputs);
    assert ObjOk(s.e.objs[k], InTable(s.e, k), k in s.struck);
  }

  /** After the loop has returned, a channel that an application holds has its
      buffer and its window closed, so that no reader or writer waits on it for
      ever, if and only if the peer did not refuse it after confirming it. */
  lemma EndedClosesAllButStruck(inputs: seq<Input>, k: nat)
    requires Decodable(inputs) && FeedAll(inputs).Ended?
    requires k in FeedAll(inputs).e.objs && FeedAll(inputs).e.objs[k].owned
    ensures FeedAll(inputs).e.table == []
    ensures var o := FeedAll(inputs).e.objs[k];
      (o.c.pendingClosed && o.c.remoteWin.closed) <==> k !in FeedAll(inputs).struck
  {
    AlwaysOk(inputs);
    var s := FeedAll(inputs);
    EndedIsEmpty(inputs);
    assert ObjOk(s.e.objs[k], InTable(s.e, k), k in s.struck);
  }

  lemma {:induction false} EndedIsEmpty(inputs: seq<Input>)
    requires FeedAll(inputs).Ended?
    ensures FeedAll(inputs).e.table == []
  {
    if inputs != [] && FeedAll(inputs[..|inputs| - 1]).Ended? {
      EndedIsEmpty(inputs[..|inputs| - 1]);
    }
  }

  // ---- the exception occurs ----

  const ANSWER: Message := Message.OpenConfirm(0, 5, 100, 1000)
  const REFUSE: Message := Message.OpenFailure(0)

  /** A peer that confirms a channel and then refuses it. */
  const STRIKE: seq<Input> :=
    [Opening, Incoming(ANSWER, true), Call(0, OpenReturn), Incoming(REFUSE, true), Lost]

  function FreshChan(): Chan {
    NewChan(0, Outbound)
  }

  function WantedObj(): Obj {
    NewObj(FreshChan(), false, [OpenMessage(FreshChan())])
  }

  function ToldObj(): Obj {
    WantedObj().(c := FreshChan().(remoteId := 5, maxRemotePayload := 1000, remoteWin := Credit(100, false),
      msg := [ANSWER]))
  }

  function KeptObj(): Obj {
    ToldObj().(c := ToldObj().c.(msg := []), owned := true)
  }

  function StruckObj(): Obj {
    KeptObj().(c := KeptObj().c.(msg := [REFUSE]))
  }

  function Alone(o: Obj, next: nat): Session {
    Running(Endpoint([Some(0)], map[0 := o]), next, {})
  }

  lemma Asks()
    ensures Feed(START, STRIKE[0]) == Alone(WantedObj(), 1)
  {}

  lemma IsTold()
    ensures Feed(Alone(WantedObj(), 1), STRIKE[1]) == Alone(ToldObj(), 2)
  {
    assert FreshChan().msg + [ANSWER] == [ANSWER];
    assert Handle(FreshChan(), ANSWER) == Accepted(ToldObj().c, [], false);
    assert WantedObj().sent + [] == WantedObj().sent;
  }

  lemma Holds()
    ensures Feed(Alone(ToldObj(), 2), STRIKE[2]) == Alone(KeptObj(), 2)
  {
    assert [ANSWER][1..] == [];
    assert Do(ToldObj(), OpenReturn) == Moved(KeptObj(), []);
  }

  lemma IsStruck()
    ensures Feed(Alone(KeptObj(), 2), STRIKE[3]) == Running(Endpoint([None], map[0 := StruckObj()]), 3, {0})
  {
    assert KeptObj().c.msg + [REFUSE] == [REFUSE];
    assert Handle(KeptObj().c, REFUSE) == Accepted(StruckObj().c, [], true);
    assert KeptObj().sent + [] == KeptObj().sent;
  }

  lemma Then(inputs: seq<Input>, k: nat, s: Session, t: Session)
    requires k < |inputs| && FeedAll(inputs[..k]) == s && Feed(s, inputs[k]) == t
    ensures FeedAll(inputs[..k + 1]) == t
  {
    assert inputs[..k + 1][..k] == inputs[..k];
  }

  lemma HeldAfterThree(inputs: seq<Input>)
    requires inputs == STRIKE
    ensures FeedAll(inputs[..3]) == Alone(KeptObj(), 2)
  {
    Asks();
    Then(inputs, 0, START, Alone(WantedObj(), 1));
    IsTold();
    Then(inputs, 1, Alone(WantedObj(), 1), Alone(ToldObj(), 2));
    Holds();
    Then(inputs, 2, Alone(ToldObj(), 2), Alone(KeptObj(), 2));
  }

  lemma StruckAfterFour(inputs: seq<Input>)
    requires inputs == STRIKE
    ensures FeedAll(inputs[..4]) == Running(Endpoint([None], map[0 := StruckObj()]), 3, {0})
  {
    HeldAfterThree(inputs);
    IsStruck();
    Then(inputs, 3, Alone(KeptObj(), 2), Running(Endpoint([None], map[0 := StruckObj()]), 3, {0}));
  }

  /** The application holds the channel, the session is over, and neither its
      reader nor its writer will ever be woken. */
  lemma StruckChannelStaysOpen()
    ensures var s := FeedAll(STRIKE);
      && Decodable(STRIKE) && s.Ended? && 0 in s.e.objs && s.e.objs[0].owned
      && !s.e.objs[0].c.pendingClosed && !s.e.objs[0].c.remoteWin.closed
  {
    var s := Running(Endpoint([None], map[0 := StruckObj()]), 3, {0});
    StruckAfterFour(STRIKE);
    Then(STRIKE, 4, s, Feed(s, Lost));
    assert STRIKE[..5] == STRIKE;
  }
}
