/** One endpoint of a qmux session as pure step functions (mux/channel.go and
    mux/session.go): what each packet and each local call does to a channel, to
    the channel table and to the outgoing link. The classes of modules Mux and
    SessionLoop are proved against these functions, and modules AnyPeer, Link and
    System reason about every sequence of them. */
module Protocol {
  import opened Wire
  import opened Window

  const MIN_PACKET_LENGTH: nat := 9
  const MAX_PACKET_LENGTH: nat := 0x8000_0000
  const CHANNEL_MAX_PACKET: nat := 0x100_0000
  const CHANNEL_WINDOW_SIZE: nat := 64 * CHANNEL_MAX_PACKET
  /** Capacity of a channel's `msg` queue. */
  const CHAN_SIZE: nat := 16

  datatype Direction = Inbound | Outbound

  datatype Chan = Chan(
    localId: nat,
    remoteId: nat,
    maxIncomingPayload: nat,
    maxRemotePayload: nat,
    direction: Direction,
    sentEOF: bool,
    sentClose: bool,
    remoteWin: Credit,
    pending: seq<Byte>,
    pendingClosed: bool,
    myWindow: nat,
    msg: seq<Message>,
    msgClosed: bool)

  /** newChannel, once the table has assigned the id. Both callers then set
      maxIncomingPayload to the same constant. */
  function NewChan(localId: nat, direction: Direction): Chan {
    Chan(localId, 0, CHANNEL_MAX_PACKET, 0, direction, false, false, Credit(0, false),
         [], false, CHANNEL_WINDOW_SIZE, [], false)
  }

  /** The inbound channel that handleOpen sets up from an Open message. */
  function InboundChan(localId: nat, m: Message): Chan
    requires m.Open?
  {
    var c := NewChan(localId, Inbound);
    c.(remoteId := m.senderID, maxRemotePayload := m.maxPacketSize,
       remoteWin := AddOrKeep(c.remoteWin, m.windowSize))
  }

  /** window.add where the caller ignores the verdict. */
  function AddOrKeep(w: Credit, n: nat): Credit {
    match Add(w, n)
    case Some(w') => w'
    case None => w
  }

  /** The gate in `send`: nothing but the first Close, and nothing after it. */
  function Gated(c: Chan, m: Message): seq<Message> {
    if c.sentClose then [] else [m]
  }

  // ---- handle ----

  datatype Reason =
    | InvalidChannel | PayloadTooBig | WrongLength | WroteTooMuch | BadWindowUpdate
    | ResponseOnInbound | BadMaxPacket | InvalidMessage

  /** What `handle` does with one packet. `drop` says the channel leaves the
      table; Stalled is a send to a full `msg` queue, with the changes made before it. */
  datatype Handled =
    | Accepted(c: Chan, out: seq<Message>, drop: bool)
    | Stalled(c: Chan, drop: bool)
    | Rejected(reason: Reason)

  /** channel.close */
  function Closed(c: Chan): Chan {
    c.(pendingClosed := true, msgClosed := true, sentClose := true,
       remoteWin := c.remoteWin.(closed := true))
  }

  function Queue(c: Chan, m: Message, drop: bool): Handled {
    if |c.msg| >= CHAN_SIZE then Stalled(c, drop)
    else Accepted(c.(msg := c.msg + [m]), [], drop)
  }

  function HandleData(c: Chan, length: nat, data: seq<Byte>): Handled {
    if length > c.maxIncomingPayload then Rejected(PayloadTooBig)
    else if length != |data| % U32 then Rejected(WrongLength)
    else if c.myWindow < length then Rejected(WroteTooMuch)
    else Accepted(c.(myWindow := c.myWindow - length, pending := c.pending + data), [], false)
  }

  function Handle(c: Chan, m: Message): Handled {
    match m
    case Data(_, length, data) => HandleData(c, length, data)
    case Close(_) => Accepted(Closed(c), Gated(c, Message.Close(c.remoteId)), true)
    case EOF(_) => Accepted(c.(pendingClosed := true), [], false)
    case WindowAdjust(_, n) =>
      (match Add(c.remoteWin, n)
       case None => Rejected(BadWindowUpdate)
       case Some(w) => Accepted(c.(remoteWin := w), [], false))
    case OpenConfirm(_, sender, window, max) =>
      if c.direction == Inbound then Rejected(ResponseOnInbound)
      else if max < MIN_PACKET_LENGTH || max > MAX_PACKET_LENGTH then Rejected(BadMaxPacket)
      else Queue(c.(remoteId := sender, maxRemotePayload := max,
                    remoteWin := AddOrKeep(c.remoteWin, window)), m, false)
    case OpenFailure(_) =>
      if c.direction == Inbound then Rejected(ResponseOnInbound)
      else Queue(c, m, true)
    case Open(_, _, _) => Rejected(InvalidMessage)
  }

  // ---- local calls ----

  /** A channel with what its users have done to it. `owned`: the application
      holds it. `abandoned`: its Open gave up, so nobody ever will. `written`
      and `read` are the bytes Write accepted and Read returned; `uncredited`
      are bytes read whose window update is still to come; `sent` is every
      frame emitted for this channel. `writers` counts the calls of Write that are
      in their loops, `inHand` is a chunk that one of them has reserved and not
      yet encoded, and `eofAt` is how much had been written at the first
      CloseWrite. */
  datatype Obj = Obj(
    c: Chan,
    owned: bool,
    abandoned: bool,
    written: seq<Byte>,
    read: seq<Byte>,
    uncredited: nat,
    sent: seq<Message>,
    writers: nat,
    inHand: Option<seq<Byte>>,
    eofAt: Option<nat>)

  datatype Op =
    | OpenReturn
    | Cancel
    | Enter
    | Leave
    | Write(data: seq<Byte>)
    | Reserving(data: seq<Byte>)
    | Encoding
    | Read(size: nat)
    | Adjust(n: nat)
    | CloseWrite
    | Shutdown

  datatype Moved = Moved(o: Obj, out: seq<Message>) | Blocked

  /** `min` of mux/channel.go: its second argument is converted to uint32. */
  function Min(a: nat, b: nat): nat {
    if a < b % U32 then a else b % U32
  }

  /** The length of the next chunk Write sends. */
  function ChunkSize(c: Chan, data: seq<Byte>): Reservation {
    Reserve(c.remoteWin, Min(c.maxRemotePayload, |data|)).1
  }

  function Emit(o: Obj, c: Chan, out: seq<Message>): Moved {
    Moved(o.(c := c, sent := o.sent + out), out)
  }

  /** Write tests sentEOF once, before its loop. */
  predicate MayWrite(o: Obj) {
    o.owned && (!o.c.sentEOF || o.writers > 0)
  }

  /** One atomic step of a local call. Write takes one iteration of its loop on
      the bytes still to be written, and is a whole call when nobody has entered.
      Enter is a call that has passed its test and Leave its end; between them
      the iterations need no test, and Reserving and Encoding are the two halves
      of one. Read takes bytes from the buffer and leaves the window update to a
      later Adjust. */
  function Do(o: Obj, op: Op): Moved {
    var c := o.c;
    match op
    case OpenReturn =>
      if c.direction == Inbound || o.owned || o.abandoned || c.msg == [] then Blocked
      else
        var ok := c.msg[0].OpenConfirm?;
        Moved(o.(c := c.(msg := c.msg[1..]), owned := ok, abandoned := !ok), [])
    case Cancel =>
      if c.direction == Inbound || o.owned then Blocked else Moved(o.(abandoned := true), [])
    case Enter =>
      if !o.owned || c.sentEOF then Blocked else Moved(o.(writers := o.writers + 1), [])
    case Leave =>
      if !o.owned || o.writers == 0 then Blocked else Moved(o.(writers := o.writers - 1), [])
    case Reserving(data) =>
      if !MayWrite(o) || data == [] || o.inHand.Some? then Blocked
      else
        (match Reserve(c.remoteWin, Min(c.maxRemotePayload, |data|))
         case (w, Granted(n)) => Moved(o.(c := c.(remoteWin := w), inHand := Some(data[..n])), [])
         case (w, AtEOF(_)) => Moved(o.(c := c.(remoteWin := w)), [])
         case (_, WouldBlock) => Blocked)
    case Encoding =>
      (match o.inHand
       case None => Blocked
       case Some(d) =>
         Emit(o.(written := o.written + d, inHand := None), c, [Message.Data(c.remoteId, |d|, d)]))
    case Write(data) =>
      if !MayWrite(o) || data == [] then Blocked
      else
        (match Reserve(c.remoteWin, Min(c.maxRemotePayload, |data|))
         case (w, Granted(n)) =>
           Emit(o.(written := o.written + data[..n]), c.(remoteWin := w),
                [Message.Data(c.remoteId, n, data[..n])])
         case (w, AtEOF(_)) => Moved(o.(c := c.(remoteWin := w)), [])
         case (_, WouldBlock) => Blocked)
    case Read(size) =>
      var n := if size < |c.pending| then size else |c.pending|;
      if !o.owned || n == 0 then Blocked
      else Moved(o.(c := c.(pending := c.pending[n..]), read := o.read + c.pending[..n],
                    uncredited := o.uncredited + n), [])
    case Adjust(n) =>
      if n == 0 || n > o.uncredited then Blocked
      else Emit(o.(uncredited := o.uncredited - n), c.(myWindow := (c.myWindow + n) % U32),
                Gated(c, Message.WindowAdjust(c.remoteId, n)))
    case CloseWrite =>
      if !o.owned then Blocked
      else
        Emit(o.(eofAt := if o.eofAt == None then Some(|o.written|) else o.eofAt),
             c.(sentEOF := true), Gated(c, Message.EOF(c.remoteId)))
    case Shutdown =>
      if !o.owned then Blocked
      else Emit(o, c.(sentClose := true), Gated(c, Message.Close(c.remoteId)))
  }

  // ---- the channel table ----

  /** chanList: slot i holds the channel whose local id is i. */
  function FreeSlot<T>(table: seq<Option<T>>): (i: nat)
    ensures i <= |table|
    ensures i < |table| ==> table[i] == None
    ensures forall j :: 0 <= j < i ==> table[j].Some?
  {
    if table == [] || table[0] == None then 0 else 1 + FreeSlot(table[1..])
  }

  function Put<T>(table: seq<Option<T>>, i: nat, x: Option<T>): seq<Option<T>>
    requires i <= |table|
  {
    if i == |table| then table + [x] else table[i := x]
  }

  function Remove<T>(table: seq<Option<T>>, id: nat): seq<Option<T>> {
    if id < |table| then table[id := None] else table
  }

  function Get<T>(table: seq<Option<T>>, id: nat): Option<T> {
    if id < |table| then table[id] else None
  }

  // ---- the endpoint ----

  /** Channels are named by a handle that is never reused, as Go pointers are
      not while they are held; local ids are reused. */
  datatype Endpoint = Endpoint(table: seq<Option<nat>>, objs: map<nat, Obj>)

  /** Hung: the receive loop has handled a packet for channel k up to the send to
      its full `msg` queue, and waits there. */
  datatype Outcome =
    | Step(e: Endpoint, k: nat, out: seq<Message>)
    | Idle
    | Broken(reason: Reason)
    | Hung(e: Endpoint, k: nat)

  function NewObj(c: Chan, owned: bool, sent: seq<Message>): Obj {
    Obj(c, owned, false, [], [], 0, sent, 0, None, None)
  }

  function Insert(e: Endpoint, k: nat, o: Obj): Endpoint
    requires o.c.localId <= |e.table|
  {
    Endpoint(Put(e.table, o.c.localId, Some(k)), e.objs[k := o])
  }

  function OpenMessage(c: Chan): Message {
    Message.Open(c.localId, c.myWindow, c.maxIncomingPayload)
  }

  /** session.Open up to the wait for an answer. */
  function StartOpen(e: Endpoint, k: nat): Outcome {
    var c := NewChan(FreeSlot(e.table), Outbound);
    var out := [OpenMessage(c)];
    Step(Insert(e, k, NewObj(c, false, out)), k, out)
  }

  function Confirmation(c: Chan): Message {
    Message.OpenConfirm(c.remoteId, c.localId, c.myWindow, c.maxIncomingPayload)
  }

  /** The channel that handleOpen creates, with the answer it sent. */
  function Answered(localId: nat, m: Message, accept: bool): Obj
    requires m.Open?
  {
    var c := InboundChan(localId, m);
    NewObj(c, accept, [if accept then Confirmation(c) else Message.OpenFailure(m.senderID)])
  }

  /** handleOpen; `accept` is the race between Accept and the timer. A channel
      whose hand-off timed out stays in the table, owned by nobody. */
  function HandleOpen(e: Endpoint, k: nat, m: Message, accept: bool): Outcome
    requires m.Open?
  {
    if m.maxPacketSize < MIN_PACKET_LENGTH || m.maxPacketSize > MAX_PACKET_LENGTH then
      Step(e, k, [Message.OpenFailure(m.senderID)])
    else
      var o := Answered(FreeSlot(e.table), m, accept);
      Step(Insert(e, k, o), k, o.sent)
  }

  /** onePacket: k names the channel that an Open would create. */
  function Receive(e: Endpoint, k: nat, m: Message, accept: bool): Outcome {
    if m.Open? then HandleOpen(e, k, m, accept)
    else
      match Get(e.table, m.channelID)
      case None => Broken(InvalidChannel)
      case Some(t) =>
        if t !in e.objs then Broken(InvalidChannel)
        else
          match Handle(e.objs[t].c, m)
          case Rejected(reason) => Broken(reason)
          case Stalled(c, drop) => Hung(Updated(e, t, c, [], m.channelID, drop), t)
          case Accepted(c, out, drop) => Step(Updated(e, t, c, out, m.channelID, drop), t, out)
  }

  /** e after its channel t became c and sent out, and left the table if drop. */
  function Updated(e: Endpoint, t: nat, c: Chan, out: seq<Message>, id: nat, drop: bool): Endpoint
    requires t in e.objs
  {
    var o := e.objs[t].(c := c, sent := e.objs[t].sent + out);
    Endpoint(if drop then Remove(e.table, id) else e.table, e.objs[t := o])
  }

  function Local(e: Endpoint, k: nat, op: Op): Outcome {
    if k !in e.objs then Idle
    else match Do(e.objs[k], op)
      case Blocked => Idle
      case Moved(o, out) => Step(e.(objs := e.objs[k := o]), k, out)
  }

  // ---- the table invariant ----

  ghost predicate TableOk(e: Endpoint) {
    forall i :: 0 <= i < |e.table| && e.table[i].Some? ==>
      e.table[i].value in e.objs && e.objs[e.table[i].value].c.localId == i
  }

  predicate InTable(e: Endpoint, k: nat) {
    k in e.objs && Get(e.table, e.objs[k].c.localId) == Some(k)
  }

  lemma UpdateTable(e: Endpoint, k: nat, o: Obj)
    requires TableOk(e) && k in e.objs && o.c.localId == e.objs[k].c.localId
    ensures TableOk(e.(objs := e.objs[k := o]))
    ensures forall j :: InTable(e.(objs := e.objs[k := o]), j) == InTable(e, j)
  {}

  lemma InsertTable(e: Endpoint, k: nat, o: Obj)
    requires TableOk(e) && k !in e.objs && o.c.localId == FreeSlot(e.table)
    ensures TableOk(Insert(e, k, o)) && InTable(Insert(e, k, o), k)
    ensures forall j :: j != k ==> InTable(Insert(e, k, o), j) == InTable(e, j)
  {}

  lemma RemoveTable(e: Endpoint, k: nat, o: Obj)
    requires TableOk(e) && InTable(e, k) && o.c.localId == e.objs[k].c.localId
    ensures var e' := Endpoint(Remove(e.table, o.c.localId), e.objs[k := o]);
      && TableOk(e') && !InTable(e', k)
      && forall j :: j != k ==> InTable(e', j) == InTable(e, j)
  {}
}
