/** The protocol of a single channel: its two ends and the frames of that channel
    in flight each way, with no other channel in sight. The invariant stated here
    is what module System lifts to whole sessions. */
module Link {
  import opened Wire
  import opened Window
  import opened Protocol

  const W: nat := CHANNEL_WINDOW_SIZE
  const MAX: nat := CHANNEL_MAX_PACKET

  /** One channel seen from end x: its two objects (absent before they exist),
      the frames in flight from x to y and back, and whether each object is
      still in its endpoint's table. */
  datatype Pair = Pair(
    x: Option<Obj>, y: Option<Obj>,
    xy: seq<Message>, yx: seq<Message>,
    xin: bool, yin: bool)

  function Flip(v: Pair): Pair {
    Pair(v.y, v.x, v.yx, v.xy, v.yin, v.xin)
  }

  /** The data bytes in flight, in order. */
  function Bytes(q: seq<Message>): seq<Byte> {
    if q == [] then []
    else if q[0].Data? then q[0].data + Bytes(q[1..])
    else Bytes(q[1..])
  }

  /** The window credit in flight. */
  function Credits(q: seq<Message>): nat {
    if q == [] then 0 else CreditOf(q[0]) + Credits(q[1..])
  }

  function CreditOf(m: Message): nat {
    match m
    case WindowAdjust(_, n) => n
    case OpenConfirm(_, _, window, _) => window
    case _ => 0
  }

  // ---- the invariant of one direction: x sends to y over q, y sends over p ----

  /** Nothing is lost, duplicated or reordered. */
  ghost predicate Stream(x: Obj, y: Obj, q: seq<Message>) {
    x.written == y.read + y.c.pending + Bytes(q)
  }

  /** The bytes that x has reserved and not yet encoded. */
  function Held(x: Obj): nat {
    match x.inHand
    case None => 0
    case Some(d) => |d|
  }

  function CreditTotal(x: Obj, y: Obj, q: seq<Message>, p: seq<Message>): nat {
    x.c.remoteWin.win + Held(x) + |Bytes(q)| + |y.c.pending| + y.uncredited + Credits(p)
  }

  ghost predicate Conserved(x: Obj, y: Obj, q: seq<Message>, p: seq<Message>) {
    && CreditTotal(x, y, q, p) <= W
    && (!y.c.sentClose ==> CreditTotal(x, y, q, p) == W)
    && y.c.myWindow + |y.c.pending| + y.uncredited == W
  }

  /** What the acceptance of a frame from x at y depends on: the two ids, and
      whether y still waits for its Open to be answered. */
  datatype Route = Route(from: nat, to: nat, awaited: bool)

  function RouteOf(x: Obj, y: Obj): Route {
    Route(x.c.localId, y.c.localId, y.c.direction == Outbound && y.c.maxRemotePayload == 0)
  }

  /** y will accept m. */
  predicate Legal(m: Message, first: bool, r: Route) {
    match m
    case Open(_, _, _) => false
    case OpenFailure(_) => false
    case OpenConfirm(id, sender, window, max) =>
      id == r.to && first && sender == r.from && window == W && max == MAX && r.awaited
    case Data(id, length, data) => id == r.to && length == |data| <= MAX
    case WindowAdjust(id, n) => id == r.to
    case EOF(id) => id == r.to
    case Close(id) => id == r.to
  }

  predicate LegalAt(q: seq<Message>, i: nat, r: Route)
    requires i < |q|
  {
    Legal(q[i], i == 0, r)
  }

  /** Every frame in flight is one that y will accept. */
  ghost predicate AllLegal(q: seq<Message>, r: Route) {
    forall i {:trigger LegalAt(q, i, r)} :: 0 <= i < |q| ==> LegalAt(q, i, r)
  }

  predicate CloseAt(q: seq<Message>, i: nat)
    requires i < |q|
  {
    q[i].Close? ==> i == |q| - 1
  }

  predicate EndsInClose(q: seq<Message>) {
    q != [] && q[|q| - 1].Close?
  }

  /** x's Close is the last frame x ever sends, and y leaves its table exactly
      when it arrives. */
  ghost predicate CloseGate(x: Obj, q: seq<Message>, yin: bool) {
    && (forall i {:trigger CloseAt(q, i)} :: 0 <= i < |q| ==> CloseAt(q, i))
    && (EndsInClose(q) ==> x.c.sentClose)
    && (x.c.sentClose && yin ==> EndsInClose(q))
    && (!yin ==> q == [] && x.c.sentClose)
  }

  /** How much x has written since its first CloseWrite: only a Write that had
      passed its test by then can do so. */
  function Behind(x: Obj): nat {
    match x.eofAt
    case None => 0
    case Some(n) => if n <= |x.written| then |x.written| - n else 0
  }

  ghost predicate HasEOF(q: seq<Message>) {
    exists i :: 0 <= i < |q| && q[i].EOF?
  }

  predicate MarkAt(q: seq<Message>, i: nat, behind: nat)
    requires i <= |q|
  {
    |Bytes(q[i..])| <= behind
  }

  /** No end-of-stream mark in q has more than so many bytes behind it. */
  ghost predicate Marks(q: seq<Message>, behind: nat) {
    forall i {:trigger MarkAt(q, i, behind)} :: 0 <= i < |q| && q[i].EOF? ==> MarkAt(q, i, behind)
  }

  /** No data written before CloseWrite follows an end-of-stream mark, sent or
      received; and the mark does get sent. */
  ghost predicate EofGate(x: Obj, y: Obj, q: seq<Message>) {
    && (x.c.sentEOF <==> x.eofAt.Some?) && (x.eofAt.Some? ==> x.eofAt.value <= |x.written|)
    && (HasEOF(q) ==> x.c.sentEOF) && Marks(q, Behind(x))
    && (y.c.pendingClosed ==> (x.c.sentEOF || x.c.sentClose) && |Bytes(q)| <= Behind(x))
    && (x.c.sentEOF && !x.c.sentClose ==> y.c.pendingClosed || HasEOF(q))
  }

  /** The state of the receiving end. Until its confirmation arrives an opener
      has sent nothing and nobody holds it. */
  ghost predicate Status(y: Obj, x: Obj, q: seq<Message>, p: seq<Message>, yin: bool) {
    var c := y.c;
    && c.maxIncomingPayload == MAX
    && c.remoteWin.closed == c.msgClosed == !yin
    && (!yin ==> c.sentClose && c.pendingClosed)
    && (c.direction == Inbound ==> y.owned && c.maxRemotePayload == MAX && c.msg == [])
    && !(y.owned && y.abandoned) && (!y.owned ==> y.inHand == None) && Held(y) <= MAX
    && (!y.owned && yin ==> p == [] && !c.sentClose)
    && (if c.maxRemotePayload == 0 then
          !y.owned && y.uncredited == 0 && yin && c.msg == []
          && q != [] && q[0].OpenConfirm?
        else
          c.maxRemotePayload == MAX && c.remoteId == x.c.localId && |c.msg| <= 1
          && (|c.msg| == 1 ==> c.msg[0].OpenConfirm?)
          && (c.direction == Outbound && !y.owned && !y.abandoned ==> |c.msg| == 1)
          && (c.direction == Outbound && !y.owned ==> y.uncredited == 0))
  }

  /** The discrete half of the invariant. */
  ghost predicate Shape(x: Obj, y: Obj, q: seq<Message>, p: seq<Message>, yin: bool) {
    && AllLegal(q, RouteOf(x, y))
    && CloseGate(x, q, yin)
    && EofGate(x, y, q)
    && Status(y, x, q, p, yin)
  }

  /** The counting half. */
  ghost predicate Account(x: Obj, y: Obj, q: seq<Message>, p: seq<Message>) {
    Stream(x, y, q) && Conserved(x, y, q, p)
  }

  // ---- the invariant of a channel ----

  ghost predicate Both(x: Obj, y: Obj, q: seq<Message>, p: seq<Message>, xin: bool, yin: bool) {
    && x.c.direction != y.c.direction
    && Shape(x, y, q, p, yin)
    && Shape(y, x, p, q, xin)
    && Account(x, y, q, p)
    && Account(y, x, p, q)
  }

  ghost predicate Linked(v: Pair) {
    v.x.Some? && v.y.Some? && Both(v.x.value, v.y.value, v.xy, v.yx, v.xin, v.yin)
  }

  ghost predicate Unused(o: Obj) {
    !o.owned && o.written == [] && o.read == [] && o.uncredited == 0 && o.inHand == None && o.eofAt == None
  }

  /** x has asked and not been answered. */
  ghost predicate Opening(v: Pair) {
    && v.x.Some? && v.y.None? && v.xin && v.yx == []
    && var o := v.x.value;
    && Unused(o) && o.c == NewChan(o.c.localId, Outbound) && v.xy == [OpenMessage(o.c)]
  }

  /** y refused x: the refusal is in flight or has arrived. y's object remains
      in its table, held by nobody and silent. */
  ghost predicate Refused(v: Pair) {
    && v.x.Some? && v.y.Some? && v.yin && v.xy == []
    && var o, d := v.x.value, v.y.value;
    && Unused(o) && Unused(d) && o.c.direction == Outbound && d.c.direction == Inbound
    && (if v.xin then o.c == NewChan(o.c.localId, Outbound) && v.yx == [Message.OpenFailure(o.c.localId)]
        else v.yx == [] && forall i :: 0 <= i < |o.c.msg| ==> o.c.msg[i].OpenFailure?)
  }

  ghost predicate Good(v: Pair) {
    Opening(v) || Opening(Flip(v)) || Refused(v) || Refused(Flip(v)) || Linked(v)
  }

  lemma FlipGood(v: Pair)
    requires Good(v)
    ensures Good(Flip(v)) && Flip(Flip(v)) == v
  {}

  // ---- queues ----

  lemma {:induction false} Append(q: seq<Message>, m: Message)
    ensures Bytes(q + [m]) == Bytes(q) + Bytes([m])
    ensures Credits(q + [m]) == Credits(q) + CreditOf(m)
  {
    if q != [] {
      Append(q[1..], m);
      assert (q + [m])[1..] == q[1..] + [m];
    }
  }

  lemma AppendAll(q: seq<Message>, out: seq<Message>)
    requires |out| <= 1
    ensures Bytes(q + out) == Bytes(q) + Bytes(out)
    ensures Credits(q + out) == Credits(q) + Credits(out)
  {
    if out == [] { assert q + out == q; } else { Append(q, out[0]); assert out == [out[0]]; }
  }

  lemma Regroup<T>(a: seq<T>, b: seq<T>, c: seq<T>, d: seq<T>)
    ensures a + b + (c + d) == a + (b + c) + d == a + b + c + d
  {}

  lemma {:induction false} NoBytes(q: seq<Message>)
    requires forall i :: 0 <= i < |q| ==> !q[i].Data?
    ensures Bytes(q) == []
  {
    if q != [] { NoBytes(q[1..]); }
  }

  lemma LegalMore(q: seq<Message>, m: Message, r: Route)
    requires AllLegal(q, r) && Legal(m, q == [], r)
    ensures AllLegal(q + [m], r)
  {
    forall i | 0 <= i < |q + [m]| ensures LegalAt(q + [m], i, r) {
      if i < |q| { assert LegalAt(q, i, r); }
    }
  }

  /** What is behind the first frame stays acceptable, awaited or not. */
  lemma LegalTail(q: seq<Message>, r: Route, awaited: bool)
    requires AllLegal(q, r) && q != []
    ensures Legal(q[0], true, r) && AllLegal(q[1..], r.(awaited := awaited))
  {
    assert LegalAt(q, 0, r);
    forall i | 0 <= i < |q[1..]| ensures LegalAt(q[1..], i, r.(awaited := awaited)) {
      assert LegalAt(q, i + 1, r);
    }
  }

  lemma CloseMore(x: Obj, x': Obj, q: seq<Message>, m: Message)
    requires CloseGate(x, q, true) && !x.c.sentClose && x'.c.sentClose == m.Close?
    ensures CloseGate(x', q + [m], true)
  {
    forall i | 0 <= i < |q + [m]| ensures CloseAt(q + [m], i) {
      if i < |q| { assert CloseAt(q, i); }
    }
  }

  lemma CloseTail(x: Obj, q: seq<Message>)
    requires CloseGate(x, q, true) && q != []
    ensures if q[0].Close? then q == [q[0]] && x.c.sentClose else CloseGate(x, q[1..], true)
  {
    assert CloseAt(q, 0);
    forall i | 0 <= i < |q[1..]| ensures CloseAt(q[1..], i) {
      assert CloseAt(q, i + 1);
    }
  }

  // ---- local calls keep the invariant ----

  /** x' is x after a local call: the call kept what Open negotiated. */
  ghost predicate SameChannel(x: Obj, x': Obj) {
    && x'.owned == x.owned && x'.abandoned == x.abandoned
    && x'.c == x.c.(sentEOF := x'.c.sentEOF, sentClose := x'.c.sentClose, myWindow := x'.c.myWindow,
                    pending := x'.c.pending, remoteWin := x'.c.remoteWin)
    && x'.c.remoteWin.closed == x.c.remoteWin.closed
    && (x.c.sentEOF ==> x'.c.sentEOF)
    && x'.eofAt == (if x.eofAt == None && x'.c.sentEOF then Some(|x.written|) else x.eofAt)
    && (!x.owned ==> x'.inHand == x.inHand) && Held(x') <= MAX
  }

  /** x' sent m, a frame that the gates allow it to send. */
  ghost predicate Sends(x: Obj, x': Obj, m: Message) {
    && SameChannel(x, x') && !x.c.sentClose && x.c.maxRemotePayload != 0 && x.owned
    && x'.written == x.written + Bytes([m])
    && match m
       case Data(id, length, data) =>
         id == x.c.remoteId && length == |data| <= MAX && !x'.c.sentClose && x'.c.sentEOF == x.c.sentEOF
       case WindowAdjust(id, n) => id == x.c.remoteId && !x'.c.sentClose && x'.c.sentEOF == x.c.sentEOF
       case EOF(id) => id == x.c.remoteId && x'.c.sentEOF && !x'.c.sentClose
       case Close(id) => id == x.c.remoteId && x'.c.sentClose && x'.c.sentEOF == x.c.sentEOF
       case _ => false
  }

  /** Appending m to the queue lets the bytes behind each place grow by its own. */
  lemma BytesBehind(q: seq<Message>, m: Message, i: nat)
    requires i <= |q|
    ensures |Bytes((q + [m])[i..])| == |Bytes(q[i..])| + |Bytes([m])|
  {
    assert (q + [m])[i..] == q[i..] + [m];
    Append(q[i..], m);
  }

  lemma OneBytes(m: Message)
    ensures Bytes([m]) == if m.Data? then m.data else []
  {
    assert [m][1..] == [];
  }

  lemma SendEof(x: Obj, x': Obj, y: Obj, q: seq<Message>, m: Message)
    requires EofGate(x, y, q) && Sends(x, x', m)
    ensures EofGate(x', y, q + [m])
  {
    var q' := q + [m];
    OneBytes(m);
    forall i | 0 <= i < |q'| && q'[i].EOF? ensures MarkAt(q', i, Behind(x')) {
      BytesBehind(q, m, i);
      if i < |q| { assert q[i].EOF? && MarkAt(q, i, Behind(x)); } else { assert q[i..] == []; }
    }
    BytesBehind(q, m, 0);
    assert q[0..] == q && q'[0..] == q';
    if HasEOF(q) {
      var i :| 0 <= i < |q| && q[i].EOF?;
      assert q'[i].EOF?;
    }
    if m.EOF? { assert q'[|q|].EOF?; }
  }

  lemma SendShape(x: Obj, x': Obj, y: Obj, q: seq<Message>, p: seq<Message>, xin: bool, yin: bool, m: Message)
    requires Shape(x, y, q, p, yin) && Shape(y, x, p, q, xin) && Sends(x, x', m)
    ensures Shape(x', y, q + [m], p, yin)
  {
    LegalMore(q, m, RouteOf(x, y));
    CloseMore(x, x', q, m);
    SendEof(x, x', y, q, m);
  }

  lemma SendShapeBack(x: Obj, x': Obj, y: Obj, q: seq<Message>, p: seq<Message>, xin: bool, yin: bool, m: Message)
    requires Shape(x, y, q, p, yin) && Shape(y, x, p, q, xin) && Sends(x, x', m)
    ensures Shape(y, x', p, q + [m], xin)
  {
    assert RouteOf(y, x') == RouteOf(y, x) && EofGate(y, x', p);
  }

  /** A call that sends nothing: x already sent its Close, or the call only
      moves bytes to the reader or takes them in hand. */
  lemma SilentShape(x: Obj, x': Obj, y: Obj, q: seq<Message>, p: seq<Message>, xin: bool, yin: bool)
    requires Shape(x, y, q, p, yin) && Shape(y, x, p, q, xin)
    requires SameChannel(x, x') && x'.c.sentClose == x.c.sentClose && x.c.maxRemotePayload != 0
    requires x'.written == x.written && (x'.c.sentEOF == x.c.sentEOF || x.c.sentClose)
    requires x.c.direction == Outbound && !x.owned ==> x'.uncredited == 0
    ensures Shape(x', y, q, p, yin) && Shape(y, x', p, q, xin)
  {
    assert RouteOf(x', y) == RouteOf(x, y) && RouteOf(y, x') == RouteOf(y, x);
    assert EofGate(x', y, q) && EofGate(y, x', p);
  }

  ghost predicate Keeps(x: Obj, y: Obj, q: seq<Message>, p: seq<Message>, xin: bool, yin: bool, r: Moved) {
    r.Moved? && |r.out| <= 1 && Both(r.o, y, q + r.out, p, xin, yin)
  }

  /** Assembles the two halves for a call that sends at most one frame. */
  lemma Assemble(x: Obj, y: Obj, q: seq<Message>, p: seq<Message>, xin: bool, yin: bool, r: Moved)
    requires Both(x, y, q, p, xin, yin) && r.Moved? && |r.out| <= 1 && x.c.maxRemotePayload != 0
    requires if r.out == [] then SameChannel(x, r.o) && r.o.c.sentClose == x.c.sentClose
               && r.o.written == x.written && (r.o.c.sentEOF == x.c.sentEOF || x.c.sentClose)
               && (x.c.direction == Outbound && !x.owned ==> r.o.uncredited == 0)
             else Sends(x, r.o, r.out[0])
    requires Account(r.o, y, q + r.out, p) && Account(y, r.o, p, q + r.out)
    ensures Keeps(x, y, q, p, xin, yin, r)
  {
    if r.out == [] {
      assert q + r.out == q;
      SilentShape(x, r.o, y, q, p, xin, yin);
    } else {
      assert r.out == [r.out[0]];
      SendShape(x, r.o, y, q, p, xin, yin, r.out[0]);
      SendShapeBack(x, r.o, y, q, p, xin, yin, r.out[0]);
    }
  }

  /** What a Write step is when the window is open. */
  lemma WriteEmits(x: Obj, data: seq<Byte>) returns (n: nat)
    requires Do(x, Write(data)).Moved? && !x.c.remoteWin.closed
    ensures MayWrite(x)
    ensures n <= |data| && n <= x.c.remoteWin.win && n <= x.c.maxRemotePayload
    ensures Do(x, Write(data)) == Emit(x.(written := x.written + data[..n]),
                                       x.c.(remoteWin := Credit(x.c.remoteWin.win - n, false)),
                                       [Message.Data(x.c.remoteId, n, data[..n])])
  {
    n := Reserve(x.c.remoteWin, Min(x.c.maxRemotePayload, |data|)).1.n;
  }

  lemma WriteAccount(x: Obj, x': Obj, y: Obj, q: seq<Message>, p: seq<Message>, m: Message)
    requires Account(x, y, q, p) && Account(y, x, p, q) && m.Data?
    requires |m.data| <= x.c.remoteWin.win && x'.written == x.written + m.data
    requires x'.c == x.c.(remoteWin := Credit(x.c.remoteWin.win - |m.data|, x.c.remoteWin.closed))
    requires x'.read == x.read && x'.uncredited == x.uncredited && x'.inHand == x.inHand
    ensures Account(x', y, q + [m], p) && Account(y, x', p, q + [m])
  {
    Append(q, m);
    assert Bytes([m]) == m.data;
    Regroup(y.read, y.c.pending, Bytes(q), m.data);
  }

  lemma WriteKeeps(x: Obj, y: Obj, q: seq<Message>, p: seq<Message>, xin: bool, yin: bool, data: seq<Byte>)
    requires Both(x, y, q, p, xin, yin) && Disciplined(x, Write(data)) && Do(x, Write(data)).Moved?
    ensures Keeps(x, y, q, p, xin, yin, Do(x, Write(data)))
  {
    var r := Do(x, Write(data));
    if x.c.remoteWin.closed {
      assert q + r.out == q;
    } else {
      var n := WriteEmits(x, data);
      WriteAccount(x, r.o, y, q, p, r.out[0]);
      OneBytes(r.out[0]);
    }
    Assemble(x, y, q, p, xin, yin, r);
  }

  /** Reserving moves credit into the writer's hand. */
  lemma ReservingKeeps(x: Obj, y: Obj, q: seq<Message>, p: seq<Message>, xin: bool, yin: bool, data: seq<Byte>)
    requires Both(x, y, q, p, xin, yin) && Do(x, Reserving(data)).Moved?
    ensures Keeps(x, y, q, p, xin, yin, Do(x, Reserving(data)))
  {
    var r := Do(x, Reserving(data));
    assert q + r.out == q;
    Assemble(x, y, q, p, xin, yin, r);
  }

  /** Encoding puts it on the link. */
  lemma EncodingAccount(x: Obj, x': Obj, y: Obj, q: seq<Message>, p: seq<Message>, m: Message)
    requires Account(x, y, q, p) && Account(y, x, p, q) && m.Data? && x.inHand == Some(m.data)
    requires x'.written == x.written + m.data && x'.inHand == None && x'.c == x.c
    requires x'.read == x.read && x'.uncredited == x.uncredited
    ensures Account(x', y, q + [m], p) && Account(y, x', p, q + [m])
  {
    Append(q, m);
    OneBytes(m);
    Regroup(y.read, y.c.pending, Bytes(q), m.data);
  }

  lemma EncodingKeeps(x: Obj, y: Obj, q: seq<Message>, p: seq<Message>, xin: bool, yin: bool)
    requires Both(x, y, q, p, xin, yin) && Disciplined(x, Encoding) && Do(x, Encoding).Moved?
    ensures Keeps(x, y, q, p, xin, yin, Do(x, Encoding))
  {
    var r := Do(x, Encoding);
    EncodingAccount(x, r.o, y, q, p, r.out[0]);
    OneBytes(r.out[0]);
    Assemble(x, y, q, p, xin, yin, r);
  }

  lemma ReadKeeps(x: Obj, y: Obj, q: seq<Message>, p: seq<Message>, xin: bool, yin: bool, size: nat)
    requires Both(x, y, q, p, xin, yin) && Do(x, Read(size)).Moved?
    ensures Keeps(x, y, q, p, xin, yin, Do(x, Read(size)))
  {
    var r := Do(x, Read(size));
    assert q + r.out == q;
    assert x.read + x.c.pending == r.o.read + r.o.c.pending;
    Assemble(x, y, q, p, xin, yin, r);
  }

  lemma AdjustKeeps(x: Obj, y: Obj, q: seq<Message>, p: seq<Message>, xin: bool, yin: bool, n: nat)
    requires Both(x, y, q, p, xin, yin) && Do(x, Adjust(n)).Moved?
    ensures Keeps(x, y, q, p, xin, yin, Do(x, Adjust(n)))
  {
    var r := Do(x, Adjust(n));
    AppendAll(q, r.out);
    Assemble(x, y, q, p, xin, yin, r);
  }

  lemma CloseWriteKeeps(x: Obj, y: Obj, q: seq<Message>, p: seq<Message>, xin: bool, yin: bool)
    requires Both(x, y, q, p, xin, yin) && Do(x, CloseWrite).Moved?
    ensures Keeps(x, y, q, p, xin, yin, Do(x, CloseWrite))
  {
    AppendAll(q, Do(x, CloseWrite).out);
    Assemble(x, y, q, p, xin, yin, Do(x, CloseWrite));
  }

  lemma ShutdownKeeps(x: Obj, y: Obj, q: seq<Message>, p: seq<Message>, xin: bool, yin: bool)
    requires Both(x, y, q, p, xin, yin) && Do(x, Shutdown).Moved?
    ensures Keeps(x, y, q, p, xin, yin, Do(x, Shutdown))
  {
    AppendAll(q, Do(x, Shutdown).out);
    Assemble(x, y, q, p, xin, yin, Do(x, Shutdown));
  }

  lemma EnterKeeps(x: Obj, y: Obj, q: seq<Message>, p: seq<Message>, xin: bool, yin: bool, op: Op)
    requires Both(x, y, q, p, xin, yin) && Do(x, op).Moved? && (op.Enter? || op.Leave?)
    ensures Keeps(x, y, q, p, xin, yin, Do(x, op))
  {
    var r := Do(x, op);
    assert q + r.out == q;
    Assemble(x, y, q, p, xin, yin, r);
  }

  lemma QuietKeeps(x: Obj, y: Obj, q: seq<Message>, p: seq<Message>, xin: bool, yin: bool, op: Op)
    requires Both(x, y, q, p, xin, yin) && Do(x, op).Moved?
    requires op.OpenReturn? || op.Cancel?
    ensures Keeps(x, y, q, p, xin, yin, Do(x, op))
  {
    assert q + Do(x, op).out == q;
    var x' := Do(x, op).o;
    assert RouteOf(x', y) == RouteOf(x, y) && RouteOf(y, x') == RouteOf(y, x);
    assert EofGate(x', y, q) && EofGate(y, x', p);
  }

  ghost predicate SendsData(o: Obj, op: Op) {
    Do(o, op).Moved? && Do(o, op).out != [] && Do(o, op).out[0].Data?
  }

  /** The rule of mux/channel.go:90-91, which Write itself does not enforce: no
      data behind a Close of this end, be it the application's or the automatic
      answer to the peer's. A Write that sends nothing does not break it, such as
      one that finds the window closed. */
  ghost predicate Disciplined(o: Obj, op: Op) {
    o.c.sentClose ==> !SendsData(o, op)
  }

  /** Writes whose iterations are atomic break it only behind a Close that their own
      application has called: after an automatic one the window is closed. */
  lemma ClosedWindowSendsNothing(o: Obj, data: seq<Byte>)
    requires o.c.remoteWin.closed
    ensures !SendsData(o, Write(data))
    ensures Do(o, Reserving(data)).Moved? ==> Do(o, Reserving(data)).o.inHand == o.inHand
  {}

  function AfterOp(v: Pair, r: Moved): Pair
    requires r.Moved?
  {
    v.(x := Some(r.o), xy := v.xy + r.out)
  }

  lemma WritingKeepsLinked(v: Pair, op: Op)
    requires Linked(v) && Disciplined(v.x.value, op) && (op.Write? || op.Reserving? || op.Encoding?)
    requires Do(v.x.value, op).Moved?
    ensures Keeps(v.x.value, v.y.value, v.xy, v.yx, v.xin, v.yin, Do(v.x.value, op))
  {
    var x, y := v.x.value, v.y.value;
    if op.Write? { WriteKeeps(x, y, v.xy, v.yx, v.xin, v.yin, op.data); }
    else if op.Reserving? { ReservingKeeps(x, y, v.xy, v.yx, v.xin, v.yin, op.data); }
    else { EncodingKeeps(x, y, v.xy, v.yx, v.xin, v.yin); }
  }

  lemma SignalKeepsLinked(v: Pair, op: Op)
    requires Linked(v) && Disciplined(v.x.value, op) && (op.Adjust? || op.CloseWrite? || op.Shutdown?)
    requires Do(v.x.value, op).Moved?
    ensures Keeps(v.x.value, v.y.value, v.xy, v.yx, v.xin, v.yin, Do(v.x.value, op))
  {
    var x, y := v.x.value, v.y.value;
    if op.Adjust? { AdjustKeeps(x, y, v.xy, v.yx, v.xin, v.yin, op.n); }
    else if op.CloseWrite? { CloseWriteKeeps(x, y, v.xy, v.yx, v.xin, v.yin); }
    else { ShutdownKeeps(x, y, v.xy, v.yx, v.xin, v.yin); }
  }

  lemma ReadKeepsLinked(v: Pair, op: Op)
    requires Linked(v) && op.Read? && Do(v.x.value, op).Moved?
    ensures Keeps(v.x.value, v.y.value, v.xy, v.yx, v.xin, v.yin, Do(v.x.value, op))
  {
    ReadKeeps(v.x.value, v.y.value, v.xy, v.yx, v.xin, v.yin, op.size);
  }

  lemma SilentKeepsLinked(v: Pair, op: Op)
    requires Linked(v) && (op.Enter? || op.Leave? || op.OpenReturn? || op.Cancel?)
    requires Do(v.x.value, op).Moved?
    ensures Keeps(v.x.value, v.y.value, v.xy, v.yx, v.xin, v.yin, Do(v.x.value, op))
  {
    var x, y := v.x.value, v.y.value;
    if op.Enter? || op.Leave? { EnterKeeps(x, y, v.xy, v.yx, v.xin, v.yin, op); }
    else { QuietKeeps(x, y, v.xy, v.yx, v.xin, v.yin, op); }
  }

  lemma OpKeepsLinked(v: Pair, op: Op)
    requires Linked(v) && Disciplined(v.x.value, op)
    requires Do(v.x.value, op).Moved?
    ensures Keeps(v.x.value, v.y.value, v.xy, v.yx, v.xin, v.yin, Do(v.x.value, op))
  {
    if op.Write? || op.Reserving? || op.Encoding? { WritingKeepsLinked(v, op); }
    else if op.Adjust? || op.CloseWrite? || op.Shutdown? { SignalKeepsLinked(v, op); }
    else if op.Read? { ReadKeepsLinked(v, op); }
    else { SilentKeepsLinked(v, op); }
  }

  lemma OpKeepsGood(v: Pair, op: Op)
    requires Good(v) && v.x.Some? && Disciplined(v.x.value, op)
    requires Do(v.x.value, op).Moved?
    ensures Good(AfterOp(v, Do(v.x.value, op)))
  {
    if Linked(v) {
      OpKeepsLinked(v, op);
    } else {
      var r := Do(v.x.value, op);
      assert op.OpenReturn? || op.Cancel?;
      assert v.xy + r.out == v.xy;
    }
  }

  // ---- deliveries keep the invariant, and never fail ----

  /** The frame at the head of the y-to-x queue handled by x. */
  function AfterHandle(v: Pair, h: Handled): Pair
    requires v.x.Some? && h.Accepted? && v.yx != []
  {
    var o := v.x.value;
    v.(x := Some(o.(c := h.c, sent := o.sent + h.out)), xy := v.xy + h.out, yx := v.yx[1..],
       xin := v.xin && !h.drop)
  }

  ghost predicate Takes(x: Obj, y: Obj, q: seq<Message>, p: seq<Message>, xin: bool, yin: bool) {
    && p != [] && xin
    && var h := Handle(x.c, p[0]);
    && h.Accepted?
    && Both(x.(c := h.c, sent := x.sent + h.out), y, q + h.out, p[1..], xin && !h.drop, yin)
  }

  /** x received a frame that only moved bytes, credit or the end-of-stream mark. */
  ghost predicate Absorbs(x: Obj, x': Obj, m: Message) {
    && !m.Close? && !m.OpenConfirm?
    && x'.owned == x.owned && x'.abandoned == x.abandoned && x'.uncredited == x.uncredited
    && x'.written == x.written && x'.inHand == x.inHand && x'.eofAt == x.eofAt
    && x'.c == x.c.(myWindow := x'.c.myWindow, pending := x'.c.pending, remoteWin := x'.c.remoteWin,
                    pendingClosed := x'.c.pendingClosed)
    && x'.c.remoteWin.closed == x.c.remoteWin.closed
    && x'.c.pendingClosed == (x.c.pendingClosed || m.EOF?)
  }

  lemma MarksTail(p: seq<Message>, behind: nat)
    requires Marks(p, behind) && p != []
    ensures Marks(p[1..], behind) && (p[0].EOF? ==> |Bytes(p)| <= behind)
  {
    assert p[0..] == p;
    if p[0].EOF? { assert MarkAt(p, 0, behind); }
    forall i | 0 <= i < |p[1..]| && p[1..][i].EOF? ensures MarkAt(p[1..], i, behind) {
      assert p[1..][i..] == p[i + 1..] && MarkAt(p, i + 1, behind);
    }
  }

  lemma HasEOFTail(p: seq<Message>)
    requires p != []
    ensures HasEOF(p) <==> p[0].EOF? || HasEOF(p[1..])
  {
    if HasEOF(p) {
      var i :| 0 <= i < |p| && p[i].EOF?;
      if i > 0 { assert p[1..][i - 1].EOF?; }
    }
    if HasEOF(p[1..]) {
      var i :| 0 <= i < |p[1..]| && p[1..][i].EOF?;
      assert p[i + 1].EOF?;
    }
  }

  /** The head of p has been received. */
  lemma ReceiveEof(y: Obj, x: Obj, x': Obj, p: seq<Message>)
    requires EofGate(y, x, p) && p != [] && !p[0].Close?
    requires x'.c.pendingClosed == (x.c.pendingClosed || p[0].EOF?)
    ensures EofGate(y, x', p[1..])
  {
    MarksTail(p, Behind(y));
    HasEOFTail(p);
    assert |Bytes(p[1..])| <= |Bytes(p)|;
  }

  lemma AbsorbShape(x: Obj, x': Obj, y: Obj, q: seq<Message>, p: seq<Message>, xin: bool, yin: bool)
    requires Shape(x, y, q, p, yin) && Shape(y, x, p, q, xin) && p != [] && Absorbs(x, x', p[0])
    ensures Shape(x', y, q, p[1..], yin)
    ensures Shape(y, x', p[1..], q, xin)
  {
    LegalTail(p, RouteOf(y, x), RouteOf(y, x').awaited);
    assert x.c.maxRemotePayload != 0 && y.c.maxRemotePayload != 0;
    CloseTail(y, p);
    ReceiveEof(y, x, x', p);
    assert RouteOf(x', y) == RouteOf(x, y) && EofGate(x', y, q);
  }

  lemma DataAccount(x: Obj, x': Obj, y: Obj, q: seq<Message>, p: seq<Message>)
    requires Account(x, y, q, p) && Account(y, x, p, q) && p != [] && p[0].Data?
    requires |p[0].data| <= x.c.myWindow
    requires x' == x.(c := x.c.(myWindow := x.c.myWindow - |p[0].data|, pending := x.c.pending + p[0].data))
    ensures Account(x', y, q, p[1..]) && Account(y, x', p[1..], q)
  {
    var data, rest := p[0].data, Bytes(p[1..]);
    assert Bytes(p) == data + rest && Credits(p) == Credits(p[1..]);
    Regroup(x.read, x.c.pending, data, rest);
  }

  lemma DataAccepted(x: Obj, y: Obj, p: seq<Message>, q: seq<Message>)
    requires Conserved(y, x, p, q) && p != [] && p[0].Data? && LegalAt(p, 0, RouteOf(y, x))
    requires x.c.maxIncomingPayload == MAX
    ensures |p[0].data| <= x.c.myWindow
    ensures Handle(x.c, p[0])
         == Accepted(x.c.(myWindow := x.c.myWindow - |p[0].data|, pending := x.c.pending + p[0].data), [], false)
  {
    assert |Bytes(p)| >= |p[0].data|;
  }

  lemma HandleDataKeeps(x: Obj, y: Obj, q: seq<Message>, p: seq<Message>, xin: bool, yin: bool)
    requires Both(x, y, q, p, xin, yin) && p != [] && p[0].Data?
    ensures Takes(x, y, q, p, xin, yin)
  {
    var m := p[0];
    assert LegalAt(p, 0, RouteOf(y, x));
    DataAccepted(x, y, p, q);
    var x' := x.(c := x.c.(myWindow := x.c.myWindow - |m.data|, pending := x.c.pending + m.data));
    assert q + [] == q && x.sent + [] == x.sent;
    AbsorbShape(x, x', y, q, p, xin, yin);
    DataAccount(x, x', y, q, p);
  }

  lemma AdjustAccount(x: Obj, x': Obj, y: Obj, q: seq<Message>, p: seq<Message>)
    requires Account(x, y, q, p) && Account(y, x, p, q) && p != [] && p[0].WindowAdjust?
    requires x' == x.(c := x.c.(remoteWin := x.c.remoteWin.(win := x.c.remoteWin.win + p[0].additionalBytes)))
    ensures Account(x', y, q, p[1..]) && Account(y, x', p[1..], q)
  {
    assert Bytes(p) == Bytes(p[1..]) && Credits(p) == p[0].additionalBytes + Credits(p[1..]);
  }

  lemma AdjustAccepted(x: Obj, y: Obj, p: seq<Message>, q: seq<Message>)
    requires Conserved(x, y, q, p) && p != [] && p[0].WindowAdjust?
    ensures Handle(x.c, p[0]) == Accepted(
      x.c.(remoteWin := x.c.remoteWin.(win := x.c.remoteWin.win + p[0].additionalBytes)), [], false)
  {
    assert Credits(p) >= p[0].additionalBytes;
    AddIsExact(x.c.remoteWin, p[0].additionalBytes);
  }

  lemma HandleAdjustKeeps(x: Obj, y: Obj, q: seq<Message>, p: seq<Message>, xin: bool, yin: bool)
    requires Both(x, y, q, p, xin, yin) && p != [] && p[0].WindowAdjust?
    ensures Takes(x, y, q, p, xin, yin)
  {
    var m := p[0];
    assert LegalAt(p, 0, RouteOf(y, x));
    AdjustAccepted(x, y, p, q);
    var x' := x.(c := x.c.(remoteWin := x.c.remoteWin.(win := x.c.remoteWin.win + m.additionalBytes)));
    assert q + [] == q && x.sent + [] == x.sent;
    AbsorbShape(x, x', y, q, p, xin, yin);
    AdjustAccount(x, x', y, q, p);
  }

  lemma HandleEOFKeeps(x: Obj, y: Obj, q: seq<Message>, p: seq<Message>, xin: bool, yin: bool)
    requires Both(x, y, q, p, xin, yin) && p != [] && p[0].EOF?
    ensures Takes(x, y, q, p, xin, yin)
  {
    var m := p[0];
    assert LegalAt(p, 0, RouteOf(y, x));
    assert Bytes(p) == Bytes(p[1..]) && Credits(p) == Credits(p[1..]);
    var x' := x.(c := x.c.(pendingClosed := true));
    assert Handle(x.c, m) == Accepted(x'.c, [], false);
    assert q + [] == q && x.sent + [] == x.sent;
    AbsorbShape(x, x', y, q, p, xin, yin);
  }

  lemma HandleConfirm(x: Obj, y: Obj, q: seq<Message>, p: seq<Message>, xin: bool, yin: bool)
    requires Both(x, y, q, p, xin, yin) && p != [] && p[0].OpenConfirm?
    ensures Takes(x, y, q, p, xin, yin)
  {
    LegalTail(p, RouteOf(y, x), false);
    AddIsExact(x.c.remoteWin, W);
    var h := Handle(x.c, p[0]);
    assert q + h.out == q;
    var x' := x.(c := h.c, sent := x.sent + h.out);
    CloseTail(y, p);
    ReceiveEof(y, x, x', p);
    assert RouteOf(x', y) == RouteOf(x, y) && EofGate(x', y, q);
  }

  /** x after receiving Close: it answers unless it had closed already. */
  ghost predicate Closes(x: Obj, x': Obj, out: seq<Message>) {
    && x' == x.(c := Closed(x.c), sent := x'.sent)
    && out == Gated(x.c, Message.Close(x.c.remoteId))
  }

  lemma CloseShape(x: Obj, x': Obj, y: Obj, q: seq<Message>, p: seq<Message>, xin: bool, yin: bool, out: seq<Message>)
    requires Shape(x, y, q, p, yin) && Shape(y, x, p, q, xin)
    requires p != [] && p[0].Close? && Closes(x, x', out)
    ensures Shape(x', y, q + out, [], yin)
  {
    assert LegalAt(p, 0, RouteOf(y, x));
    if out == [] {
      assert q + out == q;
    } else {
      LegalMore(q, out[0], RouteOf(x, y));
      CloseMore(x, x', q, out[0]);
      assert out == [out[0]];
    }
    CloseEof(x, x', y, q, out);
  }

  lemma CloseEof(x: Obj, x': Obj, y: Obj, q: seq<Message>, out: seq<Message>)
    requires EofGate(x, y, q) && Closes(x, x', out)
    ensures EofGate(x', y, q + out)
  {
    if out == [] {
      assert q + out == q;
    } else {
      var m := out[0];
      assert out == [m];
      OneBytes(m);
      forall i | 0 <= i < |q + out| && (q + out)[i].EOF? ensures MarkAt(q + out, i, Behind(x')) {
        BytesBehind(q, m, i);
        assert q[i].EOF? && MarkAt(q, i, Behind(x));
      }
      BytesBehind(q, m, 0);
      assert q[0..] == q && (q + out)[0..] == q + out;
    }
  }

  lemma CloseShapeBack(
    x: Obj, x': Obj, y: Obj, q: seq<Message>, p: seq<Message>, xin: bool, yin: bool, out: seq<Message>)
    requires Shape(x, y, q, p, yin) && Shape(y, x, p, q, xin)
    requires p != [] && p[0].Close? && Closes(x, x', out)
    ensures Shape(y, x', [], q + out, false)
  {
    CloseTail(y, p);
    assert LegalAt(p, 0, RouteOf(y, x));
  }

  lemma CloseAccount(x: Obj, x': Obj, y: Obj, q: seq<Message>, p: seq<Message>, out: seq<Message>)
    requires Account(x, y, q, p) && Account(y, x, p, q) && |p| == 1 && p[0].Close? && Closes(x, x', out)
    ensures Account(x', y, q + out, []) && Account(y, x', [], q + out)
  {
    assert Bytes(p) == Bytes(p[1..]) && Credits(p) == Credits(p[1..]);
    AppendAll(q, out);
  }

  lemma HandleClose(x: Obj, y: Obj, q: seq<Message>, p: seq<Message>, xin: bool, yin: bool)
    requires Both(x, y, q, p, xin, yin) && p != [] && p[0].Close?
    ensures Takes(x, y, q, p, xin, yin)
  {
    CloseTail(y, p);
    assert p[1..] == [];
    var h := Handle(x.c, p[0]);
    var x' := x.(c := h.c, sent := x.sent + h.out);
    CloseShape(x, x', y, q, p, xin, yin, h.out);
    CloseShapeBack(x, x', y, q, p, xin, yin, h.out);
    CloseAccount(x, x', y, q, p, h.out);
  }

  /** In an established channel the next frame always has a home and is always
      accepted, and accepting it keeps the invariant. */
  lemma HandleKeepsLinked(v: Pair)
    requires Linked(v) && v.yx != []
    ensures !v.yx[0].Open? && v.yx[0].channelID == v.x.value.c.localId && v.xin
    ensures Takes(v.x.value, v.y.value, v.xy, v.yx, v.xin, v.yin)
  {
    var x, y, m := v.x.value, v.y.value, v.yx[0];
    assert LegalAt(v.yx, 0, RouteOf(y, x));
    if m.Close? {
      HandleClose(x, y, v.xy, v.yx, v.xin, v.yin);
    } else if m.OpenConfirm? {
      HandleConfirm(x, y, v.xy, v.yx, v.xin, v.yin);
    } else if m.Data? {
      HandleDataKeeps(x, y, v.xy, v.yx, v.xin, v.yin);
    } else if m.WindowAdjust? {
      HandleAdjustKeeps(x, y, v.xy, v.yx, v.xin, v.yin);
    } else {
      HandleEOFKeeps(x, y, v.xy, v.yx, v.xin, v.yin);
    }
  }

  /** The same for every phase, except the answer to an Open. */
  lemma HandleKeepsGood(v: Pair)
    requires Good(v) && v.yx != [] && !v.yx[0].Open?
    ensures v.x.Some? && v.xin && v.yx[0].channelID == v.x.value.c.localId
    ensures Handle(v.x.value.c, v.yx[0]).Accepted?
    ensures Good(AfterHandle(v, Handle(v.x.value.c, v.yx[0])))
  {
    if Linked(v) {
      HandleKeepsLinked(v);
    } else {
      assert v.yx[1..] == [];
      assert v.xy + [] == v.xy;
    }
  }

  lemma LinkedTakesNoOpen(v: Pair)
    requires Linked(v) && v.yx != []
    ensures !v.yx[0].Open?
  {
    assert LegalAt(v.yx, 0, RouteOf(v.y.value, v.x.value));
  }

  /** handleOpen at x: either answer starts a good channel. */
  lemma AnswerKeepsGood(v: Pair, localId: nat, accept: bool)
    requires Good(v) && v.yx != [] && v.yx[0].Open?
    ensures v.x.None? && v.yx[1..] == [] && v.xy == []
    ensures MIN_PACKET_LENGTH <= v.yx[0].maxPacketSize <= MAX_PACKET_LENGTH
    ensures var o := Answered(localId, v.yx[0], accept);
      Good(Pair(Some(o), v.y, o.sent, [], true, v.yin))
  {
    if Linked(v) { LinkedTakesNoOpen(v); }
    assert Opening(Flip(v));
    AddIsExact(Credit(0, false), W);
    var x, y := Answered(localId, v.yx[0], accept), v.y.value;
    var out := x.sent;
    assert Credits(out) == CreditOf(out[0]) + Credits([]);
    assert Bytes(out) == [];
    if accept {
      assert LegalAt(out, 0, RouteOf(x, y)) && CloseAt(out, 0);
      assert Both(x, y, out, [], true, v.yin);
    } else {
      assert Refused(Flip(Pair(Some(x), v.y, out, [], true, v.yin)));
    }
  }
}
