/** Two qmux endpoints joined by reliable FIFO links, with any number of channels
    opened from either side and local ids reused as the channel tables dictate.

    A step is one local call or one delivered packet. A frame carries, besides
    the message, the handle of the channel it was sent for; that mark is history
    only: delivery looks at nothing but the message, and the routing results say
    that the message finds the channel the mark names. */
module System {
  import opened Wire
  import opened Protocol
  import opened Link

  datatype Frame = Frame(tag: nat, msg: Message)

  datatype State = State(a: Endpoint, b: Endpoint, ab: seq<Frame>, ba: seq<Frame>, next: nat)

  const Init: State := State(Endpoint([], map[]), Endpoint([], map[]), [], [], 0)

  function Swap(s: State): State {
    State(s.b, s.a, s.ba, s.ab, s.next)
  }

  function Tagged(k: nat, out: seq<Message>): seq<Frame> {
    if out == [] then [] else [Frame(k, out[0])] + Tagged(k, out[1..])
  }

  // ---- steps and runs ----

  datatype Action = StartOpening | Call(k: nat, op: Op) | Deliver(accept: bool)

  datatype Result = Next(s: State) | Disabled | Crash(reason: Reason) | Wedged

  function Sent(s: State, r: Outcome): Result {
    match r
    case Idle => Disabled
    case Broken(reason) => Crash(reason)
    case Hung(_, _) => Wedged
    case Step(e, k, out) => Next(s.(a := e, ab := s.ab + Tagged(k, out)))
  }

  /** A step of endpoint a. */
  function ActA(s: State, action: Action): Result {
    match action
    case StartOpening => Sent(s.(next := s.next + 1), StartOpen(s.a, s.next))
    case Call(k, op) => Sent(s, Local(s.a, k, op))
    case Deliver(accept) =>
      if s.ba == [] then Disabled
      else Sent(s.(ba := s.ba[1..]), Receive(s.a, s.ba[0].tag, s.ba[0].msg, accept))
  }

  datatype Event = Event(atA: bool, action: Action)

  function View(s: State, atA: bool): State {
    if atA then s else Swap(s)
  }

  function Act(s: State, e: Event): Result {
    match ActA(View(s, e.atA), e.action)
    case Next(t) => Next(View(t, e.atA))
    case r => r
  }

  /** A schedule of events; those that are not enabled when their turn comes
      are passed over. */
  function Exec(s: State, run: seq<Event>): Result {
    if run == [] then Next(s)
    else match Exec(s, run[..|run| - 1])
      case Next(t) => (match Act(t, run[|run| - 1]) case Disabled => Next(t) case r => r)
      case r => r
  }

  /** No event of the schedule sends data on a channel after closing it. */
  ghost predicate Obedient(s: State, run: seq<Event>) {
    run == [] ||
    (Obedient(s, run[..|run| - 1])
     && match Exec(s, run[..|run| - 1])
        case Next(t) => EventOk(t, run[|run| - 1])
        case _ => true)
  }

  ghost predicate EventOk(s: State, e: Event) {
    var t := View(s, e.atA);
    e.action.Call? && e.action.k in t.a.objs ==> Disciplined(t.a.objs[e.action.k], e.action.op)
  }

  lemma ExecMore(s: State, run: seq<Event>, e: Event)
    requires Exec(s, run).Next? && Act(Exec(s, run).s, e).Next?
    ensures Exec(s, run + [e]) == Act(Exec(s, run).s, e)
  {
    assert (run + [e])[..|run|] == run;
  }

  lemma ObeyMore(s: State, run: seq<Event>, e: Event)
    requires Obedient(s, run) && (Exec(s, run).Next? ==> EventOk(Exec(s, run).s, e))
    ensures Obedient(s, run + [e])
  {
    assert (run + [e])[..|run|] == run;
  }

  function Repeat(e: Event, n: nat): (run: seq<Event>)
    ensures |run| == n && forall i :: 0 <= i < n ==> run[i] == e
  {
    if n == 0 then [] else Repeat(e, n - 1) + [e]
  }

  /** The same schedule with the two endpoints exchanged. */
  function MirrorRun(run: seq<Event>): (r: seq<Event>)
    ensures |r| == |run|
  {
    if run == [] then []
    else MirrorRun(run[..|run| - 1]) + [run[|run| - 1].(atA := !run[|run| - 1].atA)]
  }

  /** The two endpoints play the same role: exchanging them throughout a run
      exchanges them in the state it reaches (and Init is its own mirror image). */
  lemma {:induction false} Mirror(s: State, run: seq<Event>)
    ensures Obedient(s, run) ==> Obedient(Swap(s), MirrorRun(run))
    ensures Exec(Swap(s), MirrorRun(run)) == match Exec(s, run) case Next(t) => Next(Swap(t)) case r => r
  {
    if run != [] {
      var before, last := run[..|run| - 1], run[|run| - 1];
      Mirror(s, before);
      assert MirrorRun(run)[..|run| - 1] == MirrorRun(before);
      if Exec(s, before).Next? { MirrorAct(Exec(s, before).s, last); }
    }
  }

  lemma MirrorAct(t: State, e: Event)
    ensures EventOk(Swap(t), e.(atA := !e.atA)) == EventOk(t, e)
    ensures Act(Swap(t), e.(atA := !e.atA)) == match Act(t, e) case Next(u) => Next(Swap(u)) case r => r
  {
    assert View(Swap(t), !e.atA) == View(t, e.atA);
  }

  // ---- the invariant ----

  function Proj(link: seq<Frame>, k: nat): seq<Message> {
    if link == [] then []
    else if link[0].tag == k then [link[0].msg] + Proj(link[1..], k)
    else Proj(link[1..], k)
  }

  function Lookup(e: Endpoint, k: nat): Option<Obj> {
    if k in e.objs then Some(e.objs[k]) else None
  }

  /** Channel k alone. */
  function PairOf(s: State, k: nat): Pair {
    Pair(Lookup(s.a, k), Lookup(s.b, k), Proj(s.ab, k), Proj(s.ba, k), InTable(s.a, k), InTable(s.b, k))
  }

  ghost predicate Known(s: State) {
    && (forall k :: k in s.a.objs ==> k < s.next)
    && (forall k :: k in s.b.objs ==> k < s.next)
    && (forall i :: 0 <= i < |s.ab| ==> s.ab[i].tag < s.next)
    && (forall i :: 0 <= i < |s.ba| ==> s.ba[i].tag < s.next)
  }

  ghost predicate Inv(s: State) {
    && TableOk(s.a) && TableOk(s.b) && Known(s)
    && forall k :: 0 <= k < s.next ==> Good(PairOf(s, k))
  }

  lemma SwapInv(s: State)
    requires Inv(s)
    ensures Inv(Swap(s))
  {
    forall k | 0 <= k < s.next ensures Good(PairOf(Swap(s), k)) {
      FlipGood(PairOf(s, k));
      assert PairOf(Swap(s), k) == Flip(PairOf(s, k));
    }
  }

  // ---- projections ----

  lemma {:induction false} ProjAppend(link: seq<Frame>, more: seq<Frame>, k: nat)
    ensures Proj(link + more, k) == Proj(link, k) + Proj(more, k)
  {
    if link == [] {
      assert link + more == more;
    } else {
      assert (link + more)[1..] == link[1..] + more;
      ProjAppend(link[1..], more, k);
    }
  }

  lemma {:induction false} ProjTagged(k: nat, out: seq<Message>, j: nat)
    ensures Proj(Tagged(k, out), j) == if j == k then out else []
    ensures forall i :: 0 <= i < |Tagged(k, out)| ==> Tagged(k, out)[i].tag == k
  {
    if out != [] {
      ProjTagged(k, out[1..], j);
      assert Tagged(k, out)[1..] == Tagged(k, out[1..]);
    }
  }

  lemma ProjSent(link: seq<Frame>, k: nat, out: seq<Message>, j: nat)
    ensures Proj(link + Tagged(k, out), j) == if j == k then Proj(link, j) + out else Proj(link, j)
  {
    ProjAppend(link, Tagged(k, out), j);
    ProjTagged(k, out, j);
  }

  lemma {:induction false} ProjMember(link: seq<Frame>, i: nat)
    requires i < |link|
    ensures link[i].msg in Proj(link, link[i].tag)
  {
    if i > 0 { ProjMember(link[1..], i - 1); }
  }

  lemma {:induction false} ProjUnknown(link: seq<Frame>, k: nat)
    requires forall i :: 0 <= i < |link| ==> link[i].tag != k
    ensures Proj(link, k) == []
  {
    if link != [] { ProjUnknown(link[1..], k); }
  }

  // ---- every step of the session is a step of one channel ----

  /** The channel a step of endpoint a is about. */
  function Subject(s: State, action: Action): nat {
    match action
    case StartOpening => s.next
    case Call(k, _) => k
    case Deliver(_) => if s.ba == [] then 0 else s.ba[0].tag
  }

  /** One step of a single channel taken at end x, as module Link defines it. */
  ghost predicate ChannelStep(v: Pair, action: Action, v': Pair) {
    match action
    case StartOpening => v.x == v.y == None && v.xy == v.yx == [] && Opening(v')
    case Call(_, op) => v.x.Some? && Do(v.x.value, op).Moved? && v' == AfterOp(v, Do(v.x.value, op))
    case Deliver(accept) =>
      if v.yx == [] then false
      else if v.yx[0].Open? then
        v.x == None && v'.x.Some? && v'.x.value.owned == accept
        && v' == v.(x := v'.x, xy := v.xy + v'.x.value.sent, yx := v.yx[1..], xin := true)
      else
        && v.x.Some? && Handle(v.x.value.c, v.yx[0]).Accepted?
        && v' == AfterHandle(v, Handle(v.x.value.c, v.yx[0]))
  }

  /** Frame rule: s' is s after endpoint a became e', sent out for channel k and
      took `taken` frames of channel k from its incoming link. */
  lemma OthersUnchanged(s: State, e': Endpoint, k: nat, out: seq<Message>, ba': seq<Frame>, next': nat, j: nat)
    requires j != k && Lookup(e', j) == Lookup(s.a, j) && InTable(e', j) == InTable(s.a, j)
    requires Proj(ba', j) == Proj(s.ba, j)
    ensures PairOf(State(e', s.b, s.ab + Tagged(k, out), ba', next'), j) == PairOf(s, j)
  {
    ProjSent(s.ab, k, out, j);
  }

  lemma StartOpeningIsLocal(s: State)
    requires TableOk(s.a) && Known(s)
    ensures var r := ActA(s, StartOpening); var k := s.next;
      && r.Next? && TableOk(r.s.a)
      && ChannelStep(PairOf(s, k), StartOpening, PairOf(r.s, k))
      && forall j :: j != k ==> PairOf(r.s, j) == PairOf(s, j)
  {
    var k, s' := s.next, ActA(s, StartOpening).s;
    var c := NewChan(FreeSlot(s.a.table), Outbound);
    var out := [OpenMessage(c)];
    InsertTable(s.a, k, NewObj(c, false, out));
    ProjUnknown(s.ab, k);
    ProjUnknown(s.ba, k);
    ProjSent(s.ab, k, out, k);
    forall j | j != k ensures PairOf(s', j) == PairOf(s, j) {
      OthersUnchanged(s, s'.a, k, out, s.ba, s.next + 1, j);
    }
  }

  lemma CallIsLocal(s: State, k: nat, op: Op)
    requires TableOk(s.a) && ActA(s, Call(k, op)) != Disabled
    ensures var r := ActA(s, Call(k, op));
      && r.Next? && TableOk(r.s.a)
      && ChannelStep(PairOf(s, k), Call(k, op), PairOf(r.s, k))
      && forall j :: j != k ==> PairOf(r.s, j) == PairOf(s, j)
  {
    var r, s' := Do(s.a.objs[k], op), ActA(s, Call(k, op)).s;
    assert r.o.c.localId == s.a.objs[k].c.localId;
    UpdateTable(s.a, k, r.o);
    ProjSent(s.ab, k, r.out, k);
    forall j | j != k ensures PairOf(s', j) == PairOf(s, j) {
      OthersUnchanged(s, s'.a, k, r.out, s.ba, s.next, j);
    }
  }

  lemma AnswerIsLocal(s: State, accept: bool)
    requires TableOk(s.a) && s.ba != [] && s.ba[0].msg.Open? && s.ba[0].tag !in s.a.objs
    requires MIN_PACKET_LENGTH <= s.ba[0].msg.maxPacketSize <= MAX_PACKET_LENGTH
    ensures var r := ActA(s, Deliver(accept)); var k := s.ba[0].tag;
      && r.Next? && TableOk(r.s.a)
      && ChannelStep(PairOf(s, k), Deliver(accept), PairOf(r.s, k))
      && PairOf(r.s, k).x == Some(Answered(FreeSlot(s.a.table), s.ba[0].msg, accept))
      && forall j :: j != k ==> PairOf(r.s, j) == PairOf(s, j)
  {
    var k, m, s' := s.ba[0].tag, s.ba[0].msg, ActA(s, Deliver(accept)).s;
    var o := Answered(FreeSlot(s.a.table), m, accept);
    InsertTable(s.a, k, o);
    ProjSent(s.ab, k, o.sent, k);
    assert Proj(s.ba, k)[1..] == Proj(s.ba[1..], k);
    forall j | j != k ensures PairOf(s', j) == PairOf(s, j) {
      OthersUnchanged(s, s'.a, k, o.sent, s.ba[1..], s.next, j);
    }
  }

  lemma PacketIsLocal(s: State, accept: bool)
    requires TableOk(s.a) && s.ba != [] && !s.ba[0].msg.Open? && InTable(s.a, s.ba[0].tag)
    requires s.ba[0].msg.channelID == s.a.objs[s.ba[0].tag].c.localId
    requires Handle(s.a.objs[s.ba[0].tag].c, s.ba[0].msg).Accepted?
    ensures var r := ActA(s, Deliver(accept)); var k := s.ba[0].tag;
      && r.Next? && TableOk(r.s.a)
      && ChannelStep(PairOf(s, k), Deliver(accept), PairOf(r.s, k))
      && forall j :: j != k ==> PairOf(r.s, j) == PairOf(s, j)
  {
    var k, m := s.ba[0].tag, s.ba[0].msg;
    var h, s' := Handle(s.a.objs[k].c, m), ActA(s, Deliver(accept)).s;
    var o := s.a.objs[k].(c := h.c, sent := s.a.objs[k].sent + h.out);
    HandleKeepsId(s.a.objs[k].c, m);
    if h.drop { RemoveTable(s.a, k, o); } else { UpdateTable(s.a, k, o); }
    ProjSent(s.ab, k, h.out, k);
    assert Proj(s.ba, k)[1..] == Proj(s.ba[1..], k);
    forall j | j != k ensures PairOf(s', j) == PairOf(s, j) {
      OthersUnchanged(s, s'.a, k, h.out, s.ba[1..], s.next, j);
    }
  }

  lemma HandleKeepsId(c: Chan, m: Message)
    requires Handle(c, m).Accepted?
    ensures Handle(c, m).c.localId == c.localId
  {}

  /** A delivery in a good state: the frame finds its own channel. */
  lemma DeliveryIsLocal(s: State, accept: bool)
    requires TableOk(s.a) && s.ba != [] && Good(PairOf(s, s.ba[0].tag))
    ensures var r := ActA(s, Deliver(accept)); var k := s.ba[0].tag;
      && r.Next? && TableOk(r.s.a)
      && ChannelStep(PairOf(s, k), Deliver(accept), PairOf(r.s, k))
      && Good(PairOf(r.s, k))
      && forall j :: j != k ==> PairOf(r.s, j) == PairOf(s, j)
    ensures !s.ba[0].msg.Open? ==> Get(s.a.table, s.ba[0].msg.channelID) == Some(s.ba[0].tag)
  {
    var v := PairOf(s, s.ba[0].tag);
    if s.ba[0].msg.Open? {
      AnswerKeepsGood(v, FreeSlot(s.a.table), accept);
      AnswerIsLocal(s, accept);
      var o := Answered(FreeSlot(s.a.table), s.ba[0].msg, accept);
      assert v.xy + o.sent == o.sent;
    } else {
      HandleKeepsGood(v);
      PacketIsLocal(s, accept);
    }
  }

  /** The session is a product of independent channels: a step of endpoint a
      never fails, is a step of exactly one channel, and leaves every other
      channel, both its ends and all its frames in flight, as it was. */
  lemma StepIsLocal(s: State, action: Action)
    requires Inv(s) && ActA(s, action) != Disabled
    ensures var r := ActA(s, action); var k := Subject(s, action);
      && r.Next?
      && ChannelStep(PairOf(s, k), action, PairOf(r.s, k))
      && forall j :: j != k ==> PairOf(r.s, j) == PairOf(s, j)
  {
    match action {
      case StartOpening => StartOpeningIsLocal(s);
      case Call(k, op) => CallIsLocal(s, k, op);
      case Deliver(accept) => DeliveryIsLocal(s, accept);
    }
  }

  // ---- the invariant over runs ----

  lemma StepKeepsKnown(s: State, action: Action)
    requires Known(s) && ActA(s, action).Next?
    requires action.Deliver? ==> Receive(s.a, s.ba[0].tag, s.ba[0].msg, action.accept).k == s.ba[0].tag
    ensures Known(ActA(s, action).s)
  {
    var k, s' := Subject(s, action), ActA(s, action).s;
    var out := match action
      case StartOpening => StartOpen(s.a, k).out
      case Call(_, op) => Local(s.a, k, op).out
      case Deliver(accept) => Receive(s.a, k, s.ba[0].msg, accept).out;
    ProjTagged(k, out, k);
    assert s'.ab == s.ab + Tagged(k, out);
  }

  lemma RestoreInv(s: State, s': State, k: nat)
    requires Inv(s) && Known(s') && TableOk(s'.a) && s'.b == s.b
    requires Good(PairOf(s', k)) && s.next <= s'.next && (s.next < s'.next ==> s'.next == k + 1 == s.next + 1)
    requires forall j :: j != k ==> PairOf(s', j) == PairOf(s, j)
    ensures Inv(s')
  {
    forall j | 0 <= j < s'.next ensures Good(PairOf(s', j)) {
      if j != k { assert PairOf(s', j) == PairOf(s, j); }
    }
  }

  lemma StartOpeningKeepsInv(s: State)
    requires Inv(s)
    ensures ActA(s, StartOpening).Next? && Inv(ActA(s, StartOpening).s)
  {
    StartOpeningIsLocal(s);
    StepKeepsKnown(s, StartOpening);
    RestoreInv(s, ActA(s, StartOpening).s, s.next);
  }

  lemma CallKeepsInv(s: State, k: nat, op: Op)
    requires Inv(s) && k in s.a.objs && Disciplined(s.a.objs[k], op) && ActA(s, Call(k, op)) != Disabled
    ensures ActA(s, Call(k, op)).Next? && Inv(ActA(s, Call(k, op)).s)
  {
    CallIsLocal(s, k, op);
    OpKeepsGood(PairOf(s, k), op);
    StepKeepsKnown(s, Call(k, op));
    RestoreInv(s, ActA(s, Call(k, op)).s, k);
  }

  lemma DeliverKeepsInv(s: State, accept: bool)
    requires Inv(s) && s.ba != []
    ensures ActA(s, Deliver(accept)).Next? && Inv(ActA(s, Deliver(accept)).s)
  {
    assert s.ba[0].tag < s.next;
    DeliveryIsLocal(s, accept);
    StepKeepsKnown(s, Deliver(accept));
    RestoreInv(s, ActA(s, Deliver(accept)).s, s.ba[0].tag);
  }

  lemma StepKeepsInv(s: State, e: Event)
    requires Inv(s) && EventOk(s, e) && Act(s, e) != Disabled
    ensures Act(s, e).Next? && Inv(Act(s, e).s)
  {
    if !e.atA { SwapInv(s); }
    var t := View(s, e.atA);
    match e.action {
      case StartOpening => StartOpeningKeepsInv(t);
      case Call(k, op) => CallKeepsInv(t, k, op);
      case Deliver(accept) => DeliverKeepsInv(t, accept);
    }
    if !e.atA { SwapInv(ActA(t, e.action).s); }
  }

  /** No event of a run without data after Close makes onePacket fail or
      hang, and the invariant holds throughout. */
  lemma {:induction false} RunsKeepInv(s: State, run: seq<Event>)
    requires Inv(s) && Obedient(s, run)
    ensures Exec(s, run).Next? && Inv(Exec(s, run).s)
  {
    if run != [] {
      var before, last := run[..|run| - 1], run[|run| - 1];
      RunsKeepInv(s, before);
      var t := Exec(s, before).s;
      if Act(t, last) != Disabled { StepKeepsInv(t, last); }
    }
  }
}
