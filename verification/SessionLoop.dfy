/** The session object and its receive loop (mux/session.go), from raw bytes in to
    raw bytes out. Whatever bytes arrive, the loop takes the session through a run
    of module AnyPeer, so everything proved there holds of it. */
module SessionLoop {
  import opened Wire
  import opened Protocol
  import opened AnyPeer
  import opened Objects
  import Mux

  datatype Failure = Unreadable(error: ReadError) | Refused(reason: Reason) | Blocks

  /** Where the loop stops: the endpoint, what it has sent, and why. */
  datatype Stop = Stop(e: Endpoint, next: nat, sent: seq<Message>, why: Failure)

  lemma Shorter(s: seq<Byte>)
    requires Decode(s).Got?
    ensures |Decode(s).rest| < |s|
  {
    EncodeDecode(s);
  }

  /** What onePacket leaves behind, what it has sent, and how it fails, if it does. */
  function Left(e: Endpoint, o: Outcome): Endpoint {
    match o
    case Step(e', _, _) => e'
    case Hung(e', _) => e'
    case _ => e
  }

  function Sent(o: Outcome): seq<Message> {
    if o.Step? then o.out else []
  }

  function FailureOf(o: Outcome): Option<Failure> {
    match o
    case Step(_, _, _) => None
    case Broken(reason) => Some(Refused(reason))
    case _ => Some(Blocks)
  }

  /** One turn of the loop: the endpoint it leaves, what it sends, and whether it is
      the last. */
  datatype Turned = Turned(e: Endpoint, sent: seq<Message>, why: Option<Failure>, rest: seq<Byte>)

  function Turn(e: Endpoint, next: nat, s: seq<Byte>, accept: bool): Turned {
    match Decode(s)
    case Failed(error) => Turned(e, [], Some(Unreadable(error)), s)
    case Got(m, rest) =>
      var o := Receive(e, next, m, accept);
      Turned(Left(e, o), Sent(o), FailureOf(o), rest)
  }

  /** onePacket repeated on the bytes s; `accepts` answers the n-th packet's race
      between Accept and the timer. */
  function Process(e: Endpoint, next: nat, s: seq<Byte>, accepts: nat -> bool, n: nat): Stop
    decreases |s|
  {
    var t := Turn(e, next, s, accepts(n));
    match t.why
    case Some(why) => Stop(t.e, next, t.sent, why)
    case None =>
      Shorter(s);
      var stop := Process(t.e, next + 1, t.rest, accepts, n + 1);
      stop.(sent := t.sent + stop.sent)
  }

  ghost predicate IsTurn(t: Turned, e: Endpoint, next: nat, s: seq<Byte>, accept: bool) {
    t == Turn(e, next, s, accept)
  }

  /** t is the turn that comes next. */
  ghost predicate Describes(t: Turned, e: Endpoint, next: nat, s: seq<Byte>, accept: bool) {
    forall u {:trigger IsTurn(u, e, next, s, accept)} :: IsTurn(u, e, next, s, accept) ==> u == t
  }

  ghost predicate Ends(stop: Stop, e: Endpoint, next: nat, s: seq<Byte>, accepts: nat -> bool, n: nat) {
    stop == Process(e, next, s, accepts, n)
  }

  /** out has been sent, and however the loop ends from here, goal is how it ends in
      all. */
  ghost predicate Continues(
    goal: Stop, out: seq<Message>, e: Endpoint, next: nat, s: seq<Byte>, accepts: nat -> bool, n: nat)
  {
    forall stop {:trigger Ends(stop, e, next, s, accepts, n)} ::
      Ends(stop, e, next, s, accepts, n) ==> goal == stop.(sent := out + stop.sent)
  }

  lemma ContinuesStep(
    goal: Stop, out: seq<Message>, e: Endpoint, next: nat, s: seq<Byte>, accepts: nat -> bool, n: nat)
    returns (t: Turned)
    requires Continues(goal, out, e, next, s, accepts, n)
    ensures Describes(t, e, next, s, accepts(n))
    ensures match t.why
      case Some(why) => goal == Stop(t.e, next, out + t.sent, why)
      case None => |t.rest| < |s| && Continues(goal, out + t.sent, t.e, next + 1, t.rest, accepts, n + 1)
  {
    t := Turn(e, next, s, accepts(n));
    assert Ends(Process(e, next, s, accepts, n), e, next, s, accepts, n);
    if t.why == None {
      Shorter(s);
      Regroup(out, t.sent, Process(t.e, next + 1, t.rest, accepts, n + 1).sent);
    }
  }

  // ---- the object ----

  /** The table of objects is the model's table. */
  ghost predicate Linked(chans: seq<Option<Mux.Channel>>, table: seq<Option<nat>>, name: map<nat, Mux.Channel>) {
    && |chans| == |table|
    && forall i :: 0 <= i < |table| ==>
         match table[i]
         case None => chans[i] == None
         case Some(k) => k in name && chans[i] == Some(name[k])
  }

  lemma {:induction false} LinkedFreeSlot(
    chans: seq<Option<Mux.Channel>>, table: seq<Option<nat>>, name: map<nat, Mux.Channel>)
    requires Linked(chans, table, name)
    ensures FreeSlot(chans) == FreeSlot(table)
  {
    if table != [] && table[0].Some? { LinkedFreeSlot(chans[1..], table[1..], name); }
  }

  lemma {:induction false} LinkedListed(
    chans: seq<Option<Mux.Channel>>, table: seq<Option<nat>>, name: map<nat, Mux.Channel>)
    requires Linked(chans, table, name)
    ensures var chs, ks := Mux.Listed(chans), Mux.Listed(table);
      |chs| == |ks| && forall i :: 0 <= i < |ks| ==> ks[i] in name && chs[i] == name[ks[i]]
  {
    if table != [] {
      LinkedListed(chans[1..], table[1..], name);
      var chs, ks := Mux.Listed(chans[1..]), Mux.Listed(table[1..]);
      match table[0] {
        case None => assert Mux.Listed(chans) == chs && Mux.Listed(table) == ks;
        case Some(k) => assert Mux.Listed(chans) == [name[k]] + chs && Mux.Listed(table) == [k] + ks;
      }
    }
  }

  lemma LinkedPut(chans: seq<Option<Mux.Channel>>, table: seq<Option<nat>>, name: map<nat, Mux.Channel>,
                  k: nat, ch: Mux.Channel)
    requires Linked(chans, table, name) && k !in name
    ensures FreeSlot(chans) == FreeSlot(table)
    ensures Linked(Put(chans, FreeSlot(chans), Some(ch)), Put(table, FreeSlot(table), Some(k)), name[k := ch])
  {
    LinkedFreeSlot(chans, table, name);
  }

  /** The view with the new channel ch, called k. */
  ghost function Entered(v: View, k: nat, ch: Mux.Channel, o: Obj): View
    requires o.c.localId <= |v.model.table|
    reads ch
  {
    WithTable(Added(v, k, ch, o), Put(v.model.table, o.c.localId, Some(k)))
  }

  lemma EnteredIsFaithful(v: View, k: nat, ch: Mux.Channel, o: Obj)
    requires Faithful(v) && k !in v.name && ch.Valid() && ch.enc == v.enc && ch.Repr !! v.Repr
    requires o.c == ch.Value() && o.c.localId <= |v.model.table|
    ensures Faithful(Entered(v, k, ch, o)) && Entered(v, k, ch, o).model == Insert(v.model, k, o)
    ensures Entered(v, k, ch, o).name == v.name[k := ch] && Entered(v, k, ch, o).enc == v.enc
    ensures Entered(v, k, ch, o).Repr == v.Repr + ch.Repr
  {
    AddedIsFaithful(v, k, ch, o);
    TableDoesNotMatter(Added(v, k, ch, o), Put(v.model.table, o.c.localId, Some(k)));
  }

  /** onePacket, once the table has selected channel t. */
  function Selected(e: Endpoint, t: nat, m: Message): Outcome
    requires t in e.objs && !m.Open?
  {
    match Protocol.Handle(e.objs[t].c, m)
    case Accepted(_, out, drop) => Step(Without(HandledBy(e, t, m), m.channelID, drop), t, out)
    case Stalled(_, drop) => Hung(Without(HandledBy(e, t, m), m.channelID, drop), t)
    case Rejected(reason) => Broken(reason)
  }

  function Without(e: Endpoint, id: nat, drop: bool): Endpoint {
    if drop then e.(table := Remove(e.table, id)) else e
  }

  lemma ReceiveSelects(e: Endpoint, k: nat, m: Message, accept: bool, t: nat)
    requires !m.Open? && Get(e.table, m.channelID) == Some(t) && t in e.objs
    ensures Receive(e, k, m, accept) == Selected(e, t, m)
  {}

  class Session {
    const enc: Encoder
    const dec: Decoder
    const chans: Mux.ChanList<Mux.Channel>
    /** The endpoint that the session stands for, and the objects it is made of. */
    ghost var view: View
    ghost var next: nat

    ghost predicate Valid()
      reads this, chans, view.Repr
    {
      && view.enc == enc && this !in view.Repr && dec !in view.Repr && chans !in view.Repr
      && Faithful(view) && Linked(chans.chans, view.model.table, view.name)
      && forall k :: k in view.name ==> k < next
    }

    constructor (stream: seq<Byte>)
      ensures Valid() && view.model == START.e && next == START.next && enc.w == [] && dec.r == stream
      ensures fresh(enc) && fresh(dec) && fresh(chans) && fresh(view.Repr)
    {
      dec := new Decoder(stream);
      chans := new Mux.ChanList<Mux.Channel>();
      var e := new Encoder();
      enc, view, next := e, View(START.e, map[], {}, e), 0;
    }

    /** Valid, but for the object ch that newChannel has put into the table. */
    ghost predicate Owes(ch: Mux.Channel, before: seq<Option<Mux.Channel>>)
      reads this, chans, view.Repr, ch, ch.Repr
    {
      && view.enc == enc && this !in view.Repr && dec !in view.Repr && chans !in view.Repr
      && this !in ch.Repr && dec !in ch.Repr && chans !in ch.Repr
      && Faithful(view) && ch.Valid() && ch.enc == enc && ch.Repr !! view.Repr
      && Linked(before, view.model.table, view.name) && chans.chans == Put(before, FreeSlot(before), Some(ch))
      && forall k :: k in view.name ==> k < next
    }

    /** newChannel: the table's first free slot becomes the channel's id. */
    method NewChannel(direction: Direction) returns (ch: Mux.Channel)
      requires Valid()
      modifies chans
      ensures fresh(ch) && fresh(ch.Repr) && Owes(ch, old(chans.chans))
      ensures ch.Value() == NewChan(FreeSlot(old(chans.chans)), direction)
    {
      ch := new Mux.Channel(direction, enc);
      var id := chans.Add(ch);
      ch.localId := id;
    }

    /** Enters that object into the view. */
    ghost method Enter(ch: Mux.Channel, o: Obj, before: seq<Option<Mux.Channel>>)
      requires Owes(ch, before) && o.c == ch.Value() && o.c.localId == FreeSlot(before)
      modifies this
      ensures Valid() && next == old(next) + 1 && view.Repr == old(view.Repr) + ch.Repr
      ensures o.c.localId == FreeSlot(old(view.model).table)
      ensures view.model == Insert(old(view.model), old(next), o)
    {
      LinkedPut(before, view.model.table, view.name, next, ch);
      EnteredIsFaithful(view, next, ch, o);
      view, next := Entered(view, next, ch, o), next + 1;
    }

    /** session.Open up to the wait for an answer. */
    method Open()
      requires Valid()
      modifies this, chans, enc
      ensures Valid() && fresh(view.Repr - old(view.Repr)) && next == old(next) + 1
      ensures var r := StartOpen(old(view.model), old(next));
        view.model == r.e && enc.w == old(enc.w) + EncodeAll(r.out)
    {
      ghost var before := chans.chans;
      var ch := NewChannel(Outbound);
      var m := Message.Open(ch.localId, ch.myWindow, ch.maxIncomingPayload);
      Mux.EncodeOne(m);
      enc.Send(m);
      Enter(ch, NewObj(ch.Value(), false, [m]), before);
    }

    /** newChannel, and the settings that the Open message brings. */
    method NewInbound(m: Message) returns (ch: Mux.Channel)
      requires Valid() && m.Open? && WellFormed(m)
      modifies chans
      ensures fresh(ch) && fresh(ch.Repr) && Owes(ch, old(chans.chans))
      ensures ch.Value() == InboundChan(FreeSlot(old(chans.chans)), m)
    {
      ch := NewChannel(Inbound);
      Configure(ch, m);
    }

    method Reply(ch: Mux.Channel, m: Message, accept: bool, ghost before: seq<Option<Mux.Channel>>)
      returns (reply: Message)
      requires m.Open? && Owes(ch, before)
      modifies enc
      ensures Owes(ch, before) && ch.Value() == old(ch.Value())
      ensures reply == if accept then Confirmation(ch.Value()) else Message.OpenFailure(m.senderID)
      ensures enc.w == old(enc.w) + EncodeAll([reply])
    {
      reply :=
        if accept then Message.OpenConfirm(ch.remoteId, ch.localId, ch.myWindow, ch.maxIncomingPayload)
        else Message.OpenFailure(m.senderID);
      Mux.EncodeOne(reply);
      enc.Send(reply);
    }

    /** handleOpen, when the packet size is usable: the channel goes to Accept and is
        confirmed, or the timer fires and it is refused. */
    method Answer(m: Message, accept: bool)
      requires Valid() && m.Open? && WellFormed(m)
      modifies this, chans, enc
      ensures Valid() && fresh(view.Repr - old(view.Repr)) && next == old(next) + 1
      ensures var o := Answered(FreeSlot(old(view.model).table), m, accept);
        view.model == Insert(old(view.model), old(next), o) && enc.w == old(enc.w) + EncodeAll(o.sent)
    {
      ghost var before := chans.chans;
      var ch := NewInbound(m);
      var reply := Reply(ch, m, accept, before);
      Enter(ch, NewObj(ch.Value(), accept, [reply]), before);
    }

    /** A packet size outside 9 to 2^31 is answered by the five bytes of an OpenFailure,
        and nothing else happens. */
    method HandleOpen(m: Message, accept: bool)
      requires Valid() && m.Open? && WellFormed(m)
      modifies this, chans, enc
      ensures Valid() && fresh(view.Repr - old(view.Repr)) && next == old(next) + 1
      ensures !(9 <= m.maxPacketSize <= 0x8000_0000) ==>
        view.model == old(view.model) && enc.w == old(enc.w) + ([102] + Be32(m.senderID))
      ensures var r := Protocol.HandleOpen(old(view.model), old(next), m, accept);
        view.model == r.e && enc.w == old(enc.w) + EncodeAll(r.out)
    {
      if m.maxPacketSize < MIN_PACKET_LENGTH || m.maxPacketSize > MAX_PACKET_LENGTH {
        Mux.EncodeOne(Message.OpenFailure(m.senderID));
        EncodingLayout(Message.OpenFailure(m.senderID));
        enc.Send(Message.OpenFailure(m.senderID));
        next := next + 1;
        return;
      }
      Answer(m, accept);
    }

    /** A packet addressed to a channel: exactly the object that the id selects is
        changed, and it leaves the table when `handle` says so, even if the loop then
        waits on its queue. */
    method Dispatch(m: Message, ghost accept: bool) returns (r: Option<Failure>)
      requires Valid() && !m.Open? && WellFormed(m)
      modifies this, chans, enc, view.Repr
      ensures Valid() && fresh(view.Repr - old(view.Repr))
      ensures var o := Receive(old(view.model), old(next), m, accept);
        && view.model == Left(old(view.model), o) && r == FailureOf(o)
        && enc.w == old(enc.w) + EncodeAll(Sent(o))
      ensures next == old(next) + if r == None then 1 else 0
    {
      var found := chans.GetChan(m.channelID);
      if found == None {
        return Some(Refused(InvalidChannel));
      }
      ghost var t := view.model.table[m.channelID].value;
      ReceiveSelects(view.model, next, m, accept, t);
      r := Deliver(t, found.value, m);
      if r == None {
        next := next + 1;
      }
    }

    /** The same, once the table has selected the object. */
    method Deliver(ghost t: nat, ch: Mux.Channel, m: Message) returns (r: Option<Failure>)
      requires Valid() && WellFormed(m) && !m.Open? && t in view.name && view.name[t] == ch
      modifies this`view, chans, enc, view.Repr
      ensures Valid() && fresh(view.Repr - old(view.Repr)) && t in old(view.model).objs
      ensures var o := Selected(old(view.model), t, m);
        && view.model == Left(old(view.model), o) && r == FailureOf(o)
        && enc.w == old(enc.w) + EncodeAll(Sent(o))
    {
      var drop;
      r, drop := HandleSelected(t, ch, m);
      if drop {
        RemoveSelected(m.channelID);
      }
    }

    method HandleSelected(ghost t: nat, ch: Mux.Channel, m: Message) returns (r: Option<Failure>, drop: bool)
      requires Valid() && WellFormed(m) && t in view.name && view.name[t] == ch
      modifies this`view, enc, view.Repr
      ensures Valid() && fresh(view.Repr - old(view.Repr)) && view.name == old(view.name)
      ensures view.model == HandledBy(old(view.model), t, m)
      ensures t in old(view.model).objs && match Protocol.Handle(old(view.model).objs[t].c, m)
        case Accepted(_, out, d) => r == None && drop == d && enc.w == old(enc.w) + EncodeAll(out)
        case Stalled(_, d) => r == Some(Blocks) && drop == d && enc.w == old(enc.w)
        case Rejected(reason) => r == Some(Refused(reason)) && !drop && enc.w == old(enc.w)
    {
      assert Tied(view, t);
      var verdict;
      ghost var w;
      verdict, w := HandleAt(view, t, ch, m);
      view := w;
      match verdict
      case Fine(d) => return None, d;
      case Hangs(d) => return Some(Blocks), d;
      case Fault(reason) => return Some(Refused(reason)), false;
    }

    method RemoveSelected(id: nat)
      requires Valid()
      modifies this`view, chans
      ensures Valid() && view == WithTable(old(view), Remove(old(view.model).table, id))
    {
      chans.Delete(id);
      TableDoesNotMatter(view, Remove(view.model.table, id));
      view := WithTable(view, Remove(view.model.table, id));
    }

    method HandlePacket(m: Message, accept: bool) returns (r: Option<Failure>)
      requires Valid() && WellFormed(m)
      modifies this, chans, enc, view.Repr
      ensures Valid() && fresh(view.Repr - old(view.Repr))
      ensures var o := Receive(old(view.model), old(next), m, accept);
        && view.model == Left(old(view.model), o) && r == FailureOf(o)
        && enc.w == old(enc.w) + EncodeAll(Sent(o))
      ensures next == old(next) + if r == None then 1 else 0
    {
      if m.Open? {
        HandleOpen(m, accept);
        return None;
      }
      r := Dispatch(m, accept);
    }

    method OnePacket(accept: bool) returns (r: Option<Failure>)
      requires Valid()
      modifies this, chans, enc, dec, view.Repr
      ensures Valid() && fresh(view.Repr - old(view.Repr))
      ensures var t := Turn(old(view.model), old(next), old(dec.r), accept);
        && view.model == t.e && r == t.why && enc.w == old(enc.w) + EncodeAll(t.sent)
        && (Decode(old(dec.r)).Got? ==> dec.r == t.rest)
      ensures next == old(next) + if r == None then 1 else 0
    {
      ghost var s := dec.r;
      var d := dec.Next();
      if d.Failed? {
        return Some(Unreadable(d.error));
      }
      EncodeDecode(s);
      r := HandlePacket(d.msg, accept);
    }

    /** onePacket, with all that has been sent since w. */
    method Round(ghost t: Turned, ghost out: seq<Message>, ghost w: seq<Byte>, accept: bool)
      returns (r: Option<Failure>)
      requires Valid() && Describes(t, view.model, next, dec.r, accept) && enc.w == w + EncodeAll(out)
      modifies this, chans, enc, dec, view.Repr
      ensures Valid() && fresh(view.Repr - old(view.Repr))
      ensures view.model == t.e && r == t.why && enc.w == w + EncodeAll(out + t.sent)
      ensures next == old(next) + if r == None then 1 else 0
      ensures r == None ==> dec.r == t.rest
    {
      assert IsTurn(Turn(view.model, next, dec.r, accept), view.model, next, dec.r, accept);
      r := OnePacket(accept);
      SentMore(w, out, t.sent);
    }

    /** The first half of loop: packets until one fails. */
    method ReceiveAll(accepts: nat -> bool) returns (why: Failure)
      requires Valid()
      modifies this, chans, enc, dec, view.Repr
      ensures Valid() && fresh(view.Repr - old(view.Repr))
      ensures var stop := Process(old(view.model), old(next), old(dec.r), accepts, 0);
        && view.model == stop.e && next == stop.next && why == stop.why
        && enc.w == old(enc.w) + EncodeAll(stop.sent)
    {
      ghost var goal := Process(view.model, next, dec.r, accepts, 0);
      ghost var out: seq<Message> := [];
      var n := 0;
      while true
        invariant Valid() && fresh(view.Repr - old(view.Repr))
        invariant Continues(goal, out, view.model, next, dec.r, accepts, n)
        invariant enc.w == old(enc.w) + EncodeAll(out)
        decreases |dec.r|
      {
        ghost var t := ContinuesStep(goal, out, view.model, next, dec.r, accepts, n);
        var r := Round(t, out, old(enc.w), accepts(n));
        out := out + t.sent;
        if r != None {
          return r.value;
        }
        n := n + 1;
      }
    }

    method CloseObject(ghost k: nat, ch: Mux.Channel)
      requires Valid() && k in view.name && view.name[k] == ch
      modifies this`view, view.Repr
      ensures Valid() && view.Repr == old(view.Repr) && view.name == old(view.name)
      ensures view.model == old(view.model).(objs := CloseOne(old(view.model).objs, k))
    {
      assert Tied(view, k);
      ghost var o := view.model.objs[k];
      assert o.sent + [] == o.sent;
      ghost var w := TeardownAt(view, k, ch);
      view := w;
    }

    /** dropAll: the objects that were in the table, in slot order. */
    method DropTable() returns (dropped: seq<Mux.Channel>)
      requires Valid()
      modifies this`view, chans
      ensures Valid() && view == WithTable(old(view), [])
      ensures var ks := Mux.Listed(old(view.model).table);
        |dropped| == |ks| && forall i :: 0 <= i < |ks| ==> ks[i] in view.name && dropped[i] == view.name[ks[i]]
    {
      LinkedListed(chans.chans, view.model.table, view.name);
      dropped := chans.DropAll();
      TableDoesNotMatter(view, []);
      view := WithTable(view, []);
    }

    /** The second half of loop: dropAll, and close for every object dropped. */
    method Exit()
      requires Valid() && TableOk(view.model)
      modifies this, chans, view.Repr
      ensures Valid() && view.Repr == old(view.Repr) && view.model == Teardown(old(view.model))
    {
      ghost var e, ks := view.model, Mux.Listed(view.model.table);
      var dropped := DropTable();
      for i := 0 to |dropped|
        invariant Valid() && view.Repr == old(view.Repr) && view.name == old(view.name)
        invariant view.model == Endpoint([], CloseAll(e.objs, ks[..i]))
      {
        CloseAllSnoc(e.objs, ks, i);
        CloseObject(ks[i], dropped[i]);
      }
      assert ks[..|ks|] == ks;
      DroppedIsTeardown(e);
    }
  }

  /** What handleOpen copies from the Open message into the new channel. */
  method Configure(ch: Mux.Channel, m: Message)
    requires ch.Valid() && m.Open? && WellFormed(m) && ch.Value() == NewChan(ch.localId, Inbound)
    modifies ch.Repr
    ensures ch.Valid() && ch.Repr == old(ch.Repr) && ch.Value() == InboundChan(old(ch.localId), m)
  {
    assert Fields(m)[1] < U32;
    ch.remoteId := m.senderID;
    ch.maxRemotePayload := m.maxPacketSize;
    var _ := ch.remoteWin.Grow(m.windowSize);
    ch.maxIncomingPayload := CHANNEL_MAX_PACKET;
  }

  lemma SentMore(w: seq<Byte>, out: seq<Message>, more: seq<Message>)
    ensures w + EncodeAll(out + more) == w + EncodeAll(out) + EncodeAll(more)
  {
    Mux.EncodeAllAppend(out, more);
    Regroup(w, EncodeAll(out), EncodeAll(more));
  }

  lemma Regroup<T>(a: seq<T>, b: seq<T>, c: seq<T>)
    ensures a + (b + c) == a + b + c
  {}

  function CloseOne(objs: map<nat, Obj>, k: nat): map<nat, Obj> {
    if k in objs then objs[k := objs[k].(c := Closed(objs[k].c))] else objs
  }

  function CloseAll(objs: map<nat, Obj>, ks: seq<nat>): map<nat, Obj> {
    if ks == [] then objs else CloseOne(CloseAll(objs, ks[..|ks| - 1]), ks[|ks| - 1])
  }

  lemma CloseAllSnoc(objs: map<nat, Obj>, ks: seq<nat>, i: nat)
    requires i < |ks|
    ensures CloseAll(objs, ks[..i + 1]) == CloseOne(CloseAll(objs, ks[..i]), ks[i])
  {
    assert ks[..i + 1][..i] == ks[..i];
  }

  lemma {:induction false} CloseAllAt(objs: map<nat, Obj>, ks: seq<nat>, k: nat)
    ensures CloseAll(objs, ks).Keys == objs.Keys
    ensures k in objs ==> CloseAll(objs, ks)[k] == if k in ks then objs[k].(c := Closed(objs[k].c)) else objs[k]
  {
    if ks != [] {
      CloseAllAt(objs, ks[..|ks| - 1], k);
      assert ks == ks[..|ks| - 1] + [ks[|ks| - 1]];
    }
  }

  lemma ListedIsInTable(e: Endpoint, k: nat)
    requires TableOk(e) && k in e.objs
    ensures k in Mux.Listed(e.table) <==> InTable(e, k)
  {
    Mux.ListedMember(e.table, k);
    if Some(k) in e.table {
      var i :| 0 <= i < |e.table| && e.table[i] == Some(k);
    }
  }

  lemma DroppedIsTeardown(e: Endpoint)
    requires TableOk(e)
    ensures Endpoint([], CloseAll(e.objs, Mux.Listed(e.table))) == Teardown(e)
  {
    var all := CloseAll(e.objs, Mux.Listed(e.table));
    CloseAllAt(e.objs, Mux.Listed(e.table), 0);
    forall k | k in e.objs ensures all[k] == Teardown(e).objs[k] {
      CloseAllAt(e.objs, Mux.Listed(e.table), k);
      ListedIsInTable(e, k);
    }
  }

  // ---- any bytes at all ----

  /** FeedAll from a given state, first input first. */
  function FeedFrom(s: AnyPeer.Session, inputs: seq<Input>): AnyPeer.Session
    decreases |inputs|
  {
    if inputs == [] then s else FeedFrom(Feed(s, inputs[0]), inputs[1..])
  }

  lemma {:induction false} FeedFromSnoc(s: AnyPeer.Session, inputs: seq<Input>, i: Input)
    ensures FeedFrom(s, inputs + [i]) == Feed(FeedFrom(s, inputs), i)
    decreases |inputs|
  {
    var all := inputs + [i];
    if inputs == [] {
      assert all[1..] == [];
    } else {
      assert all[0] == inputs[0] && all[1..] == inputs[1..] + [i];
      FeedFromSnoc(Feed(s, inputs[0]), inputs[1..], i);
    }
  }

  lemma {:induction false} FeedFromAppend(s: AnyPeer.Session, before: seq<Input>, after: seq<Input>)
    ensures FeedFrom(s, before + after) == FeedFrom(FeedFrom(s, before), after)
    decreases |before|
  {
    if before == [] {
      assert before + after == after;
    } else {
      assert (before + after)[0] == before[0] && (before + after)[1..] == before[1..] + after;
      FeedFromAppend(Feed(s, before[0]), before[1..], after);
    }
  }

  lemma {:induction false} FeedFromStart(inputs: seq<Input>)
    ensures FeedFrom(START, inputs) == FeedAll(inputs)
  {
    if inputs != [] {
      var before, last := inputs[..|inputs| - 1], inputs[|inputs| - 1];
      FeedFromStart(before);
      FeedFromSnoc(START, before, last);
      assert inputs == before + [last];
      FeedAllLast(before, last);
    }
  }

  lemma FeedAllLast(before: seq<Input>, last: Input)
    ensures FeedAll(before + [last]) == Feed(FeedAll(before), last)
  {
    assert (before + [last])[..|before|] == before;
  }

  /** The packets that the loop handles from s: all but one that is refused. */
  function Arrivals(e: Endpoint, next: nat, s: seq<Byte>, accepts: nat -> bool, n: nat): seq<Input>
    decreases |s|
  {
    match Decode(s)
    case Failed(_) => []
    case Got(m, rest) =>
      match Receive(e, next, m, accepts(n))
      case Step(e', _, _) =>
        Shorter(s);
        [Incoming(m, accepts(n))] + Arrivals(e', next + 1, rest, accepts, n + 1)
      case Hung(_, _) => [Incoming(m, accepts(n))]
      case _ => []
  }

  lemma FeedPacket(r: AnyPeer.Session, m: Message, accept: bool)
    requires r.Running? && (Receive(r.e, r.next, m, accept).Step? || Receive(r.e, r.next, m, accept).Hung?)
    ensures var o, t := Receive(r.e, r.next, m, accept), Feed(r, Incoming(m, accept));
      t.e == o.e && if o.Step? then t.Running? && t.next == r.next + 1 else t.Wedged? && t.next == r.next
  {}

  lemma FeedFromCons(r: AnyPeer.Session, i: Input, more: seq<Input>)
    ensures FeedFrom(r, [i] + more) == FeedFrom(Feed(r, i), more)
  {
    assert ([i] + more)[1..] == more;
  }

  lemma DecodableCons(i: Input, more: seq<Input>)
    requires Decodable(more) && (i.Incoming? ==> WellFormed(i.m))
    ensures Decodable([i] + more)
  {}

  /** The log takes r to where the loop stops. */
  ghost predicate LeadsTo(r: AnyPeer.Session, log: seq<Input>, stop: Stop) {
    var t := FeedFrom(r, log);
    Decodable(log) && t.e == stop.e && t.next == stop.next && if stop.why.Blocks? then t.Wedged? else t.Running?
  }

  lemma LeadsToCons(r: AnyPeer.Session, m: Message, accept: bool, more: seq<Input>, stop: Stop, sent: seq<Message>)
    requires r.Running? && WellFormed(m)
    requires LeadsTo(Feed(r, Incoming(m, accept)), more, stop)
    ensures LeadsTo(r, [Incoming(m, accept)] + more, stop.(sent := sent))
  {
    FeedFromCons(r, Incoming(m, accept), more);
    DecodableCons(Incoming(m, accept), more);
  }

  ghost predicate Tracks(r: AnyPeer.Session, s: seq<Byte>, accepts: nat -> bool, n: nat) {
    LeadsTo(r, Arrivals(r.e, r.next, s, accepts, n), Process(r.e, r.next, s, accepts, n))
  }

  lemma TracksStop(r: AnyPeer.Session, s: seq<Byte>, accepts: nat -> bool, n: nat)
    requires r.Running? && Turn(r.e, r.next, s, accepts(n)).why.Some?
    ensures Tracks(r, s, accepts, n)
  {
    if Decode(s).Got? && Receive(r.e, r.next, Decode(s).msg, accepts(n)).Hung? {
      var m := Decode(s).msg;
      EncodeDecode(s);
      FeedPacket(r, m, accepts(n));
      var stop := Process(r.e, r.next, s, accepts, n);
      LeadsToCons(r, m, accepts(n), [], stop, stop.sent);
      assert [Incoming(m, accepts(n))] + [] == [Incoming(m, accepts(n))];
    } else {
      ReceiveIsNotIdle(r.e, r.next, s, accepts(n));
    }
  }

  /** A packet is handled, refused, or waited on. */
  lemma ReceiveIsNotIdle(e: Endpoint, next: nat, s: seq<Byte>, accept: bool)
    ensures Decode(s).Got? ==> !Receive(e, next, Decode(s).msg, accept).Idle?
  {}

  lemma NextTurn(e: Endpoint, next: nat, s: seq<Byte>, accepts: nat -> bool, n: nat)
    requires Decode(s).Got? && Receive(e, next, Decode(s).msg, accepts(n)).Step?
    ensures var m, e', rest := Decode(s).msg, Receive(e, next, Decode(s).msg, accepts(n)).e, Decode(s).rest;
      && WellFormed(m)
      && Arrivals(e, next, s, accepts, n)
         == [Incoming(m, accepts(n))] + Arrivals(e', next + 1, rest, accepts, n + 1)
      && Process(e, next, s, accepts, n)
         == Process(e', next + 1, rest, accepts, n + 1).(sent := Process(e, next, s, accepts, n).sent)
  {
    Shorter(s);
    EncodeDecode(s);
  }

  lemma TracksStep(r: AnyPeer.Session, s: seq<Byte>, accepts: nat -> bool, n: nat)
    requires r.Running? && Decode(s).Got? && Receive(r.e, r.next, Decode(s).msg, accepts(n)).Step?
    requires Tracks(Feed(r, Incoming(Decode(s).msg, accepts(n))), Decode(s).rest, accepts, n + 1)
    ensures Tracks(r, s, accepts, n)
  {
    var m, a := Decode(s).msg, accepts(n);
    NextTurn(r.e, r.next, s, accepts, n);
    FeedPacket(r, m, a);
    var t := Feed(r, Incoming(m, a));
    LeadsToCons(r, m, a, Arrivals(t.e, t.next, Decode(s).rest, accepts, n + 1),
                Process(t.e, t.next, Decode(s).rest, accepts, n + 1), Process(r.e, r.next, s, accepts, n).sent);
  }

  lemma {:induction false} ProcessIsRun(r: AnyPeer.Session, s: seq<Byte>, accepts: nat -> bool, n: nat)
    requires r.Running?
    ensures Tracks(r, s, accepts, n)
    decreases |s|
  {
    if Decode(s).Got? && Receive(r.e, r.next, Decode(s).msg, accepts(n)).Step? {
      Shorter(s);
      FeedPacket(r, Decode(s).msg, accepts(n));
      ProcessIsRun(Feed(r, Incoming(Decode(s).msg, accepts(n))), Decode(s).rest, accepts, n + 1);
      TracksStep(r, s, accepts, n);
    } else {
      TracksStop(r, s, accepts, n);
    }
  }

  /** Whatever bytes the peer sends, and whatever the application has done before,
      the endpoint that the loop leaves behind, when it waits, when it has failed and
      after its exit, is one that module AnyPeer speaks about. */
  lemma AnyBytesAreARun(inputs: seq<Input>, s: seq<Byte>, accepts: nat -> bool, n: nat)
    requires Decodable(inputs) && FeedAll(inputs).Running?
    ensures var r := FeedAll(inputs);
      var stop, log := Process(r.e, r.next, s, accepts, n), inputs + Arrivals(r.e, r.next, s, accepts, n);
      && Decodable(log) && FeedAll(log).e == stop.e && TableOk(stop.e)
      && (stop.why.Blocks? <==> FeedAll(log).Wedged?)
      && (!stop.why.Blocks? ==>
            Decodable(log + [Lost]) && FeedAll(log + [Lost]).Ended? && FeedAll(log + [Lost]).e == Teardown(stop.e))
  {
    var r := FeedAll(inputs);
    var more := Arrivals(r.e, r.next, s, accepts, n);
    ProcessIsRun(r, s, accepts, n);
    FeedFromStart(inputs);
    FeedFromAppend(START, inputs, more);
    FeedFromStart(inputs + more);
    AlwaysOk(inputs + more);
    assert (inputs + more + [Lost])[..|inputs + more|] == inputs + more;
  }
}
