/** What the receive loop makes of a byte stream, said without the loop: which packets
    it takes, what it sends of its own accord, and why it stops (mux/session.go:138-196). */
module LoopLaws {
  import opened Wire
  import opened Protocol
  import opened AnyPeer
  import opened Handshake
  import opened SessionLoop

  /** Of its own accord a session answers each Open once, and a Close for a channel that
      has not sent its own; nothing else makes it send. */
  ghost function ReplyTo(s: AnyPeer.Session, i: Input): seq<Message> {
    if !s.Running? || !i.Incoming? then []
    else if i.m.Open? then
      [if i.accept && 9 <= i.m.maxPacketSize <= 0x8000_0000
       then Message.OpenConfirm(i.m.senderID, FreeSlot(s.e.table), 0x4000_0000, 0x100_0000)
       else Message.OpenFailure(i.m.senderID)]
    else if i.m.Close? && Get(s.e.table, i.m.channelID).Some? then CloseReply(s.e, Get(s.e.table, i.m.channelID).value)
    else []
  }

  function CloseReply(e: Endpoint, k: nat): seq<Message> {
    if k in e.objs && !e.objs[k].c.sentClose then [Message.Close(e.objs[k].c.remoteId)] else []
  }

  ghost function RepliesTo(s: AnyPeer.Session, inputs: seq<Input>): seq<Message>
    decreases |inputs|
  {
    if inputs == [] then [] else ReplyTo(s, inputs[0]) + RepliesTo(Feed(s, inputs[0]), inputs[1..])
  }

  function Messages(inputs: seq<Input>): seq<Message> {
    if inputs == [] then []
    else (if inputs[0].Incoming? then [inputs[0].m] else []) + Messages(inputs[1..])
  }

  lemma OneReply(s: AnyPeer.Session, m: Message, accept: bool)
    requires s.Running?
    ensures Sent(Receive(s.e, s.next, m, accept)) == ReplyTo(s, Incoming(m, accept))
       || Receive(s.e, s.next, m, accept).Broken?
  {}

  /** The loop's log and its end, from its input alone: the packets taken are the front
      of the stream, in order and without a gap; what was sent are the replies to them;
      and the loop stops where the next packet cannot be decoded or is refused. */
  ghost predicate Explains(
    r: AnyPeer.Session, s: seq<Byte>, accepts: nat -> bool, n: nat, log: seq<Input>, stop: Stop)
  {
    var taken := EncodeAll(Messages(log));
    && stop.sent == RepliesTo(r, log) && taken <= s
    && match stop.why
       case Unreadable(error) => Decode(s[|taken|..]) == Failed(error)
       case Refused(reason) => RefusedNext(stop.e, stop.next, s[|taken|..], accepts(n + |log|), reason)
       case Blocks => log != []
  }

  ghost predicate RefusedNext(e: Endpoint, next: nat, s: seq<Byte>, accept: bool, reason: Reason) {
    Decode(s).Got? && Receive(e, next, Decode(s).msg, accept) == Broken(reason)
  }

  ghost predicate Explained(r: AnyPeer.Session, s: seq<Byte>, accepts: nat -> bool, n: nat) {
    Explains(r, s, accepts, n, Arrivals(r.e, r.next, s, accepts, n), Process(r.e, r.next, s, accepts, n))
  }

  lemma ExplainsStop(r: AnyPeer.Session, s: seq<Byte>, accepts: nat -> bool, n: nat)
    requires r.Running? && Turn(r.e, r.next, s, accepts(n)).why.Some?
    ensures Explained(r, s, accepts, n)
  {
    ReceiveIsNotIdle(r.e, r.next, s, accepts(n));
    if Decode(s).Got? {
      EncodeDecode(s);
      var m := Decode(s).msg;
      var i := Incoming(m, accepts(n));
      assert [i][1..] == [];
      assert EncodeAll([m]) == Encode(m) by { assert [m][1..] == []; }
      OneReply(r, m, accepts(n));
    }
  }

  lemma RepliesCons(r: AnyPeer.Session, i: Input, log: seq<Input>)
    ensures RepliesTo(r, [i] + log) == ReplyTo(r, i) + RepliesTo(Feed(r, i), log)
  {
    assert ([i] + log)[1..] == log;
  }

  lemma TakenCons(m: Message, accept: bool, log: seq<Input>)
    ensures EncodeAll(Messages([Incoming(m, accept)] + log)) == Encode(m) + EncodeAll(Messages(log))
  {
    assert ([Incoming(m, accept)] + log)[1..] == log;
    assert ([m] + Messages(log))[1..] == Messages(log);
  }

  lemma Skip(a: seq<Byte>, b: seq<Byte>, rest: seq<Byte>)
    requires b <= rest
    ensures a + b <= a + rest && (a + rest)[|a + b|..] == rest[|b|..]
  {}

  lemma ExplainsCons(
    r: AnyPeer.Session, s: seq<Byte>, accepts: nat -> bool, n: nat, log: seq<Input>, stop: Stop, i: Input,
    rest: seq<Byte>, whole: Stop)
    requires i.Incoming? && s == Encode(i.m) + rest
    requires Explains(Feed(r, i), rest, accepts, n + 1, log, stop)
    requires whole == stop.(sent := ReplyTo(r, i) + stop.sent)
    ensures Explains(r, s, accepts, n, [i] + log, whole)
  {
    RepliesCons(r, i, log);
    TakenCons(i.m, i.accept, log);
    Skip(Encode(i.m), EncodeAll(Messages(log)), rest);
    assert n + |[i] + log| == n + 1 + |log|;
  }

  lemma TurnSends(e: Endpoint, next: nat, s: seq<Byte>, accepts: nat -> bool, n: nat)
    requires Decode(s).Got? && Receive(e, next, Decode(s).msg, accepts(n)).Step?
    ensures var o := Receive(e, next, Decode(s).msg, accepts(n));
      Process(e, next, s, accepts, n).sent == o.out + Process(o.e, next + 1, Decode(s).rest, accepts, n + 1).sent
  {
    Shorter(s);
  }

  lemma ExplainedStep(r: AnyPeer.Session, s: seq<Byte>, accepts: nat -> bool, n: nat, i: Input)
    requires r.Running? && Decode(s).Got? && i == Incoming(Decode(s).msg, accepts(n))
    requires Receive(r.e, r.next, i.m, i.accept).Step?
    requires Explained(Feed(r, i), Decode(s).rest, accepts, n + 1)
    ensures Explained(r, s, accepts, n)
  {
    var t, rest := Feed(r, i), Decode(s).rest;
    NextTurn(r.e, r.next, s, accepts, n);
    TurnSends(r.e, r.next, s, accepts, n);
    FeedPacket(r, i.m, i.accept);
    OneReply(r, i.m, i.accept);
    EncodeDecode(s);
    ExplainsCons(r, s, accepts, n, Arrivals(t.e, t.next, rest, accepts, n + 1),
                 Process(t.e, t.next, rest, accepts, n + 1), i, rest, Process(r.e, r.next, s, accepts, n));
  }

  /** Whatever the bytes, and whatever was done before. */
  lemma {:induction false} LoopExplained(r: AnyPeer.Session, s: seq<Byte>, accepts: nat -> bool, n: nat)
    requires r.Running?
    ensures Explained(r, s, accepts, n)
    decreases |s|
  {
    if Decode(s).Got? && Receive(r.e, r.next, Decode(s).msg, accepts(n)).Step? {
      var i := Incoming(Decode(s).msg, accepts(n));
      Shorter(s);
      FeedPacket(r, i.m, i.accept);
      LoopExplained(Feed(r, i), Decode(s).rest, accepts, n + 1);
      ExplainedStep(r, s, accepts, n, i);
    } else {
      ReceiveIsNotIdle(r.e, r.next, s, accepts(n));
      ExplainsStop(r, s, accepts, n);
    }
  }
}
