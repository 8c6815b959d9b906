/** When the receive loop blocks on the `msg` queue of a channel, and when it goes on
    (mux/channel.go:217-236): answers to an Open are queued there, and only the Open
    takes them, once. */
module Flooding {
  import opened Wire
  import opened Protocol
  import opened AnyPeer

  /** i is an answer to the Open of channel k, and the loop takes it in. */
  function AnswersNow(s: Session, i: Input, k: nat): nat {
    if i.Incoming? && s.Running? && (i.m.OpenConfirm? || i.m.OpenFailure?) then
      match Receive(s.e, s.next, i.m, i.accept)
      case Step(_, j, _) => if j == k then 1 else 0
      case Hung(_, j) => if j == k then 1 else 0
      case _ => 0
    else 0
  }

  /** i is the return of channel k's Open. */
  function ReturnsNow(s: Session, i: Input, k: nat): nat {
    if i.Call? && i.k == k && i.op.OpenReturn? && Local(s.e, k, i.op).Step? then 1 else 0
  }

  function Answers(inputs: seq<Input>, k: nat): nat {
    if inputs == [] then 0
    else
      var before := inputs[..|inputs| - 1];
      Answers(before, k) + AnswersNow(FeedAll(before), inputs[|inputs| - 1], k)
  }

  function Returned(inputs: seq<Input>, k: nat): nat {
    if inputs == [] then 0
    else
      var before := inputs[..|inputs| - 1];
      Returned(before, k) + ReturnsNow(FeedAll(before), inputs[|inputs| - 1], k)
  }

  /** The answers that channel k's Open has not yet taken: queued, or in the hands
      of the waiting loop. */
  function Untaken(s: Session, k: nat): nat {
    (if k in s.e.objs then |s.e.objs[k].c.msg| else 0) + if s.Wedged? && s.k == k then 1 else 0
  }

  lemma HandleCounts(c: Chan, m: Message)
    ensures match Handle(c, m)
      case Accepted(c', _, _) => |c'.msg| == |c.msg| + if m.OpenConfirm? || m.OpenFailure? then 1 else 0
      case Stalled(c', _) => c'.msg == c.msg && (m.OpenConfirm? || m.OpenFailure?)
      case Rejected(_) => true
  {}

  lemma DoCounts(o: Obj, op: Op)
    requires Do(o, op).Moved?
    ensures |Do(o, op).o.c.msg| == |o.c.msg| - if op.OpenReturn? then 1 else 0
  {
    if !op.OpenReturn? { CallKeepsQueue(o, op); }
  }

  /** What of the invariant the counting needs. */
  ghost predicate Countable(s: Session) {
    s.next !in s.e.objs && (s.Wedged? ==> s.k in s.e.objs && |s.e.objs[s.k].c.msg| == CHAN_SIZE)
  }

  lemma CallCounts(s: Session, j: nat, op: Op, k: nat)
    requires Countable(s)
    ensures var i := Call(j, op);
      Untaken(Feed(s, i), k) + ReturnsNow(s, i, k) == Untaken(s, k) + AnswersNow(s, i, k)
  {
    if j in s.e.objs && Do(s.e.objs[j], op).Moved? { DoCounts(s.e.objs[j], op); }
  }

  lemma PacketCounts(s: Session, m: Message, accept: bool, k: nat)
    requires Countable(s) && s.Running?
    ensures var i := Incoming(m, accept);
      Untaken(Feed(s, i), k) + ReturnsNow(s, i, k) == Untaken(s, k) + AnswersNow(s, i, k)
  {
    if !m.Open? && Get(s.e.table, m.channelID).Some? && Get(s.e.table, m.channelID).value in s.e.objs {
      HandleCounts(s.e.objs[Get(s.e.table, m.channelID).value].c, m);
    }
  }

  lemma FeedCounts(s: Session, i: Input, k: nat)
    requires Countable(s)
    ensures Untaken(Feed(s, i), k) + ReturnsNow(s, i, k) == Untaken(s, k) + AnswersNow(s, i, k)
  {
    match i {
      case Call(j, op) => CallCounts(s, j, op, k);
      case Incoming(m, accept) => if s.Running? { PacketCounts(s, m, accept, k); }
      case Opening =>
      case Lost =>
    }
  }

  lemma {:induction false} AnswersAreCounted(inputs: seq<Input>, k: nat)
    requires Decodable(inputs)
    ensures Untaken(FeedAll(inputs), k) + Returned(inputs, k) == Answers(inputs, k)
  {
    if inputs != [] {
      var before := inputs[..|inputs| - 1];
      AnswersAreCounted(before, k);
      AlwaysOk(before);
      FeedCounts(FeedAll(before), inputs[|inputs| - 1], k);
    }
  }

  /** The receive loop waits on a full queue if and only if the peer's answers to some
      Open outnumber its returns by more than the queue holds; so a peer that answers
      each Open once never blocks it. */
  lemma WedgedIffFlooded(inputs: seq<Input>)
    requires Decodable(inputs)
    ensures FeedAll(inputs).Wedged? <==> exists k :: Answers(inputs, k) > Returned(inputs, k) + 16
  {
    AlwaysOk(inputs);
    var s := FeedAll(inputs);
    if s.Wedged? {
      AnswersAreCounted(inputs, s.k);
      assert Answers(inputs, s.k) > Returned(inputs, s.k) + CHAN_SIZE;
    }
    if k :| Answers(inputs, k) > Returned(inputs, k) + CHAN_SIZE {
      AnswersAreCounted(inputs, k);
      if k in s.e.objs { assert ObjOk(s.e.objs[k], InTable(s.e, k), k in s.struck); }
    }
  }

  /** An Open, and n answers to it. */
  function Flood(n: nat): (inputs: seq<Input>)
    ensures Decodable(inputs)
  {
    if n == 0 then [Opening] else Flood(n - 1) + [Incoming(ANSWER, true)]
  }

  ghost predicate Holding(s: Session, n: nat) {
    && s.Running? && s.e.table == [Some(0)] && 0 in s.e.objs
    && s.e.objs[0].c.direction == Outbound && |s.e.objs[0].c.msg| == n
  }

  lemma FloodMore(s: Session, n: nat)
    requires Holding(s, n) && n <= CHAN_SIZE
    ensures var t := Feed(s, Incoming(ANSWER, true));
      if n < CHAN_SIZE then Holding(t, n + 1) else t.Wedged? && t.k == 0
  {
    var h := Handle(s.e.objs[0].c, ANSWER);
    HandleCounts(s.e.objs[0].c, ANSWER);
    assert Get(s.e.table, 0) == Some(0);
  }

  lemma {:induction false} FloodFills(n: nat)
    requires n <= CHAN_SIZE
    ensures Holding(FeedAll(Flood(n)), n)
  {
    if n == 0 {
      assert [Opening][..0] == [];
    } else {
      FloodFills(n - 1);
      assert Flood(n)[..|Flood(n)| - 1] == Flood(n - 1);
      FloodMore(FeedAll(Flood(n - 1)), n - 1);
    }
  }

  /** Seventeen answers do it. */
  lemma FloodBlocksTheLoop()
    ensures FeedAll(Flood(17)).Wedged?
  {
    FloodFills(CHAN_SIZE);
    assert Flood(CHAN_SIZE + 1)[..|Flood(CHAN_SIZE + 1)| - 1] == Flood(CHAN_SIZE);
    FloodMore(FeedAll(Flood(CHAN_SIZE)), CHAN_SIZE);
  }

  // ---- when it goes on ----

  /** When a loop that waits on a full queue goes on: exactly when the Open that the
      queue belongs to has not yet taken its answer and does so now. */
  lemma WedgedUntilOpenReturns(inputs: seq<Input>, k: nat, op: Op)
    requires Decodable(inputs) && FeedAll(inputs).Wedged?
    ensures var s := FeedAll(inputs);
      && s.k in s.e.objs
      && (Feed(s, Call(k, op)).Running? <==>
            k == s.k && op.OpenReturn? && !s.e.objs[k].owned && !s.e.objs[k].abandoned)
  {
    AlwaysOk(inputs);
    var s := FeedAll(inputs);
    if k in s.e.objs && Do(s.e.objs[k], op).Moved? {
      WedgedCall(s, k, op);
      if k == s.k { CallOnFull(s.e.objs[k], op); }
    }
  }
}
