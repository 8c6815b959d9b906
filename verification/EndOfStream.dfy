/** What the end of a stream means. Write tests sentEOF once, before its loop, so a
    CloseWrite that falls inside a Write lets data out behind the end-of-stream mark.
    This module says when a reader that has seen the end has seen everything. */
module EndOfStream {
  import opened Wire
  import opened Window
  import opened Protocol
  import opened Link
  import opened System
  import opened Guarantees
  import opened Progress

  // ---- runs in which no CloseWrite falls inside a Write ----

  predicate InsideWrite(o: Obj) {
    o.writers > 0 || o.inHand.Some?
  }

  ghost predicate TidyEvent(s: State, e: Event) {
    var t := View(s, e.atA);
    e.action.Call? && e.action.op.CloseWrite? && e.action.k in t.a.objs ==> !InsideWrite(t.a.objs[e.action.k])
  }

  ghost predicate Tidy(s: State, run: seq<Event>) {
    run == [] ||
    (Tidy(s, run[..|run| - 1])
     && match Exec(s, run[..|run| - 1])
        case Next(t) => TidyEvent(t, run[|run| - 1])
        case _ => true)
  }

  /** Once o has ended its stream, it writes no more. */
  ghost predicate Ended(o: Obj) {
    && (o.c.sentEOF ==> !InsideWrite(o) && o.eofAt == Some(|o.written|))
    && (!o.c.sentEOF ==> o.eofAt == None)
  }

  ghost predicate AllEnded(e: Endpoint) {
    forall k {:trigger Ended(e.objs[k])} :: k in e.objs ==> Ended(e.objs[k])
  }

  lemma CallKeepsEnded(o: Obj, op: Op)
    requires Ended(o) && Do(o, op).Moved? && (op.CloseWrite? ==> !InsideWrite(o))
    ensures Ended(Do(o, op).o)
  {}

  lemma HandleKeepsEnded(o: Obj, m: Message)
    requires Ended(o) && Handle(o.c, m).Accepted?
    ensures var h := Handle(o.c, m); Ended(o.(c := h.c, sent := o.sent + h.out))
  {}

  lemma StepKeepsEnded(s: State, action: Action)
    requires AllEnded(s.a) && TidyEvent(s, Event(true, action)) && ActA(s, action).Next?
    ensures AllEnded(ActA(s, action).s.a) && ActA(s, action).s.b == s.b
  {
    var t := ActA(s, action).s;
    forall k | k in t.a.objs ensures Ended(t.a.objs[k]) {
      if k in s.a.objs && t.a.objs[k] == s.a.objs[k] {
        assert Ended(s.a.objs[k]);
      } else {
        match action {
          case StartOpening =>
          case Call(j, op) => CallKeepsEnded(s.a.objs[j], op);
          case Deliver(accept) =>
            if !s.ba[0].msg.Open? { HandleKeepsEnded(s.a.objs[k], s.ba[0].msg); }
        }
      }
    }
  }

  lemma {:induction false} TidyRunsEnd(s: State, run: seq<Event>)
    requires AllEnded(s.a) && AllEnded(s.b) && Tidy(s, run) && Exec(s, run).Next?
    ensures AllEnded(Exec(s, run).s.a) && AllEnded(Exec(s, run).s.b)
  {
    if run != [] {
      var before, last := run[..|run| - 1], run[|run| - 1];
      TidyRunsEnd(s, before);
      var t := Exec(s, before).s;
      if Act(t, last) != Disabled { StepKeepsEnded(View(t, last.atA), last.action); }
    }
  }

  /** If no CloseWrite falls inside a Write on the same channel, a reader that sees
      the end of the stream has read everything that was ever written. */
  lemma TidyStreamsAreComplete(run: seq<Event>, s: State, k: nat)
    requires Reached(run, s) && Tidy(Init, run) && Established(s, k) && AtEnd(s.b.objs[k])
    ensures s.b.objs[k].read == s.a.objs[k].written
  {
    EndOfStreamMeansComplete(run, s, k);
    TidyRunsEnd(Init, run);
    assert Ended(s.a.objs[k]);
  }

  // ---- data behind the end ----

  /** b does nothing but take what arrives and read channel k. */
  ghost predicate Reads(e: Event, k: nat) {
    && !e.atA
    && match e.action
       case Deliver(accept) => true
       case Call(j, op) => j == k && (op.OpenReturn? || op.Read?)
       case StartOpening => false
  }

  lemma {:induction false} ReadingLeavesA(s: State, run: seq<Event>, k: nat)
    requires Inv(s) && forall i :: 0 <= i < |run| ==> Reads(run[i], k)
    ensures Exec(s, run).Next? && Inv(Exec(s, run).s) && Exec(s, run).s.a == s.a
  {
    if run != [] {
      var before, last := run[..|run| - 1], run[|run| - 1];
      ReadingLeavesA(s, before, k);
      assert Reads(last, k);
      var t := Exec(s, before).s;
      if Act(t, last) != Disabled { StepKeepsInv(t, last); }
    }
  }

  /** b's reader sees the end of the stream although something was written that it
      has not read. */
  ghost predicate Misses(s: State, run: seq<Event>, k: nat) {
    && (forall i :: 0 <= i < |run| ==> Reads(run[i], k))
    && Exec(s, run).Next?
    && var t := Exec(s, run).s;
    && k in t.a.objs && k in t.b.objs && t.b.objs[k].owned && AtEnd(t.b.objs[k])
    && t.b.objs[k].read != t.a.objs[k].written
  }

  lemma Joins(s: State, run: seq<Event>, more: seq<Event>, k: nat)
    requires Exec(s, run).Next? && (forall i :: 0 <= i < |run| ==> Reads(run[i], k))
    requires Misses(Exec(s, run).s, more, k)
    ensures Misses(s, run + more, k)
  {
    ExecConcat(s, run, more);
  }

  lemma InFlightIsUnread(s: State, k: nat)
    requires Inv(s) && Established(s, k) && Bytes(Proj(s.ab, k)) != []
    ensures s.b.objs[k].read != s.a.objs[k].written
  {
    EstablishedIsLinked(s, k);
    assert |s.a.objs[k].written| > |s.b.objs[k].read|;
  }

  /** The mark has arrived and some data has not; b reads what it has. */
  lemma ReaderMisses(s: State, k: nat) returns (run: seq<Event>)
    requires Inv(s) && Established(s, k) && s.b.objs[k].owned && s.b.objs[k].c.pendingClosed
    requires Bytes(Proj(s.ab, k)) != []
    ensures Misses(s, run, k)
  {
    var y := s.b.objs[k];
    if y.c.pending == [] {
      run := [];
      InFlightIsUnread(s, k);
    } else {
      var op := Read(|y.c.pending|);
      var t := CallByPeer(s, k, op);
      run := [Event(false, Call(k, op))];
      InFlightIsUnread(t, k);
    }
  }

  /** The same before b's Open has returned. */
  lemma TakerMisses(s: State, k: nat) returns (run: seq<Event>)
    requires Inv(s) && Established(s, k) && !s.b.objs[k].abandoned && s.b.objs[k].c.pendingClosed
    requires Bytes(Proj(s.ab, k)) != [] && !HasConfirm(Proj(s.ab, k))
    ensures Misses(s, run, k)
  {
    EstablishedIsLinked(s, k);
    if s.b.objs[k].owned {
      run := ReaderMisses(s, k);
    } else {
      var e := Event(false, Call(k, OpenReturn));
      ConfirmedReturns(s, k);
      var t := CallByPeer(s, k, OpenReturn);
      var rest := ReaderMisses(t, k);
      run := [e] + rest;
      Joins(s, [e], rest, k);
    }
  }

  predicate HasConfirm(q: seq<Message>) {
    q != [] && q[0].OpenConfirm?
  }

  lemma ConfirmedReturns(s: State, k: nat)
    requires Inv(s) && Established(s, k) && !s.b.objs[k].abandoned && !s.b.objs[k].owned
    requires !HasConfirm(Proj(s.ab, k)) && s.b.objs[k].c.pendingClosed
    ensures Do(s.b.objs[k], OpenReturn).Moved? && Do(s.b.objs[k], OpenReturn).o.owned
    ensures Do(s.b.objs[k], OpenReturn).o.c.pendingClosed
  {
    EstablishedIsLinked(s, k);
  }

  /** a's call has put the data frame m at the end of the link. */
  lemma LateDataIsMissed(s: State, k: nat, op: Op) returns (run: seq<Event>)
    requires Inv(s) && Established(s, k) && !s.b.objs[k].abandoned
    requires SendsData(s.a.objs[k], op) && !s.a.objs[k].c.sentClose && s.a.objs[k].c.sentEOF
    requires Do(s.a.objs[k], op).out[0].data != []
    ensures Act(s, Event(true, Call(k, op))).Next? && Misses(Act(s, Event(true, Call(k, op))).s, run, k)
  {
    var e, m := Event(true, Call(k, op)), Do(s.a.objs[k], op).out[0];
    StepKeepsInv(s, e);
    var u := Act(s, e).s;
    OneFrame(s, k, op);
    var first := Repeat(Event(false, Deliver(true)), |s.ab|);
    DrainSome(u, false, |s.ab|);
    var t := Exec(u, first).s;
    StillEstablished(u, t, k);
    OneLeft(t, k, m);
    var rest := TakerMisses(t, k);
    run := first + rest;
    Joins(u, first, rest, k);
  }

  lemma OneFrame(s: State, k: nat, op: Op)
    requires Inv(s) && k in s.a.objs && SendsData(s.a.objs[k], op)
    ensures var u, m := Act(s, Event(true, Call(k, op))), Do(s.a.objs[k], op).out[0];
      && u.Next? && u.s.ab == s.ab + [Frame(k, m)] && u.s.ba == s.ba && u.s.b == s.b
      && k in u.s.a.objs && u.s.a.objs[k] == Do(s.a.objs[k], op).o
  {
    var out := Do(s.a.objs[k], op).out;
    assert out == [out[0]];
    assert Tagged(k, out) == [Frame(k, out[0])] + Tagged(k, out[1..]);
  }

  /** With only that frame left, the end-of-stream mark has arrived. */
  lemma OneLeft(t: State, k: nat, m: Message)
    requires Inv(t) && Established(t, k) && t.ab == [Frame(k, m)] && m.Data? && m.data != []
    requires t.a.objs[k].c.sentEOF && !t.a.objs[k].c.sentClose
    ensures t.b.objs[k].c.pendingClosed && Bytes(Proj(t.ab, k)) != [] && !HasConfirm(Proj(t.ab, k))
  {
    EstablishedIsLinked(t, k);
    assert t.ab[1..] == [] && Proj(t.ab, k) == [m];
    OneBytes(m);
  }

  /** Whether a call of a that sends data can be missed by b's reader, who only
      takes what arrives and reads until the end: if and only if a had called
      CloseWrite before. */
  lemma MissedIffAfterCloseWrite(s: State, k: nat, op: Op)
    requires Inv(s) && Established(s, k) && !s.b.objs[k].abandoned
    requires SendsData(s.a.objs[k], op) && Do(s.a.objs[k], op).out[0].data != [] && !s.a.objs[k].c.sentClose
    ensures var r := Act(s, Event(true, Call(k, op)));
      r.Next? && ((exists run :: Misses(r.s, run, k)) <==> s.a.objs[k].c.sentEOF)
  {
    var e := Event(true, Call(k, op));
    StepKeepsInv(s, e);
    OneFrame(s, k, op);
    var u := Act(s, e).s;
    if s.a.objs[k].c.sentEOF {
      var run := LateDataIsMissed(s, k, op);
      assert Misses(u, run, k);
    } else {
      forall run ensures !Misses(u, run, k) {
        if Misses(u, run, k) { NotMissed(u, run, k); }
      }
    }
  }

  lemma NotMissed(u: State, run: seq<Event>, k: nat)
    requires Inv(u) && Established(u, k) && !u.a.objs[k].c.sentEOF && !u.a.objs[k].c.sentClose
    ensures !Misses(u, run, k)
  {
    if Misses(u, run, k) {
      ReadingLeavesA(u, run, k);
      var t := Exec(u, run).s;
      InvEndOfStream(t, k);
    }
  }
}
