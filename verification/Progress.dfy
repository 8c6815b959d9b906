/** Flow control does not deadlock: a writer that waits for credit can be released
    by deliveries and by its peer reading, unless the peer's Open was cancelled. A
    writer stranded that way is released only by closing its own channel. */
module Progress {
  import opened Wire
  import opened Window
  import opened Protocol
  import opened Link
  import opened System
  import opened Guarantees

  /** a's writer on channel k waits in reserve. */
  ghost predicate WaitsForCredit(s: State, k: nat) {
    && Established(s, k)
    && s.a.objs[k].c.remoteWin == Credit(0, false) && s.a.objs[k].inHand == None
  }

  ghost predicate Released(s: State, k: nat) {
    k in s.a.objs && (s.a.objs[k].c.remoteWin.win > 0 || s.a.objs[k].c.remoteWin.closed)
  }

  /** What the release may use: deliveries both ways, and the peer's own calls on
      channel k that return its Open, read, and update the window. */
  ghost predicate Helps(e: Event, k: nat) {
    match e.action
    case Deliver(accept) => accept
    case Call(j, op) => !e.atA && j == k && (op.OpenReturn? || op.Read? || op.Adjust?)
    case StartOpening => false
  }

  ghost predicate Releases(s: State, run: seq<Event>, k: nat) {
    && (forall i :: 0 <= i < |run| ==> Helps(run[i], k))
    && Exec(s, run).Next? && Released(Exec(s, run).s, k)
  }

  lemma {:induction false} ExecConcat(s: State, run: seq<Event>, more: seq<Event>)
    requires Exec(s, run).Next?
    ensures Exec(s, run + more) == Exec(Exec(s, run).s, more)
  {
    if more == [] {
      assert run + more == run;
    } else {
      ExecConcat(s, run, more[..|more| - 1]);
      assert (run + more)[..|run + more| - 1] == run + more[..|more| - 1];
    }
  }

  lemma ExecOne(s: State, e: Event)
    ensures Exec(s, [e]) == match Act(s, e) case Disabled => Next(s) case r => r
  {
    assert [e][..0] == [];
  }

  // ---- draining a link ----

  ghost predicate SameUser(o: Obj, o': Obj) {
    && o'.owned == o.owned && o'.abandoned == o.abandoned
    && o'.written == o.written && o'.inHand == o.inHand && o'.c.direction == o.c.direction
  }

  /** The receiving end is as before, but for what the packets did to it. */
  ghost predicate SameUsers(e: Endpoint, e': Endpoint) {
    forall k :: k in e.objs ==> k in e'.objs && SameUser(e.objs[k], e'.objs[k])
  }

  lemma HandleKeepsDirection(c: Chan, m: Message)
    requires Handle(c, m).Accepted?
    ensures Handle(c, m).c.direction == c.direction
  {}

  ghost predicate Delivered(s: State, t: State, n: nat)
    requires n <= |s.ba|
  {
    t.b == s.b && t.ba == s.ba[n..] && SameUsers(s.a, t.a)
  }

  lemma DeliverOne(s: State)
    requires Inv(s) && s.ba != []
    ensures var r := ActA(s, Deliver(true)); r.Next? && Inv(r.s) && Delivered(s, r.s, 1)
  {
    assert s.ba[0].tag < s.next;
    DeliveryIsLocal(s, true);
    DeliverKeepsInv(s, true);
    var r, k, m := ActA(s, Deliver(true)), s.ba[0].tag, s.ba[0].msg;
    forall j | j in s.a.objs ensures j in r.s.a.objs && SameUser(s.a.objs[j], r.s.a.objs[j]) {
      if j == k {
        HandleKeepsDirection(s.a.objs[k].c, m);
      } else {
        assert PairOf(r.s, j) == PairOf(s, j);
      }
    }
  }

  lemma DeliverOneAt(s: State, atA: bool)
    requires Inv(s) && View(s, atA).ba != []
    ensures var r := Act(s, Event(atA, Deliver(true)));
      r.Next? && Inv(r.s) && Delivered(View(s, atA), View(r.s, atA), 1)
  {
    if atA {
      DeliverOne(s);
    } else {
      SwapInv(s);
      DeliverOne(Swap(s));
      SwapInv(ActA(Swap(s), Deliver(true)).s);
    }
  }

  lemma DeliveredMore(s: State, t: State, u: State, n: nat)
    requires n < |s.ba| && Delivered(s, t, n) && t.ba != [] && Delivered(t, u, 1)
    ensures Delivered(s, u, n + 1)
  {
    assert s.ba[n..][1..] == s.ba[n + 1..];
  }

  lemma {:induction false} DrainSome(s: State, atA: bool, n: nat)
    requires Inv(s) && n <= |View(s, atA).ba|
    ensures var r := Exec(s, Repeat(Event(atA, Deliver(true)), n));
      r.Next? && Inv(r.s) && Delivered(View(s, atA), View(r.s, atA), n)
  {
    if n > 0 {
      var e := Event(atA, Deliver(true));
      DrainSome(s, atA, n - 1);
      var t := Exec(s, Repeat(e, n - 1)).s;
      DeliverOneAt(t, atA);
      ExecMore(s, Repeat(e, n - 1), e);
      DeliveredMore(View(s, atA), View(t, atA), View(Act(t, e).s, atA), n - 1);
    }
  }

  /** Delivers everything in flight towards one end. */
  lemma Drain(s: State, atA: bool) returns (run: seq<Event>, t: State)
    requires Inv(s)
    ensures forall i :: 0 <= i < |run| ==> run[i] == Event(atA, Deliver(true))
    ensures Exec(s, run) == Next(t) && Inv(t)
    ensures var v, w := View(s, atA), View(t, atA); w.b == v.b && w.ba == [] && SameUsers(v.a, w.a)
  {
    var n := |View(s, atA).ba|;
    DrainSome(s, atA, n);
    run := Repeat(Event(atA, Deliver(true)), n);
    t := Exec(s, run).s;
  }

  // ---- releasing the writer ----

  /** Something that releases the writer is already in flight towards it. */
  ghost predicate HelpInFlight(s: State, k: nat)
    requires k in s.b.objs
  {
    s.b.objs[k].c.sentClose || Credits(Proj(s.ba, k)) > 0
  }

  lemma StillEstablished(s: State, t: State, k: nat)
    requires Established(s, k) && SameUsers(s.a, t.a) && SameUsers(s.b, t.b)
    ensures Established(t, k)
  {}

  lemma HelpArrives(s: State, k: nat) returns (run: seq<Event>)
    requires Inv(s) && WaitsForCredit(s, k) && HelpInFlight(s, k)
    ensures Releases(s, run, k)
  {
    var t;
    run, t := Drain(s, true);
    StillEstablished(s, t, k);
    EstablishedIsLinked(s, k);
    EstablishedIsLinked(t, k);
    assert Proj(t.ba, k) == [];
    var x, y := t.a.objs[k], t.b.objs[k];
    if !y.c.sentClose {
      assert y.read + y.c.pending + Bytes(Proj(t.ab, k)) == y.read + y.c.pending + Bytes(Proj(s.ab, k));
      assert |Bytes(Proj(t.ab, k))| == |Bytes(Proj(s.ab, k))|;
    }
  }

  lemma CallByPeer(s: State, k: nat, op: Op) returns (t: State)
    requires Inv(s) && k in s.b.objs && (op.OpenReturn? || op.Read? || op.Adjust?) && Do(s.b.objs[k], op).Moved?
    ensures Exec(s, [Event(false, Call(k, op))]) == Next(t) && Inv(t)
    ensures t.a == s.a && k in t.b.objs && t.b.objs[k] == Do(s.b.objs[k], op).o
    ensures Proj(t.ba, k) == Proj(s.ba, k) + Do(s.b.objs[k], op).out && Proj(t.ab, k) == Proj(s.ab, k)
  {
    var e := Event(false, Call(k, op));
    ExecOne(s, e);
    StepKeepsInv(s, e);
    t := Act(s, e).s;
    ProjSent(s.ba, k, Do(s.b.objs[k], op).out, k);
  }

  /** The peer holds unread or uncredited bytes: it reads, credits, and the
      update travels back. */
  lemma PeerCredits(s: State, k: nat) returns (run: seq<Event>)
    requires Inv(s) && WaitsForCredit(s, k) && s.b.objs[k].owned && !s.b.objs[k].c.sentClose
    requires s.b.objs[k].uncredited > 0
    ensures Releases(s, run, k)
  {
    var n := s.b.objs[k].uncredited;
    var t := CallByPeer(s, k, Adjust(n));
    var m := Do(s.b.objs[k], Adjust(n)).out[0];
    Append(Proj(s.ba, k), m);
    var rest := HelpArrives(t, k);
    run := [Event(false, Call(k, Adjust(n)))] + rest;
    ExecConcat(s, [Event(false, Call(k, Adjust(n)))], rest);
  }

  lemma PeerReads(s: State, k: nat) returns (run: seq<Event>)
    requires Inv(s) && WaitsForCredit(s, k) && s.b.objs[k].owned && !s.b.objs[k].c.sentClose
    requires s.b.objs[k].c.pending != [] || s.b.objs[k].uncredited > 0
    ensures Releases(s, run, k)
  {
    if s.b.objs[k].uncredited > 0 {
      run := PeerCredits(s, k);
    } else {
      var op := Read(|s.b.objs[k].c.pending|);
      var t := CallByPeer(s, k, op);
      var rest := PeerCredits(t, k);
      run := [Event(false, Call(k, op))] + rest;
      ExecConcat(s, [Event(false, Call(k, op))], rest);
    }
  }

  /** With nothing in flight towards the peer, everything the writer sent is at
      the peer, which will get the channel if it has not yet. */
  lemma PeerTakes(s: State, k: nat) returns (run: seq<Event>)
    requires Inv(s) && WaitsForCredit(s, k) && s.ab == [] && !s.b.objs[k].abandoned
    ensures Releases(s, run, k)
  {
    EstablishedIsLinked(s, k);
    assert Proj(s.ab, k) == [];
    var y := s.b.objs[k];
    if HelpInFlight(s, k) {
      run := HelpArrives(s, k);
    } else if y.owned {
      run := PeerReads(s, k);
    } else {
      run := PeerReturns(s, k);
    }
  }

  /** The peer's Open has yet to return. */
  lemma PeerReturns(s: State, k: nat) returns (run: seq<Event>)
    requires Inv(s) && WaitsForCredit(s, k) && !s.b.objs[k].owned && !s.b.objs[k].c.sentClose
    requires Do(s.b.objs[k], OpenReturn).Moved? && Do(s.b.objs[k], OpenReturn).o.owned
    requires s.b.objs[k].c.pending != [] || s.b.objs[k].uncredited > 0
    ensures Releases(s, run, k)
  {
    var t := CallByPeer(s, k, OpenReturn);
    var rest := PeerReads(t, k);
    run := [Event(false, Call(k, OpenReturn))] + rest;
    ExecConcat(s, [Event(false, Call(k, OpenReturn))], rest);
  }

  /** a has closed: with nothing in flight towards the peer, its Close has been
      answered. */
  lemma CloseIsAnswered(s: State, k: nat)
    requires Inv(s) && Established(s, k) && s.ab == [] && s.a.objs[k].c.sentClose
    ensures HelpInFlight(s, k)
  {
    EstablishedIsLinked(s, k);
    assert Proj(s.ab, k) == [];
  }

  /** No credit deadlock: from every invariant state in which a's writer waits on
      a channel that the peer's application holds or will hold, or that a itself
      has closed, deliveries and the peer's reading alone release it. */
  lemma WriterCanBeReleased(s: State, k: nat) returns (run: seq<Event>)
    requires Inv(s) && WaitsForCredit(s, k)
    requires !s.b.objs[k].abandoned || s.a.objs[k].c.sentClose
    ensures Releases(s, run, k)
  {
    var first, t := Drain(s, false);
    StillEstablished(s, t, k);
    var rest;
    if s.a.objs[k].c.sentClose {
      CloseIsAnswered(t, k);
      rest := HelpArrives(t, k);
    } else {
      rest := PeerTakes(t, k);
    }
    run := first + rest;
    ExecConcat(s, first, rest);
  }

  // ---- a cancelled Open strands the writer ----

  ghost predicate Stranded(s: State, k: nat) {
    WaitsForCredit(s, k) && s.b.objs[k].abandoned && !s.a.objs[k].c.sentClose
  }

  ghost predicate StrandedPair(v: Pair) {
    && Linked(v) && v.y.value.abandoned
    && v.x.value.c.remoteWin == Credit(0, false) && !v.x.value.c.sentClose && v.x.value.inHand == None
  }

  /** Nobody at y holds the channel, so y has sent nothing and can do nothing. */
  lemma NothingComesBack(v: Pair, op: Op)
    requires StrandedPair(v)
    ensures v.yx == []
    ensures Do(v.y.value, op).Moved? ==> op.Cancel? && Do(v.y.value, op).o == v.y.value
  {}

  lemma WriterStays(v: Pair, op: Op)
    requires StrandedPair(v) && op != Shutdown && Do(v.x.value, op).Moved?
    ensures var o := Do(v.x.value, op).o;
      && o.c.remoteWin == Credit(0, false) && !o.c.sentClose && o.inHand == None
      && SameUser(v.x.value.(written := o.written), o)
  {}

  lemma StrandedAtA(s: State, k: nat, action: Action)
    requires Inv(s) && Stranded(s, k) && action != Call(k, Shutdown) && ActA(s, action) != Disabled
    ensures ActA(s, action).Next? && Stranded(ActA(s, action).s, k)
  {
    StepIsLocal(s, action);
    EstablishedIsLinked(s, k);
    var v, t := PairOf(s, k), ActA(s, action).s;
    if Subject(s, action) != k {
      assert PairOf(t, k) == v;
    } else {
      NothingComesBack(v, Cancel);
      assert action.Call?;
      WriterStays(v, action.op);
    }
  }

  lemma StrandedAtB(s: State, k: nat, action: Action)
    requires Inv(s) && Stranded(s, k) && Act(s, Event(false, action)) != Disabled
    ensures Act(s, Event(false, action)).Next? && Stranded(Act(s, Event(false, action)).s, k)
  {
    SwapInv(s);
    StepIsLocal(Swap(s), action);
    EstablishedIsLinked(s, k);
    var v, t := PairOf(s, k), ActA(Swap(s), action).s;
    assert PairOf(Swap(s), k) == Flip(v);
    if Subject(Swap(s), action) != k {
      assert PairOf(t, k) == Flip(v);
    } else if action.Call? {
      NothingComesBack(v, action.op);
      assert PairOf(t, k).y == Flip(v).y;
    } else {
      assert action.Deliver?;
      HandleKeepsDirection(v.y.value.c, v.xy[0]);
      assert PairOf(t, k).y == Flip(v).y;
    }
  }

  /** Once the peer's Open is cancelled, a waiting writer waits through every run
      in which its own side does not close the channel. */
  lemma {:induction false} CancelledOpenStrandsWriter(s: State, k: nat, run: seq<Event>)
    requires Inv(s) && Stranded(s, k) && Obedient(s, run)
    requires forall i :: 0 <= i < |run| ==> run[i] != Event(true, Call(k, Shutdown))
    ensures Exec(s, run).Next? && Stranded(Exec(s, run).s, k)
  {
    if run != [] {
      var before, last := run[..|run| - 1], run[|run| - 1];
      CancelledOpenStrandsWriter(s, k, before);
      RunsKeepInv(s, before);
      var t := Exec(s, before).s;
      if Act(t, last) != Disabled {
        if last.atA { StrandedAtA(t, k, last.action); } else { StrandedAtB(t, k, last.action); }
      }
    }
  }

  lemma HelpIsDisciplined(s: State, e: Event, k: nat)
    requires Helps(e, k)
    ensures EventOk(s, e)
  {}

  lemma {:induction false} HelpIsObedient(s: State, run: seq<Event>, k: nat)
    requires forall i :: 0 <= i < |run| ==> Helps(run[i], k)
    ensures Obedient(s, run)
  {
    if run != [] {
      var before, last := run[..|run| - 1], run[|run| - 1];
      HelpIsObedient(s, before, k);
      if Exec(s, before).Next? { HelpIsDisciplined(Exec(s, before).s, last, k); }
      ObeyMore(s, before, last);
      assert before + [last] == run;
    }
  }

  /** Exactly when a waiting writer can be released. */
  lemma ReleasableIffHeldOrClosed(run: seq<Event>, s: State, k: nat)
    requires Reached(run, s) && WaitsForCredit(s, k)
    ensures (exists help :: Releases(s, help, k)) <==> !s.b.objs[k].abandoned || s.a.objs[k].c.sentClose
  {
    ReachedInv(run, s);
    if !s.b.objs[k].abandoned || s.a.objs[k].c.sentClose {
      var help := WriterCanBeReleased(s, k);
      assert Releases(s, help, k);
    } else {
      forall help ensures !Releases(s, help, k) {
        if Releases(s, help, k) {
          HelpIsObedient(s, help, k);
          assert forall i :: 0 <= i < |help| ==> Helps(help[i], k);
          CancelledOpenStrandsWriter(s, k, help);
        }
      }
    }
  }
}
