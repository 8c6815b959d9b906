/** Why the rule "no data may be sent after Close" is needed. Data frames bypass the
    gate that stops every other frame behind a Close. This module shows that such
    a frame goes wrong in every continuation of the session, whatever its sender
    does next, and that nothing else does. */
module WriteRule {
  import opened Wire
  import opened Window
  import opened Protocol
  import opened Link
  import opened System

  /** The frame at the head of a's incoming link, if any, selects the channel it
      was sent for. */
  predicate HeadIsHome(s: State) {
    s.ba == [] || s.ba[0].msg.Open? || Get(s.a.table, s.ba[0].msg.channelID) == Some(s.ba[0].tag)
  }

  /** Whatever the schedule, nothing fails and a gets no frame of another
      channel. */
  ghost predicate Safe(s: State) {
    forall run :: Obedient(s, run) ==> Exec(s, run).Next? && HeadIsHome(Exec(s, run).s)
  }

  lemma InvIsSafe(s: State)
    requires Inv(s)
    ensures Safe(s)
  {
    forall run | Obedient(s, run) ensures Exec(s, run).Next? && HeadIsHome(Exec(s, run).s) {
      RunsKeepInv(s, run);
      InvHeadIsHome(Exec(s, run).s);
    }
  }

  lemma InvHeadIsHome(s: State)
    requires Inv(s)
    ensures HeadIsHome(s)
  {
    if s.ba != [] {
      assert s.ba[0].tag < s.next;
      DeliveryIsLocal(s, true);
    }
  }

  // ---- a session with late frames ----

  /** o' is o after writes behind its Close. */
  ghost predicate Overdrawn(o: Obj, o': Obj) {
    && o.owned && o.c.sentClose && o'.c.remoteWin.win <= o.c.remoteWin.win
    && o' == o.(written := o'.written, sent := o'.sent, writers := o'.writers, inHand := o'.inHand,
                eofAt := o'.eofAt, c := o.c.(remoteWin := Credit(o'.c.remoteWin.win, o.c.remoteWin.closed)))
  }

  /** Channel k of b in the two states. */
  ghost predicate Alike(e: Endpoint, e': Endpoint, k: nat) {
    k in e.objs && k in e'.objs && (e'.objs[k] == e.objs[k] || Overdrawn(e.objs[k], e'.objs[k]))
  }

  ghost predicate AllAlike(e: Endpoint, e': Endpoint) {
    && e'.table == e.table && e'.objs.Keys == e.objs.Keys
    && forall k {:trigger Alike(e, e', k)} :: k in e.objs ==> Alike(e, e', k)
  }

  ghost predicate ClosedByB(t: State, k: nat) {
    k in t.b.objs && t.b.objs[k].owned && t.b.objs[k].c.sentClose
  }

  /** u is the sound state t, but b has written behind its Closes: the frame f is on
      its way to a, behind n frames of t and behind everything else of its channel,
      and what comes after f may be anything. */
  ghost predicate Trails(u: State, t: State, n: nat, f: Frame) {
    && Inv(t) && n <= |t.ba| && f.msg.Data? && ClosedByB(t, f.tag)
    && Proj(t.ba[n..], f.tag) == []
    && u.a == t.a && u.ab == t.ab && u.next == t.next && AllAlike(t.b, u.b)
    && n < |u.ba| && u.ba[..n] == t.ba[..n] && u.ba[n] == f
  }

  lemma OwnedIsLinked(v: Pair)
    requires Good(v) && v.y.Some? && v.y.value.owned
    ensures Linked(v)
  {}

  /** Once f is at the head, its channel has left a's table. */
  lemma HomeIsGone(u: State, t: State, f: Frame)
    requires Trails(u, t, 0, f)
    ensures u.ba[0] == f && !InTable(u.a, f.tag) && Get(u.a.table, f.msg.channelID) != Some(f.tag)
  {
    assert t.ba[0..] == t.ba;
    OwnedIsLinked(PairOf(t, f.tag));
  }

  /** A step of a that does not deliver f. */
  lemma TrailsAtA(u: State, t: State, n: nat, f: Frame, action: Action)
    requires Trails(u, t, n, f) && EventOk(u, Event(true, action)) && (action.Deliver? ==> n > 0)
    ensures ActA(u, action) == Disabled <==> ActA(t, action) == Disabled
    ensures ActA(t, action) != Disabled ==>
      && ActA(t, action).Next? && ActA(u, action).Next?
      && Trails(ActA(u, action).s, ActA(t, action).s, if action.Deliver? then n - 1 else n, f)
  {
    if action.Deliver? {
      assert u.ba[0] == u.ba[..n][0] == t.ba[0];
      assert u.ba[1..][..n - 1] == u.ba[..n][1..] == t.ba[..n][1..] == t.ba[1..][..n - 1];
      assert t.ba[1..][n - 1..] == t.ba[n..];
    }
    if ActA(t, action) != Disabled {
      StepKeepsInv(t, Event(true, action));
    }
  }

  lemma HandleOverdrawn(o: Obj, o': Obj, m: Message)
    requires Overdrawn(o, o') && Handle(o.c, m).Accepted? && !m.OpenConfirm?
    requires m.WindowAdjust? ==> o.c.remoteWin.win + m.additionalBytes < U32
    ensures var h, h' := Handle(o.c, m), Handle(o'.c, m);
      && h'.Accepted? && h'.out == h.out == [] && h'.drop == h.drop
      && Overdrawn(o.(c := h.c, sent := o.sent + h.out), o'.(c := h'.c, sent := o'.sent + h'.out))
  {
    if m.WindowAdjust? {
      AddIsExact(o.c.remoteWin, m.additionalBytes);
      AddIsExact(o'.c.remoteWin, m.additionalBytes);
    }
  }

  predicate IsWriting(op: Op) {
    op.Write? || op.Reserving? || op.Encoding? || op.Enter? || op.Leave?
  }

  lemma WritingOverdraws(o: Obj, o': Obj, op: Op)
    requires o.owned && o.c.sentClose && (o' == o || Overdrawn(o, o')) && IsWriting(op) && Do(o', op).Moved?
    ensures Overdrawn(o, Do(o', op).o)
  {}

  lemma CallOverdrawn(o: Obj, o': Obj, op: Op)
    requires Overdrawn(o, o') && !IsWriting(op)
    ensures Do(o, op).Moved? == Do(o', op).Moved?
    ensures Do(o, op).Moved? ==>
      Do(o, op).out == Do(o', op).out == [] && Overdrawn(Do(o, op).o, Do(o', op).o)
  {}

  /** What every step of b keeps: b did what it does in t, for channel j, or only
      wrote late. */
  lemma TrailsSent(u: State, t: State, n: nat, f: Frame, u': State, t': State, j: nat, out: seq<Message>)
    requires Trails(u, t, n, f) && Inv(t') && (j == f.tag ==> out == [])
    requires t'.a == t.a && t'.ba == t.ba + Tagged(j, out) && ClosedByB(t', f.tag)
    requires u'.a == u.a && u.ba <= u'.ba && u'.ab == t'.ab && u'.next == t'.next && AllAlike(t'.b, u'.b)
    ensures Trails(u', t', n, f)
  {
    assert t'.ba[n..] == t.ba[n..] + Tagged(j, out);
    ProjSent(t.ba[n..], j, out, f.tag);
    assert u'.ba[..n] == u.ba[..n] && t'.ba[..n] == t.ba[..n];
  }

  lemma AlikeAfter(e: Endpoint, e': Endpoint, j: nat, o: Obj, o': Obj, table: seq<Option<nat>>)
    requires AllAlike(e, e') && (o' == o || Overdrawn(o, o'))
    ensures AllAlike(Endpoint(table, e.objs[j := o]), Endpoint(table, e'.objs[j := o']))
  {
    var d, d' := Endpoint(table, e.objs[j := o]), Endpoint(table, e'.objs[j := o']);
    forall k | k in d.objs ensures Alike(d, d', k) {
      if k != j { assert Alike(e, e', k); }
    }
  }

  /** b writes on a channel that it has closed: t stays. */
  lemma LateCall(u: State, t: State, n: nat, f: Frame, j: nat, op: Op)
    requires Trails(u, t, n, f) && ClosedByB(t, j) && IsWriting(op)
    requires Act(u, Event(false, Call(j, op))) != Disabled
    ensures Act(u, Event(false, Call(j, op))).Next?
    ensures Trails(Act(u, Event(false, Call(j, op))).s, t, n, f)
  {
    assert Alike(t.b, u.b, j);
    WritingOverdraws(t.b.objs[j], u.b.objs[j], op);
    AlikeAfter(t.b, u.b, j, t.b.objs[j], Do(u.b.objs[j], op).o, t.b.table);
    assert t.b.objs[j := t.b.objs[j]] == t.b.objs && Tagged(j, []) == [];
    TrailsSent(u, t, n, f, Act(u, Event(false, Call(j, op))).s, t, j, []);
  }

  /** Any other call of b: t takes it too. */
  lemma SoundCall(u: State, t: State, n: nat, f: Frame, j: nat, op: Op)
    requires Trails(u, t, n, f) && !(ClosedByB(t, j) && IsWriting(op))
    requires Act(u, Event(false, Call(j, op))) != Disabled
    ensures Act(u, Event(false, Call(j, op))).Next? && Act(t, Event(false, Call(j, op))).Next?
    ensures Trails(Act(u, Event(false, Call(j, op))).s, Act(t, Event(false, Call(j, op))).s, n, f)
  {
    var e := Event(false, Call(j, op));
    assert Alike(t.b, u.b, j);
    var o, o' := t.b.objs[j], u.b.objs[j];
    if o' != o { CallOverdrawn(o, o', op); }
    OwnersOnly(t, j, op);
    StepKeepsInv(t, e);
    AlikeAfter(t.b, u.b, j, Do(o, op).o, Do(o', op).o, t.b.table);
    if o.owned && o.c.sentClose { GatedCall(o, op); }
    TrailsSent(u, t, n, f, Act(u, e).s, Act(t, e).s, j, Do(o, op).out);
  }

  /** Only who holds a channel writes to it, so such a call is disciplined. */
  lemma OwnersOnly(t: State, j: nat, op: Op)
    requires Inv(t) && j in t.b.objs && !(ClosedByB(t, j) && IsWriting(op))
    ensures Disciplined(t.b.objs[j], op)
  {
    if SendsData(t.b.objs[j], op) && !t.b.objs[j].owned {
      assert Good(PairOf(t, j));
    }
  }

  lemma GatedCall(o: Obj, op: Op)
    requires Do(o, op).Moved? && o.owned && o.c.sentClose
    ensures !IsWriting(op) ==> Do(o, op).out == []
    ensures Do(o, op).o.owned && Do(o, op).o.c.sentClose
  {}

  lemma OpenByB(u: State, t: State, n: nat, f: Frame)
    requires Trails(u, t, n, f)
    ensures Act(u, Event(false, StartOpening)).Next? && Act(t, Event(false, StartOpening)).Next?
    ensures Trails(Act(u, Event(false, StartOpening)).s, Act(t, Event(false, StartOpening)).s, n, f)
  {
    var e := Event(false, StartOpening);
    StepKeepsInv(t, e);
    var r := StartOpen(t.b, t.next);
    AlikeAfter(t.b, u.b, t.next, r.e.objs[t.next], r.e.objs[t.next], r.e.table);
    TrailsSent(u, t, n, f, Act(u, e).s, Act(t, e).s, t.next, r.out);
  }

  lemma AnswerByB(u: State, t: State, n: nat, f: Frame, accept: bool)
    requires Trails(u, t, n, f) && t.ab != [] && t.ab[0].msg.Open?
    ensures var e := Event(false, Deliver(accept));
      Act(u, e).Next? && Act(t, e).Next? && Trails(Act(u, e).s, Act(t, e).s, n, f)
  {
    var e, j, m := Event(false, Deliver(accept)), t.ab[0].tag, t.ab[0].msg;
    StepKeepsInv(t, e);
    NewAtB(t);
    OpenAlike(t.b, u.b, j, m, accept);
    TrailsSent(u, t, n, f, Act(u, e).s, Act(t, e).s, j, HandleOpen(t.b, j, m, accept).out);
  }

  lemma OpenAlike(e: Endpoint, e': Endpoint, j: nat, m: Message, accept: bool)
    requires m.Open? && AllAlike(e, e')
    ensures var r, r' := HandleOpen(e, j, m, accept), HandleOpen(e', j, m, accept);
      && r.Step? && r'.Step? && r'.out == r.out && r'.k == r.k == j && AllAlike(r.e, r'.e)
  {
    var r := HandleOpen(e, j, m, accept);
    if r.e != e { AlikeAfter(e, e', j, r.e.objs[j], r.e.objs[j], r.e.table); }
  }

  lemma NewAtB(t: State)
    requires Inv(t) && t.ab != [] && t.ab[0].msg.Open?
    ensures t.ab[0].tag !in t.b.objs
  {
    var k := t.ab[0].tag;
    SwapInv(t);
    assert Good(PairOf(Swap(t), k));
    AnswerKeepsGood(PairOf(Swap(t), k), 0, true);
  }

  lemma HomeAtB(t: State)
    requires Inv(t) && t.ab != [] && !t.ab[0].msg.Open?
    ensures Get(t.b.table, t.ab[0].msg.channelID) == Some(t.ab[0].tag) && t.ab[0].tag in t.b.objs
    ensures Handle(t.b.objs[t.ab[0].tag].c, t.ab[0].msg).Accepted?
  {
    SwapInv(t);
    assert Good(PairOf(Swap(t), t.ab[0].tag));
    DeliveryIsLocal(Swap(t), true);
  }

  /** What a channel that its user has closed may still receive. */
  lemma OwnedReceives(t: State)
    requires Inv(t) && t.ab != [] && t.ab[0].tag in t.b.objs && t.b.objs[t.ab[0].tag].owned
    ensures !t.ab[0].msg.Open? && !t.ab[0].msg.OpenConfirm?
    ensures t.ab[0].msg.WindowAdjust? ==>
      t.b.objs[t.ab[0].tag].c.remoteWin.win + t.ab[0].msg.additionalBytes < U32
  {
    var k := t.ab[0].tag;
    var v := PairOf(t, k);
    OwnedIsLinked(v);
    assert v.xy[0] == t.ab[0].msg && LegalAt(v.xy, 0, RouteOf(v.x.value, v.y.value));
    assert Credits(v.xy) >= CreditOf(v.xy[0]);
  }

  lemma GatedHandle(c: Chan, m: Message)
    requires Handle(c, m).Accepted? && c.sentClose
    ensures Handle(c, m).out == [] && Handle(c, m).c.sentClose
  {}

  lemma DeliverToB(u: State, t: State, n: nat, f: Frame, accept: bool)
    requires Trails(u, t, n, f) && t.ab != [] && !t.ab[0].msg.Open?
    ensures var e := Event(false, Deliver(accept));
      Act(u, e).Next? && Act(t, e).Next? && Trails(Act(u, e).s, Act(t, e).s, n, f)
  {
    var e, j, m := Event(false, Deliver(accept)), t.ab[0].tag, t.ab[0].msg;
    HomeAtB(t);
    StepKeepsInv(t, e);
    assert Alike(t.b, u.b, j);
    var o, o', h := t.b.objs[j], u.b.objs[j], Handle(t.b.objs[j].c, m);
    if o' != o {
      OwnedReceives(t);
      HandleOverdrawn(o, o', m);
    }
    if o.c.sentClose { GatedHandle(o.c, m); }
    var h' := Handle(o'.c, m);
    AlikeAfter(t.b, u.b, j, o.(c := h.c, sent := o.sent + h.out), o'.(c := h'.c, sent := o'.sent + h'.out),
               if h.drop then Remove(t.b.table, m.channelID) else t.b.table);
    TrailsSent(u, t, n, f, Act(u, e).s, Act(t, e).s, j, h.out);
  }

  /** b may do anything at all. */
  lemma TrailsAtB(u: State, t: State, n: nat, f: Frame, action: Action) returns (t': State)
    requires Trails(u, t, n, f) && Act(u, Event(false, action)) != Disabled
    ensures Act(u, Event(false, action)).Next? && Trails(Act(u, Event(false, action)).s, t', n, f)
  {
    match action {
      case StartOpening =>
        OpenByB(u, t, n, f);
        t' := Act(t, Event(false, action)).s;
      case Call(j, op) =>
        if ClosedByB(t, j) && IsWriting(op) {
          LateCall(u, t, n, f, j, op);
          t' := t;
        } else {
          SoundCall(u, t, n, f, j, op);
          t' := Act(t, Event(false, action)).s;
        }
      case Deliver(accept) =>
        if t.ab[0].msg.Open? {
          AnswerByB(u, t, n, f, accept);
        } else {
          DeliverToB(u, t, n, f, accept);
        }
        t' := Act(t, Event(false, action)).s;
    }
  }

  /** a obeys the rule; b need not. */
  ghost predicate ObedientAtA(s: State, run: seq<Event>) {
    run == [] ||
    (ObedientAtA(s, run[..|run| - 1])
     && match Exec(s, run[..|run| - 1])
        case Next(t) => run[|run| - 1].atA ==> EventOk(t, run[|run| - 1])
        case _ => true)
  }

  /** How many frames a schedule delivers to a. */
  function Arrivals(run: seq<Event>): nat {
    if run == [] then 0
    else Arrivals(run[..|run| - 1]) + if Arrives(run[|run| - 1]) then 1 else 0
  }

  predicate Arrives(e: Event) {
    e.atA && e.action.Deliver?
  }

  /** The state after e has had its turn. */
  function After(s: State, e: Event): Result {
    match Act(s, e)
    case Disabled => Next(s)
    case r => r
  }

  lemma TrailsStep(u: State, t: State, n: nat, f: Frame, e: Event) returns (t': State)
    requires Trails(u, t, n, f) && (e.atA ==> EventOk(u, e)) && (Arrives(e) ==> n > 0)
    ensures After(u, e).Next? && Trails(After(u, e).s, t', if Arrives(e) then n - 1 else n, f)
  {
    t' := t;
    if e.atA {
      TrailsAtA(u, t, n, f, e.action);
      if ActA(t, e.action) != Disabled { t' := ActA(t, e.action).s; }
    } else if Act(u, e) != Disabled {
      t' := TrailsAtB(u, t, n, f, e.action);
    }
  }

  lemma {:induction false} TrailsOn(u: State, t: State, n: nat, f: Frame, run: seq<Event>) returns (t': State)
    requires Trails(u, t, n, f) && ObedientAtA(u, run) && Arrivals(run) <= n
    ensures Exec(u, run).Next? && Trails(Exec(u, run).s, t', n - Arrivals(run), f)
  {
    t' := t;
    if run != [] {
      var before, last := run[..|run| - 1], run[|run| - 1];
      t' := TrailsOn(u, t, n, f, before);
      t' := TrailsStep(Exec(u, before).s, t', n - Arrivals(before), f, last);
    }
  }

  // ---- what becomes of it ----

  /** The state after b's call. */
  function Called(s: State, k: nat, op: Op): Result {
    Act(s, Event(false, Call(k, op)))
  }

  /** b sends data although the channel has been closed at b's end, by its
      application or in answer to a's Close. */
  ghost predicate SendsLate(s: State, k: nat, op: Op) {
    k in s.b.objs && s.b.objs[k].c.sentClose && SendsData(s.b.objs[k], op)
  }

  lemma DataComesFromOwners(s: State, k: nat, op: Op)
    requires Inv(s) && k in s.b.objs && SendsData(s.b.objs[k], op)
    ensures s.b.objs[k].owned && IsWriting(op) && |Do(s.b.objs[k], op).out| == 1
  {
    assert Good(PairOf(s, k));
  }

  lemma LateWriteTrails(s: State, k: nat, op: Op) returns (f: Frame)
    requires Inv(s) && SendsLate(s, k, op)
    ensures Called(s, k, op).Next? && f.tag == k && f.msg.Data?
    ensures Called(s, k, op).s.ba == s.ba + [f] && Trails(Called(s, k, op).s, s, |s.ba|, f)
  {
    DataComesFromOwners(s, k, op);
    var o, r, u := s.b.objs[k], Do(s.b.objs[k], op), Called(s, k, op).s;
    f := Frame(k, r.out[0]);
    assert r.out == [r.out[0]];
    assert Tagged(k, r.out) == [f] + Tagged(k, r.out[1..]) == [f];
    WritingOverdraws(o, o, op);
    forall j | j in s.b.objs ensures Alike(s.b, u.b, j) {}
    assert u.ba[..|s.ba|] == s.ba[..|s.ba|] && s.ba[|s.ba|..] == [];
  }

  /** Data sent behind a Close of one's own end never reaches its channel. In every
      continuation in which the receiver obeys the rule, whatever the sender does,
      with more late data too, and however ids are reused, nothing fails while the
      frame is on its way; and when its turn comes, its id selects no channel or a
      different one. */
  lemma LateFrameGoesAstray(s: State, k: nat, op: Op, run: seq<Event>)
    requires Inv(s) && SendsLate(s, k, op)
    requires ObedientAtA(Called(s, k, op).s, run) && Arrivals(run) <= |s.ba|
    ensures Called(s, k, op).Next? && Exec(Called(s, k, op).s, run).Next?
    ensures |Called(s, k, op).s.ba| == |s.ba| + 1
    ensures var f := Called(s, k, op).s.ba[|s.ba|];
      f.tag == k && GoesAstray(Exec(Called(s, k, op).s, run).s, f, |s.ba| - Arrivals(run))
  {
    var f := LateWriteTrails(s, k, op);
    var t := TrailsOn(Called(s, k, op).s, s, |s.ba|, f, run);
    TrailsAstray(Exec(Called(s, k, op).s, run).s, t, |s.ba| - Arrivals(run), f);
  }

  /** f is n frames from its delivery, and once it is next, it has no home. */
  ghost predicate GoesAstray(u: State, f: Frame, n: nat) {
    && n < |u.ba| && u.ba[n] == f && f.msg.Data?
    && (n == 0 ==> Get(u.a.table, f.msg.channelID) != Some(f.tag) && Harms(u, f))
  }

  lemma TrailsAstray(u: State, t: State, n: nat, f: Frame)
    requires Trails(u, t, n, f)
    ensures GoesAstray(u, f, n)
  {
    if n == 0 {
      HomeIsGone(u, t, f);
      StrayFrameDoesHarm(u, t, f);
    }
  }

  /** The stream that b sends to a on channel j is what a gets. */
  ghost predicate Intact(s: State, j: nat)
    requires j in s.a.objs && j in s.b.objs
  {
    s.b.objs[j].written == s.a.objs[j].read + s.a.objs[j].c.pending + Bytes(Proj(s.ba, j))
  }

  /** Delivering f ends a's session, or puts its bytes at the end of another
      channel's buffer, whose stream is then corrupt. */
  ghost predicate Harms(u: State, f: Frame)
    requires f.msg.Data?
  {
    forall accept ::
      match ActA(u, Deliver(accept))
      case Crash(reason) => Get(u.a.table, f.msg.channelID) == None ==> reason == InvalidChannel
      case Next(v) => exists j :: Corrupts(u, v, j, f)
      case _ => false
  }

  lemma StrayFrameDoesHarm(u: State, t: State, f: Frame)
    requires Trails(u, t, 0, f)
    ensures Harms(u, f)
  {
    HomeIsGone(u, t, f);
    forall accept
      ensures match ActA(u, Deliver(accept))
        case Crash(reason) => Get(u.a.table, f.msg.channelID) == None ==> reason == InvalidChannel
        case Next(v) => exists j :: Corrupts(u, v, j, f)
        case _ => false
    {
      match Get(u.a.table, f.msg.channelID) {
        case None =>
        case Some(j) =>
          assert j in u.a.objs;
          if Handle(u.a.objs[j].c, f.msg).Accepted? { StrayCorrupts(u, t, f, accept, j); }
      }
    }
  }

  ghost predicate Corrupts(u: State, v: State, j: nat, f: Frame)
    requires f.msg.Data?
  {
    && j != f.tag && j in u.a.objs && j in v.a.objs
    && v.a.objs[j].c.pending == u.a.objs[j].c.pending + f.msg.data
    && (j in u.b.objs && Intact(u, j) && f.msg.data != [] ==> j in v.b.objs && !Intact(v, j))
  }

  lemma StrayCorrupts(u: State, t: State, f: Frame, accept: bool, j: nat)
    requires Trails(u, t, 0, f) && Get(u.a.table, f.msg.channelID) == Some(j) && j in u.a.objs && j != f.tag
    requires Handle(u.a.objs[j].c, f.msg).Accepted? && u.ba[0] == f
    ensures ActA(u, Deliver(accept)).Next? && Corrupts(u, ActA(u, Deliver(accept)).s, j, f)
  {
    var v := ActA(u, Deliver(accept)).s;
    assert Proj(u.ba, j) == Proj(v.ba, j);
    var x := u.a.objs[j];
    if j in u.b.objs && Intact(u, j) && f.msg.data != [] {
      assert |v.a.objs[j].read + v.a.objs[j].c.pending + Bytes(Proj(v.ba, j))|
          == |x.read + x.c.pending + Bytes(Proj(u.ba, j))| + |f.msg.data|;
    }
  }

  const DELIVERY: Event := Event(true, Deliver(true))

  lemma {:induction false} DeliveriesObey(s: State, n: nat)
    ensures Obedient(s, Repeat(DELIVERY, n)) && ObedientAtA(s, Repeat(DELIVERY, n))
    ensures Arrivals(Repeat(DELIVERY, n)) == n
  {
    if n > 0 {
      DeliveriesObey(s, n - 1);
      ObeyMore(s, Repeat(DELIVERY, n - 1), DELIVERY);
      assert Repeat(DELIVERY, n)[..n - 1] == Repeat(DELIVERY, n - 1);
    }
  }

  /** From any reachable state, a call that sends data leaves the session safe, in
      every continuation, if and only if its end had not sent Close before. */
  lemma WriteIsSafeIffNotClosed(s: State, k: nat, op: Op)
    requires Inv(s) && k in s.b.objs && SendsData(s.b.objs[k], op)
    ensures Called(s, k, op).Next?
    ensures Safe(Called(s, k, op).s) <==> !s.b.objs[k].c.sentClose
  {
    if s.b.objs[k].c.sentClose {
      var u := Called(s, k, op).s;
      DeliveriesObey(u, |s.ba|);
      LateFrameGoesAstray(s, k, op, Repeat(DELIVERY, |s.ba|));
      var f := LateWriteTrails(s, k, op);
      assert !HeadIsHome(Exec(u, Repeat(DELIVERY, |s.ba|)).s);
    } else {
      StepKeepsInv(s, Event(false, Call(k, op)));
      InvIsSafe(Called(s, k, op).s);
    }
  }
}
