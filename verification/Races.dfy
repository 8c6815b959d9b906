/** Three sessions of applications that keep their rules and get less than they
    expect: a Write overtaken by the peer's Close, a CloseWrite that falls inside a
    Write, and a writer whose peer's Open was cancelled. */
module Races {
  import opened Wire
  import opened Window
  import opened Protocol
  import opened Link
  import opened System
  import opened LateWrites
  import Guarantees
  import Progress

  /** One channel, with what is in flight. */
  function Snap(a: Obj, ain: bool, b: Obj, bin: bool, ab: seq<Message>, ba: seq<Message>): State {
    State(Endpoint([if ain then Some(0) else None], map[0 := a]),
          Endpoint([if bin then Some(0) else None], map[0 := b]), Tagged(0, ab), Tagged(0, ba), 1)
  }

  /** b opens a channel, a accepts it, and b's Open returns. */
  lemma Opened(run: seq<Event>)
    requires |run| >= 4 && forall i :: 0 <= i < 4 ==> run[i] == CLOSE_THEN_WRITE[i]
    ensures Exec(Init, run[..4]) == Next(Snap(GotObj(), true, HeldObj(), true, [], []))
  {
    FirstFour(run);
  }

  // ---- a Write overtaken by the peer's Close ----

  /** b has reserved a chunk when a's Close arrives and is answered; then b encodes
      it. b never calls Close. */
  const OVERTAKEN: seq<Event> := CLOSE_THEN_WRITE[..4] + [
    Event(false, Call(0, Reserving([7]))), Event(true, Call(0, Shutdown)), Event(false, Deliver(true)),
    Event(false, Call(0, Encoding)), Event(true, Deliver(true)), Event(true, Deliver(true))]

  function TakenObj(): Obj {
    HeldObj().(inHand := Some([7]), c := HeldObj().c.(remoteWin := Credit(CHANNEL_WINDOW_SIZE - 1, false)))
  }

  function GotShut(): Obj {
    GotObj().(sent := GotObj().sent + [CLOSE], c := GotObj().c.(sentClose := true))
  }

  function AnsweredObj(): Obj {
    TakenObj().(c := Closed(TakenObj().c), sent := TakenObj().sent + [CLOSE])
  }

  function EncodedObj(): Obj {
    AnsweredObj().(inHand := None, written := [7], sent := AnsweredObj().sent + [LATE])
  }

  function GotGone(): Obj {
    GotShut().(c := Closed(GotShut().c))
  }

  lemma Reserves()
    ensures Act(Snap(GotObj(), true, HeldObj(), true, [], []), OVERTAKEN[4])
         == Next(Snap(GotObj(), true, TakenObj(), true, [], []))
  {
    assert [7][..1] == [7];
    assert Do(HeldObj(), Reserving([7])) == Moved(TakenObj(), []);
  }

  lemma PeerCloses()
    ensures Act(Snap(GotObj(), true, TakenObj(), true, [], []), OVERTAKEN[5])
         == Next(Snap(GotShut(), true, TakenObj(), true, [CLOSE], []))
  {
    Links(CLOSE, LATE);
    assert Do(GotObj(), Shutdown) == Moved(GotShut(), [CLOSE]);
  }

  lemma CloseIsAnswered()
    ensures Act(Snap(GotShut(), true, TakenObj(), true, [CLOSE], []), OVERTAKEN[6])
         == Next(Snap(GotShut(), true, AnsweredObj(), false, [], [CLOSE]))
  {
    Links(CLOSE, LATE);
    assert Handle(TakenObj().c, CLOSE) == Accepted(Closed(TakenObj().c), [CLOSE], true);
  }

  lemma Encodes()
    ensures Act(Snap(GotShut(), true, AnsweredObj(), false, [], [CLOSE]), OVERTAKEN[7])
         == Next(Snap(GotShut(), true, EncodedObj(), false, [], [CLOSE, LATE]))
  {
    Links(CLOSE, LATE);
    Links(LATE, LATE);
    assert AnsweredObj().written + [7] == [7];
    assert Do(AnsweredObj(), Encoding) == Moved(EncodedObj(), [LATE]);
  }

  lemma AnswerArrives()
    ensures Act(Snap(GotShut(), true, EncodedObj(), false, [], [CLOSE, LATE]), OVERTAKEN[8])
         == Next(Snap(GotGone(), false, EncodedObj(), false, [], [LATE]))
  {
    Links(CLOSE, LATE);
    Links(LATE, LATE);
    assert Handle(GotShut().c, CLOSE) == Accepted(Closed(GotShut().c), [], true);
    assert GotShut().sent + [] == GotShut().sent;
  }

  lemma DataArrives()
    ensures Act(Snap(GotGone(), false, EncodedObj(), false, [], [LATE]), OVERTAKEN[9]) == Crash(InvalidChannel)
  {
    Links(LATE, LATE);
  }

  lemma OvertakenSoFar(run: seq<Event>)
    requires run == OVERTAKEN
    ensures Exec(Init, run[..7]) == Next(Snap(GotShut(), true, AnsweredObj(), false, [], [CLOSE]))
  {
    Opened(run);
    Reserves();
    Then(run, 4, Snap(GotObj(), true, HeldObj(), true, [], []), Snap(GotObj(), true, TakenObj(), true, [], []));
    PeerCloses();
    Then(run, 5, Snap(GotObj(), true, TakenObj(), true, [], []),
         Snap(GotShut(), true, TakenObj(), true, [CLOSE], []));
    CloseIsAnswered();
    Then(run, 6, Snap(GotShut(), true, TakenObj(), true, [CLOSE], []),
         Snap(GotShut(), true, AnsweredObj(), false, [], [CLOSE]));
  }

  lemma OvertakenToTheEnd(run: seq<Event>)
    requires run == OVERTAKEN
    ensures Exec(Init, run[..9]) == Next(Snap(GotGone(), false, EncodedObj(), false, [], [LATE]))
  {
    OvertakenSoFar(run);
    Encodes();
    Then(run, 7, Snap(GotShut(), true, AnsweredObj(), false, [], [CLOSE]),
         Snap(GotShut(), true, EncodedObj(), false, [], [CLOSE, LATE]));
    AnswerArrives();
    Then(run, 8, Snap(GotShut(), true, EncodedObj(), false, [], [CLOSE, LATE]),
         Snap(GotGone(), false, EncodedObj(), false, [], [LATE]));
  }

  /** The session of a, whose application closed, ends with "invalid channel",
      although b's application never called Close. */
  lemma OvertakenWriteCrashesThePeer()
    ensures Exec(Init, OVERTAKEN) == Crash(InvalidChannel)
    ensures Event(false, Call(0, Shutdown)) !in OVERTAKEN
  {
    OvertakenToTheEnd(OVERTAKEN);
    DataArrives();
    assert |OVERTAKEN| == 10;
  }

  // ---- a CloseWrite inside a Write ----

  /** b's Write has passed its test when b's CloseWrite comes. */
  const CUT_SHORT: seq<Event> := CLOSE_THEN_WRITE[..4] + [
    Event(false, Call(0, Enter)), Event(false, Call(0, CloseWrite)), Event(false, Call(0, Write([7]))),
    Event(true, Deliver(true))]

  const MARK: Message := Message.EOF(0)

  function EnteredObj(): Obj {
    HeldObj().(writers := 1)
  }

  function MarkedObj(): Obj {
    EnteredObj().(sent := EnteredObj().sent + [MARK], eofAt := Some(0), c := EnteredObj().c.(sentEOF := true))
  }

  function TrailedObj(): Obj {
    MarkedObj().(written := [7], sent := MarkedObj().sent + [LATE],
      c := MarkedObj().c.(remoteWin := Credit(CHANNEL_WINDOW_SIZE - 1, false)))
  }

  function GotMark(): Obj {
    GotObj().(c := GotObj().c.(pendingClosed := true))
  }

  lemma Enters()
    ensures Act(Snap(GotObj(), true, HeldObj(), true, [], []), CUT_SHORT[4])
         == Next(Snap(GotObj(), true, EnteredObj(), true, [], []))
  {
    assert Do(HeldObj(), Enter) == Moved(EnteredObj(), []);
  }

  lemma EndsStream()
    ensures Act(Snap(GotObj(), true, EnteredObj(), true, [], []), CUT_SHORT[5])
         == Next(Snap(GotObj(), true, MarkedObj(), true, [], [MARK]))
  {
    Links(MARK, LATE);
    assert Do(EnteredObj(), CloseWrite) == Moved(MarkedObj(), [MARK]);
  }

  lemma WritesOn()
    ensures Act(Snap(GotObj(), true, MarkedObj(), true, [], [MARK]), CUT_SHORT[6])
         == Next(Snap(GotObj(), true, TrailedObj(), true, [], [MARK, LATE]))
  {
    Links(MARK, LATE);
    Links(LATE, LATE);
    assert [7][..1] == [7] && MarkedObj().written + [7] == [7];
    assert Do(MarkedObj(), Write([7])) == Moved(TrailedObj(), [LATE]);
  }

  lemma MarkArrives()
    ensures Act(Snap(GotObj(), true, TrailedObj(), true, [], [MARK, LATE]), CUT_SHORT[7])
         == Next(Snap(GotMark(), true, TrailedObj(), true, [], [LATE]))
  {
    Links(MARK, LATE);
    Links(LATE, LATE);
    assert Handle(GotObj().c, MARK) == Accepted(GotMark().c, [], false);
    assert GotObj().sent + [] == GotObj().sent;
  }

  lemma CutSoFar(run: seq<Event>)
    requires run == CUT_SHORT
    ensures Exec(Init, run[..6]) == Next(Snap(GotObj(), true, MarkedObj(), true, [], [MARK]))
  {
    Opened(run);
    Enters();
    Then(run, 4, Snap(GotObj(), true, HeldObj(), true, [], []), Snap(GotObj(), true, EnteredObj(), true, [], []));
    EndsStream();
    Then(run, 5, Snap(GotObj(), true, EnteredObj(), true, [], []),
         Snap(GotObj(), true, MarkedObj(), true, [], [MARK]));
  }

  lemma CutAfterSeven(run: seq<Event>)
    requires run == CUT_SHORT
    ensures Exec(Init, run[..7]) == Next(Snap(GotObj(), true, TrailedObj(), true, [], [MARK, LATE]))
  {
    CutSoFar(run);
    WritesOn();
    Then(run, 6, Snap(GotObj(), true, MarkedObj(), true, [], [MARK]),
         Snap(GotObj(), true, TrailedObj(), true, [], [MARK, LATE]));
  }

  lemma CutToTheEnd(run: seq<Event>)
    requires run == CUT_SHORT
    ensures Exec(Init, run[..8]) == Next(Snap(GotMark(), true, TrailedObj(), true, [], [LATE]))
  {
    CutAfterSeven(run);
    MarkArrives();
    Then(run, 7, Snap(GotObj(), true, TrailedObj(), true, [], [MARK, LATE]),
         Snap(GotMark(), true, TrailedObj(), true, [], [LATE]));
  }

  /** a's reader sees the end of the stream before the byte has arrived. */
  lemma EndComesTooSoon()
    ensures var r := Exec(Init, CUT_SHORT);
      && r.Next? && 0 in r.s.a.objs && 0 in r.s.b.objs && r.s.a.objs[0].owned
      && Guarantees.AtEnd(r.s.a.objs[0]) && r.s.a.objs[0].read == [] && r.s.b.objs[0].written == [7]
  {
    CutToTheEnd(CUT_SHORT);
    assert CUT_SHORT[..8] == CUT_SHORT;
  }

  // ---- a cancelled Open ----

  function Zeros(n: nat): (s: seq<Byte>)
    ensures |s| == n
  {
    if n == 0 then [] else Zeros(n - 1) + [0]
  }

  function Fill(): Event {
    Event(true, Call(0, Write(Zeros(CHANNEL_MAX_PACKET))))
  }

  /** b opens and gives up, a accepts, and a writes n full chunks. */
  function Filling(n: nat): seq<Event> {
    [Event(false, StartOpening), Event(true, Deliver(true)), Event(false, Call(0, Cancel))] + Repeat(Fill(), n)
  }

  /** a's channel after n chunks. */
  ghost predicate Filled(s: State, n: nat) {
    && n <= 64 && 0 in s.a.objs && 0 in s.b.objs
    && var o, d := s.a.objs[0], s.b.objs[0];
    && o.owned && o.c.direction == Inbound && !o.c.sentEOF && !o.c.sentClose && o.inHand == None
    && o.c.maxRemotePayload == CHANNEL_MAX_PACKET
    && o.c.remoteWin == Credit(CHANNEL_WINDOW_SIZE - n * CHANNEL_MAX_PACKET, false)
    && d.c.direction == Outbound && d.abandoned
  }

  lemma FillOnce(s: State, n: nat)
    requires n < 64 && Filled(s, n)
    ensures Act(s, Fill()).Next? && Filled(Act(s, Fill()).s, n + 1)
  {
    var o, data := s.a.objs[0], Zeros(CHANNEL_MAX_PACKET);
    assert data[..CHANNEL_MAX_PACKET] == data;
    assert ChunkSize(o.c, data) == Granted(CHANNEL_MAX_PACKET);
  }

  function GivenUp(): Obj {
    AskedObj().(abandoned := true)
  }

  lemma GivesUp()
    ensures Act(Stages()[2], Event(false, Call(0, Cancel)))
         == Next(Given())
  {
    assert Do(AskedObj(), Cancel) == Moved(GivenUp(), []);
    assert Stages()[2].ba + Tagged(0, []) == Stages()[2].ba;
  }

  lemma FillFirst(run: seq<Event>)
    requires run == Filling(0)
    ensures Exec(Init, run[..2]) == Next(Stages()[2])
  {
    assert run[..0] == [] && run[0] == CLOSE_THEN_WRITE[0] && run[1] == CLOSE_THEN_WRITE[1];
    Stage1();
    Then(run, 0, Stages()[0], Stages()[1]);
    Stage2();
    Then(run, 1, Stages()[1], Stages()[2]);
  }

  function Given(): State {
    Stages()[2].(b := Endpoint([Some(0)], map[0 := GivenUp()]))
  }

  lemma FillStart(run: seq<Event>)
    requires run == Filling(0)
    ensures Exec(Init, run) == Next(Given())
  {
    FillFirst(run);
    GivesUp();
    Then(run, 2, Stages()[2], Given());
    assert run[..3] == run;
  }

  lemma NothingFilled()
    ensures Filled(Given(), 0)
  {}

  lemma FillObeys()
    ensures Obedient(Init, Filling(0))
  {
    var run := Filling(0);
    ObeyMore(Init, [], run[0]);
    ObeyMore(Init, [run[0]], run[1]);
    ObeyMore(Init, [run[0]] + [run[1]], run[2]);
    assert run == [] + [run[0]] + [run[1]] + [run[2]];
  }

  lemma {:induction false} FillUp(n: nat)
    requires n <= 64
    ensures var r := Exec(Init, Filling(n)); r.Next? && Filled(r.s, n) && Obedient(Init, Filling(n))
  {
    if n == 0 {
      FillStart(Filling(0));
      NothingFilled();
      FillObeys();
    } else {
      FillUp(n - 1);
      var s := Exec(Init, Filling(n - 1)).s;
      FillOnce(s, n - 1);
      ExecMore(Init, Filling(n - 1), Fill());
      ObeyMore(Init, Filling(n - 1), Fill());
      assert Filling(n) == Filling(n - 1) + [Fill()];
    }
  }

  /** A writer does come to wait on a channel whose Open was cancelled. */
  lemma StrandedIsReached()
    ensures Exec(Init, Filling(64)).Next?
    ensures Guarantees.Reached(Filling(64), Exec(Init, Filling(64)).s)
    ensures Progress.Stranded(Exec(Init, Filling(64)).s, 0)
  {
    FillUp(64);
    assert CHANNEL_WINDOW_SIZE == 64 * CHANNEL_MAX_PACKET;
  }
}
