/** Two sessions in which one end writes after its own Close (module WriteRule): one
    that ends the peer's session, and one that puts the data into another channel. */
module LateWrites {
  import opened Wire
  import opened Window
  import opened Protocol
  import opened System

  /** b opens a channel, closes it, and writes one byte to it; a receives. */
  const CLOSE_THEN_WRITE: seq<Event> := [
    Event(false, StartOpening), Event(true, Deliver(true)), Event(false, Deliver(true)),
    Event(false, Call(0, OpenReturn)), Event(false, Call(0, Shutdown)), Event(false, Call(0, Write([7]))),
    Event(true, Deliver(true)), Event(true, Deliver(true))]

  function AskedObj(): Obj {
    NewObj(NewChan(0, Outbound), false, [OpenMessage(NewChan(0, Outbound))])
  }

  function GotObj(): Obj {
    Answered(0, OpenMessage(AskedObj().c), true)
  }

  function ConfirmMsg(): Message {
    Confirmation(GotObj().c)
  }

  function ConfirmedObj(): Obj {
    AskedObj().(c := AskedObj().c.(msg := [ConfirmMsg()], maxRemotePayload := CHANNEL_MAX_PACKET,
      remoteWin := Credit(CHANNEL_WINDOW_SIZE, false)))
  }

  function HeldObj(): Obj {
    ConfirmedObj().(owned := true, c := ConfirmedObj().c.(msg := []))
  }

  const CLOSE: Message := Message.Close(0)
  const LATE: Message := Message.Data(0, 1, [7])

  function ShutObj(): Obj {
    HeldObj().(sent := HeldObj().sent + [CLOSE], c := HeldObj().c.(sentClose := true))
  }

  function WroteObj(): Obj {
    ShutObj().(written := [7], sent := ShutObj().sent + [LATE],
      c := ShutObj().c.(remoteWin := Credit(CHANNEL_WINDOW_SIZE - 1, false)))
  }

  function GoneObj(): Obj {
    GotObj().(c := Closed(GotObj().c), sent := GotObj().sent + [CLOSE])
  }

  function Stage(a: Endpoint, b: Obj, ab: seq<Message>, ba: seq<Message>): State {
    State(a, Endpoint([Some(0)], map[0 := b]), Tagged(0, ab), Tagged(0, ba), 1)
  }

  function AtA(): Endpoint {
    Endpoint([Some(0)], map[0 := GotObj()])
  }

  function Stages(): seq<State> {
    [
      Init,
      Stage(Endpoint([], map[]), AskedObj(), [], [OpenMessage(AskedObj().c)]),
      Stage(AtA(), AskedObj(), [ConfirmMsg()], []),
      Stage(AtA(), ConfirmedObj(), [], []),
      Stage(AtA(), HeldObj(), [], []),
      Stage(AtA(), ShutObj(), [], [CLOSE]),
      Stage(AtA(), WroteObj(), [], [CLOSE, LATE]),
      Stage(Endpoint([None], map[0 := GoneObj()]), WroteObj(), [CLOSE], [LATE])]
  }

  lemma Links(m: Message, m': Message)
    ensures Tagged(0, [m]) == [Frame(0, m)]
    ensures Tagged(0, [m, m']) == [Frame(0, m), Frame(0, m')]
  {
    assert Tagged(0, [m'] ) == [Frame(0, m')] + Tagged(0, [m'][1..]);
    assert [m, m'][1..] == [m'];
  }

  lemma Stage1()
    ensures Act(Stages()[0], CLOSE_THEN_WRITE[0]) == Next(Stages()[1])
  {
    Links(OpenMessage(AskedObj().c), CLOSE);
  }

  lemma Stage2()
    ensures Act(Stages()[1], CLOSE_THEN_WRITE[1]) == Next(Stages()[2])
  {
    Links(OpenMessage(AskedObj().c), CLOSE);
    Links(ConfirmMsg(), CLOSE);
  }

  lemma Stage3()
    ensures Act(Stages()[2], CLOSE_THEN_WRITE[2]) == Next(Stages()[3])
  {
    Links(ConfirmMsg(), CLOSE);
    var h := Handle(AskedObj().c, ConfirmMsg());
    assert h == Accepted(ConfirmedObj().c, [], false) by { assert AskedObj().c.msg + [ConfirmMsg()] == [ConfirmMsg()]; }
    assert AskedObj().(c := h.c, sent := AskedObj().sent + []) == ConfirmedObj();
  }

  lemma Stage4()
    ensures Act(Stages()[3], CLOSE_THEN_WRITE[3]) == Next(Stages()[4])
  {
    assert [ConfirmMsg()][1..] == [];
    assert Do(ConfirmedObj(), OpenReturn) == Moved(HeldObj(), []);
  }

  lemma Stage5()
    ensures Act(Stages()[4], CLOSE_THEN_WRITE[4]) == Next(Stages()[5])
  {
    Links(CLOSE, LATE);
  }

  lemma Stage6()
    ensures Act(Stages()[5], CLOSE_THEN_WRITE[5]) == Next(Stages()[6])
  {
    Links(CLOSE, LATE);
    Links(LATE, LATE);
    assert [7][..1] == [7] && ShutObj().written + [7] == [7];
    assert Do(ShutObj(), Write([7])) == Moved(WroteObj(), [LATE]);
  }

  lemma Stage7()
    ensures Act(Stages()[6], CLOSE_THEN_WRITE[6]) == Next(Stages()[7])
  {
    Links(CLOSE, LATE);
    Links(LATE, LATE);
  }

  lemma Stage8()
    ensures Act(Stages()[7], CLOSE_THEN_WRITE[7]) == Crash(InvalidChannel)
  {
    Links(LATE, LATE);
  }

  lemma Then(run: seq<Event>, k: nat, s: State, t: State)
    requires k < |run| && Exec(Init, run[..k]) == Next(s) && Act(s, run[k]) == Next(t)
    ensures Exec(Init, run[..k + 1]) == Next(t)
  {
    assert run[..k + 1][..k] == run[..k];
  }

  lemma FirstFour(run: seq<Event>)
    requires |run| >= 4 && forall i :: 0 <= i < 4 ==> run[i] == CLOSE_THEN_WRITE[i]
    ensures Exec(Init, run[..4]) == Next(Stages()[4])
  {
    Stage1();
    Then(run, 0, Stages()[0], Stages()[1]);
    Stage2();
    Then(run, 1, Stages()[1], Stages()[2]);
    Stage3();
    Then(run, 2, Stages()[2], Stages()[3]);
    Stage4();
    Then(run, 3, Stages()[3], Stages()[4]);
  }

  lemma FirstSeven(run: seq<Event>)
    requires |run| >= 7 && forall i :: 0 <= i < 7 ==> run[i] == CLOSE_THEN_WRITE[i]
    ensures Exec(Init, run[..7]) == Next(Stages()[7])
  {
    FirstFour(run);
    Stage5();
    Then(run, 4, Stages()[4], Stages()[5]);
    Stage6();
    Then(run, 5, Stages()[5], Stages()[6]);
    Stage7();
    Then(run, 6, Stages()[6], Stages()[7]);
  }

  /** The peer's session then ends with "invalid channel". */
  lemma CloseThenWriteCrashesThePeer()
    ensures Exec(Init, CLOSE_THEN_WRITE) == Crash(InvalidChannel)
  {
    FirstSeven(CLOSE_THEN_WRITE);
    Stage8();
    assert CLOSE_THEN_WRITE[..8] == CLOSE_THEN_WRITE;
  }

  // ---- and one that it corrupts ----

  /** The same, but a opens a channel of its own before the data arrives: the
      byte is delivered to that channel, which b does not even know yet. */
  const CLOSE_WRITE_REUSE: seq<Event> :=
    CLOSE_THEN_WRITE[..7] + [Event(true, StartOpening), Event(true, Deliver(true))]

  function Reused(): State {
    Stages()[7].(a := Endpoint([Some(1)], map[0 := GoneObj(), 1 := AskedObj()]),
      ab := [Frame(0, CLOSE), Frame(1, OpenMessage(AskedObj().c))], next := 2)
  }

  lemma ReuseId()
    ensures Act(Stages()[7], Event(true, StartOpening)) == Next(Reused())
  {
    Links(CLOSE, LATE);
    var out := [OpenMessage(AskedObj().c)];
    assert Tagged(1, out) == [Frame(1, out[0])] + Tagged(1, out[1..]);
  }

  lemma DeliverToReused()
    ensures var r := Act(Reused(), Event(true, Deliver(true)));
      && r.Next? && 1 in r.s.a.objs && 1 !in r.s.b.objs && r.s.a.objs[1].c.pending == [7]
  {
    Links(LATE, LATE);
    assert AskedObj().c.pending + [7] == [7];
    assert Handle(AskedObj().c, LATE).Accepted?;
  }

  lemma ReusedAfterEight(run: seq<Event>)
    requires run == CLOSE_WRITE_REUSE
    ensures |run| == 9 && Exec(Init, run[..8]) == Next(Reused()) && run[8] == Event(true, Deliver(true))
  {
    FirstSeven(run);
    ReuseId();
    Then(run, 7, Stages()[7], Reused());
  }

  lemma ExecLast(run: seq<Event>, s: State)
    requires run != [] && Exec(Init, run[..|run| - 1]) == Next(s) && Act(s, run[|run| - 1]).Next?
    ensures Exec(Init, run) == Act(s, run[|run| - 1])
  {}

  lemma LateDataReachesAnotherChannel()
    ensures var r := Exec(Init, CLOSE_WRITE_REUSE);
      && r.Next? && 1 in r.s.a.objs && 1 !in r.s.b.objs && r.s.a.objs[1].c.pending == [7]
  {
    ReusedAfterEight(CLOSE_WRITE_REUSE);
    DeliverToReused();
    ExecLast(CLOSE_WRITE_REUSE, Reused());
  }
}
