/** One RPC exchange (rpc/client.go, rpc/rpc.go, rpc/server.go) over a channel of
    framed values. */
module RpcCall {
  import opened Wire
  import RpcFrame
  import Router
  import Protocol
  import System
  import Guarantees
  import WriteRule

  /** What a handler may return: nil, an error, or any other value. */
  datatype Any<V> = Nil | Failure(text: string) | Plain(v: V)

  /** What travels on the channel, one frame each. */
  datatype Item<V> =
    | CallHeader(selector: string)
    | ResponseHeader(error: Option<string>, continue_: bool)
    | Value(v: Any<V>)

  function Values<V>(vs: seq<Any<V>>): (items: seq<Item<V>>)
    ensures |items| == |vs|
  {
    if vs == [] then [] else [Value(vs[0])] + Values(vs[1..])
  }

  lemma Associates<T>(a: seq<T>, b: seq<T>, c: seq<T>)
    ensures a + (b + c) == a + b + c
  {}

  lemma {:induction false} ValuesAppend<V>(vs: seq<Any<V>>, ws: seq<Any<V>>)
    ensures Values(vs + ws) == Values(vs) + Values(ws)
  {
    if vs == [] {
      assert vs + ws == ws;
    } else {
      ValuesAppend(vs[1..], ws);
      assert (vs + ws)[0] == vs[0] && (vs + ws)[1..] == vs[1..] + ws;
      Associates([Value(vs[0])], Values(vs[1..]), Values(ws));
    }
  }

  lemma {:induction false} NoHeaders<V>(vs: seq<Any<V>>)
    ensures forall i :: 0 <= i < |vs| ==> Values(vs)[i].Value?
  {
    if vs != [] { NoHeaders(vs[1..]); }
  }

  lemma {:induction false} ValuesAt<V>(vs: seq<Any<V>>, i: nat)
    requires i < |vs|
    ensures Values(vs)[i] == Value(vs[i])
  {
    if i > 0 { ValuesAt(vs[1..], i - 1); }
  }

  lemma ValuesSnoc<V>(vs: seq<Any<V>>, i: nat)
    requires i < |vs|
    ensures Values(vs[..i + 1]) == Values(vs[..i]) + [Value(vs[i])]
  {
    ValuesAppend(vs[..i], [vs[i]]);
    assert vs[..i + 1] == vs[..i] + [vs[i]];
  }

  // ---- the responding side ----

  datatype Reply<V> = Return(vs: seq<Any<V>>) | Continue(vs: seq<Any<V>>) | Send(v: Any<V>)

  /** A responder: its flag, its header, what it has written, and how much of
      that it had written when it first closed the channel. */
  datatype Side<V> = Side(
    responded: bool,
    error: Option<string>,
    continue_: bool,
    out: seq<Item<V>>,
    closedAt: Option<nat>)

  predicate SingleError<V>(vs: seq<Any<V>>) {
    |vs| == 1 && vs[0].Failure?
  }

  /** The values that follow the header: a single error travels in the header
      and leaves a nil in its place; no value at all becomes one nil. */
  function Outgoing<V>(vs: seq<Any<V>>): (r: seq<Any<V>>)
    ensures |r| == AtLeastOne(|vs|)
  {
    if SingleError(vs) || vs == [] then [Nil] else vs
  }

  function AtLeastOne(n: nat): nat { if n == 0 then 1 else n }

  /** The header, then the values. */
  function Response<V>(error: Option<string>, continue_: bool, vs: seq<Any<V>>): (r: seq<Item<V>>)
    ensures |r| == 1 + AtLeastOne(|vs|)
  {
    [ResponseHeader(error, continue_)] + Values(Outgoing(vs))
  }

  /** The channel's Close: the first one counts. */
  function Closing<V>(s: Side<V>): Side<V> {
    if s.closedAt == None then s.(closedAt := Some(|s.out|)) else s
  }

  function Responded<V>(s: Side<V>, vs: seq<Any<V>>, continue_: bool): Side<V> {
    var error := if SingleError(vs) then Some(vs[0].text) else s.error;
    var t := Side(true, error, continue_, s.out + Response(error, continue_, vs), s.closedAt);
    if continue_ then t else Closing(t)
  }

  function Perform<V>(s: Side<V>, r: Reply<V>): Side<V> {
    match r
    case Return(vs) => Responded(s, vs, false)
    case Continue(vs) => Responded(s, vs, true)
    case Send(v) => s.(out := s.out + [Value(v)])
  }

  function PerformAll<V>(s: Side<V>, rs: seq<Reply<V>>): Side<V> {
    if rs == [] then s else Perform(PerformAll(s, rs[..|rs| - 1]), rs[|rs| - 1])
  }

  function Fresh<V>(): Side<V> { Side(false, None, false, [], None) }

  /** Server.respond around a handler that makes the calls rs. */
  function Serve<V>(rs: seq<Reply<V>>): Side<V> {
    var s := PerformAll(Fresh(), rs);
    var t := if s.responded then s else Responded(s, [], false);
    if t.continue_ then t else Closing(t)
  }

  // ---- the calling side ----

  /** What call returns, with what it has left unread on the channel. */
  datatype Answer<V> =
    | Replies(got: seq<Item<V>>, continue_: bool, rest: seq<Item<V>>)
    | RemoteError(text: string, continue_: bool, rest: seq<Item<V>>)
    | Short(continue_: bool)
    | NoHeader

  /** asked counts the reply targets; 0 also stands for a single nil target. One
      value is then read and thrown away, and failing to read it is not an error. */
  function Receive<V>(items: seq<Item<V>>, asked: nat): Answer<V> {
    if items == [] || !items[0].ResponseHeader? then NoHeader
    else
      var h, rest := items[0], items[1..];
      match h.error
      case Some(text) => RemoteError(text, h.continue_, rest)
      case None =>
        if asked == 0 then Replies([], h.continue_, if rest == [] then [] else rest[1..])
        else if |rest| < asked then Short(h.continue_)
        else Replies(rest[..asked], h.continue_, rest[asked..])
  }

  /** What call makes of what it decodes: without a header, nothing; with an error, the
      error; else the values it asked for, one by one and in order, or too few. */
  lemma ReceiveMeans<V>(items: seq<Item<V>>, asked: nat)
    ensures Receive(items, asked) == NoHeader <==> items == [] || !items[0].ResponseHeader?
    ensures items != [] && items[0].ResponseHeader? && items[0].error.Some? ==>
      Receive(items, asked) == RemoteError(items[0].error.value, items[0].continue_, items[1..])
    ensures items != [] && items[0].ResponseHeader? && items[0].error == None ==>
      var r := Receive(items, asked);
      && (r.Short? <==> |items| < 1 + asked) && (r.Replies? <==> |items| >= 1 + asked)
      && r.continue_ == items[0].continue_
      && (r.Replies? ==>
            && |r.got| == asked && (forall i :: 0 <= i < asked ==> r.got[i] == items[1 + i])
            && (asked > 0 ==> r.rest == items[1 + asked..])
            && (asked == 0 ==> r.rest == if |items| == 1 then [] else items[2..]))
  {}

  // ---- agreement ----

  lemma ReceiveSplits<V>(error: Option<string>, continue_: bool, body: seq<Item<V>>, tail: seq<Item<V>>)
    requires error == None && body != []
    ensures Receive([ResponseHeader(error, continue_)] + body + tail, |body|) == Replies(body, continue_, tail)
  {
    var items := [ResponseHeader(error, continue_)] + body + tail;
    assert items[1..] == body + tail;
  }

  function ErrorOf<V>(vs: seq<Any<V>>): Option<string> {
    if SingleError(vs) then Some(vs[0].text) else None
  }

  /** What a handler sends that answers vs with Return, or answers vs with Continue
      and then makes the sends. */
  function Exchange<V>(vs: seq<Any<V>>, continue_: bool, sends: seq<Any<V>>): (r: seq<Item<V>>)
    requires continue_ || sends == []
    ensures |r| == 1 + AtLeastOne(|vs|) + |sends|
  {
    Response(ErrorOf(vs), continue_, vs) + Values(sends)
  }

  /** Those items, one by one: the header with the error, if there is one, and the
      flag; the values, or one nil; the sends. */
  lemma ExchangeMeans<V>(vs: seq<Any<V>>, continue_: bool, sends: seq<Any<V>>)
    requires continue_ || sends == []
    ensures var out, n := Exchange(vs, continue_, sends), if vs == [] then 1 else |vs|;
      && |out| == 1 + n + |sends|
      && out[0] == ResponseHeader(if |vs| == 1 && vs[0].Failure? then Some(vs[0].text) else None, continue_)
      && (vs == [] || (|vs| == 1 && vs[0].Failure?) ==> out[1] == Value(Nil))
      && (!(|vs| == 1 && vs[0].Failure?) ==> forall i :: 0 <= i < |vs| ==> out[1 + i] == Value(vs[i]))
      && forall i :: 0 <= i < |sends| ==> out[1 + n + i] == Value(sends[i])
  {
    var n := if vs == [] then 1 else |vs|;
    forall i | 0 <= i < n ensures Exchange(vs, continue_, sends)[1 + i] == Value(Outgoing(vs)[i]) {
      ValuesAt(Outgoing(vs), i);
    }
    forall i | 0 <= i < |sends| ensures Exchange(vs, continue_, sends)[1 + n + i] == Value(sends[i]) {
      ValuesAt(sends, i);
    }
  }

  /** A caller asking for as many replies as there are values gets exactly those, a
      nil standing for none; after Continue, its next Receive gets the first send. */
  lemma ValuesAgree<V>(vs: seq<Any<V>>, continue_: bool, sends: seq<Any<V>>)
    requires !SingleError(vs) && (continue_ || sends == [])
    ensures Receive(Exchange(vs, continue_, sends), AtLeastOne(|vs|))
            == Replies(Values(if vs == [] then [Nil] else vs), continue_, Values(sends))
  {
    ReceiveSplits(None, continue_, Values(Outgoing(vs)), Values(sends));
  }

  /** A handler that never answers yields a nil reply and a closed channel. */
  lemma SilenceIsNil<V>()
    ensures Serve<V>([]).closedAt == Some(2)
    ensures Receive(Serve<V>([]).out, 1) == Replies([Value(Nil)], false, [])
    ensures Receive(Serve<V>([]).out, 0) == Replies([], false, [])
  {
    var items := Serve<V>([]).out;
    assert Values<V>([Nil]) == [Value(Nil)];
    assert items == [ResponseHeader(None, false), Value(Nil)];
    assert items[1..] == [Value(Nil)] && items[1..][..1] == [Value(Nil)];
  }

  /** A single error arrives as RemoteError with the same text, whatever was
      asked for; its nil stays unread. */
  lemma ErrorsAgree<V>(text: string, continue_: bool, sends: seq<Any<V>>, asked: nat)
    requires continue_ || sends == []
    ensures Receive(Exchange([Failure(text)], continue_, sends), asked)
            == RemoteError(text, continue_, [Value(Nil)] + Values(sends))
  {
    var h: Item<V> := ResponseHeader(Some(text), continue_);
    assert Values<V>([Nil]) == [Value(Nil)];
    assert Exchange([Failure(text)], continue_, sends) == [h] + ([Value(Nil)] + Values(sends));
  }

  /** The call has returned without error and everything unread is what the
      handler sent after its response. */
  ghost predicate Aligned<V>(vs: seq<Any<V>>, sends: seq<Any<V>>, asked: nat) {
    var r := Receive(Exchange(vs, true, sends), asked);
    r.Replies? && r.rest == Values(sends)
  }

  lemma RestLength<V>(continue_: bool, body: seq<Item<V>>, tail: seq<Item<V>>, asked: nat)
    requires body != []
    ensures var r := Receive([ResponseHeader(None, continue_)] + body + tail, asked);
      r.Replies? && r.rest == tail <==> AtLeastOne(asked) == |body|
  {
    var items := [ResponseHeader(None, continue_)] + body + tail;
    assert items[1..] == body + tail;
    var k := AtLeastOne(asked);
    if k == |body| {
      assert items[1..][k..] == tail;
    } else if k <= |body + tail| {
      assert |items[1..][k..]| != |tail|;
    }
  }

  /** After Continue the two ends are in step exactly when the response was not a
      single error and the caller asked for as many values as were sent, counting
      none as one on both sides. */
  lemma AlignedIff<V>(vs: seq<Any<V>>, sends: seq<Any<V>>, asked: nat)
    ensures Aligned(vs, sends, asked) <==> !SingleError(vs) && AtLeastOne(asked) == AtLeastOne(|vs|)
  {
    if SingleError(vs) {
      ErrorsAgree(vs[0].text, true, sends, asked);
      assert vs == [Failure(vs[0].text)];
    } else {
      RestLength(true, Values(Outgoing(vs)), Values(sends), asked);
    }
  }

  /** An error set by one response stays in the header of every later one. */
  lemma {:induction false} ErrorsStick<V>(s: Side<V>, rs: seq<Reply<V>>)
    requires s.error.Some?
    ensures PerformAll(s, rs).error.Some?
    ensures forall i :: |s.out| <= i < |PerformAll(s, rs).out| && PerformAll(s, rs).out[i].ResponseHeader? ==>
      PerformAll(s, rs).out[i].error.Some?
    ensures |s.out| <= |PerformAll(s, rs).out|
  {
    if rs != [] {
      var last := rs[|rs| - 1];
      ErrorsStick(s, rs[..|rs| - 1]);
      if !last.Send? { NoHeaders(Outgoing(last.vs)); }
    }
  }

  // ---- closing ----

  /** What the handler wrote after the server's Close. */
  predicate WritesLate<V>(s: Side<V>) {
    s.closedAt.Some? && s.closedAt.value < |s.out|
  }

  /** The channel is left open if and only if the handler continued and never
      returned. */
  lemma ClosedUnlessContinued<V>(rs: seq<Reply<V>>)
    ensures Serve(rs).closedAt == None <==>
      (exists i :: 0 <= i < |rs| && rs[i].Continue?) && forall i :: 0 <= i < |rs| ==> !rs[i].Return?
  {
    CloseRule(rs);
  }

  lemma {:induction false} CloseRule<V>(rs: seq<Reply<V>>)
    ensures var s := PerformAll(Fresh(), rs);
      && (s.closedAt.Some? <==> exists i :: 0 <= i < |rs| && rs[i].Return?)
      && (s.closedAt.Some? ==> s.closedAt.value <= |s.out|)
      && (s.responded <==> exists i :: 0 <= i < |rs| && !rs[i].Send?)
      && (s.closedAt == None && s.responded ==> s.continue_)
      && (!s.responded ==> !s.continue_)
  {
    if rs != [] {
      var before, last := rs[..|rs| - 1], rs[|rs| - 1];
      CloseRule(before);
      assert forall i :: 0 <= i < |before| ==> before[i] == rs[i];
      assert forall i :: 0 <= i < |rs| ==> rs[i] == if i < |before| then before[i] else last;
    }
  }

  /** Something is written behind the server's Close exactly when the handler makes
      any call at all after a Return. */
  lemma LateIffAfterReturn<V>(rs: seq<Reply<V>>)
    ensures WritesLate(Serve(rs)) <==> exists i :: 0 <= i < |rs| - 1 && rs[i].Return?
  {
    CloseRule(rs);
    if rs != [] {
      var before, last := rs[..|rs| - 1], rs[|rs| - 1];
      CloseRule(before);
      assert forall i :: 0 <= i < |before| ==> before[i] == rs[i];
      assert |PerformAll(Fresh(), rs).out| > |PerformAll(Fresh(), before).out|;
    }
  }

  lemma ReturnThenMore<V>(v: V, w: V)
    ensures var s := Serve([Return([Plain(v)]), Send(Plain(w))]);
      s.closedAt == Some(2) && |s.out| == 3 && s.out[2] == Value(Plain(w))
    ensures var s := Serve([Return([Plain(v)]), Return([Plain(w)])]);
      s.closedAt == Some(2) && |s.out| == 4 && s.out[2].ResponseHeader?
  {
    PerformTwo(Return([Plain(v)]), Send(Plain(w)));
    PerformTwo(Return([Plain(v)]), Return([Plain(w)]));
  }

  lemma PerformTwo<V>(first: Reply<V>, last: Reply<V>)
    ensures PerformAll(Fresh(), [first, last]) == Perform(Perform(Fresh(), first), last)
  {
    assert [first][..0] == [];
    assert PerformAll(Fresh(), [first]) == Perform(Fresh(), first);
    assert [first, last][..1] == [first];
  }

  /** What reaches the caller: what was written before the server's Close. */
  function Delivered<V>(s: Side<V>): seq<Item<V>> {
    if s.closedAt.Some? && s.closedAt.value <= |s.out| then s.out[..s.closedAt.value] else s.out
  }

  lemma {:induction false} CloseStays<V>(s: Side<V>, rs: seq<Reply<V>>)
    requires s.closedAt.Some?
    ensures PerformAll(s, rs).closedAt == s.closedAt && s.out <= PerformAll(s, rs).out
    ensures s.responded ==> PerformAll(s, rs).responded
  {
    if rs != [] { CloseStays(s, rs[..|rs| - 1]); }
  }

  /** The first Return ends the exchange: whatever the handler does after it, the
      caller is sent what had been written by then. */
  lemma ReturnEndsTheExchange<V>(before: seq<Reply<V>>, vs: seq<Any<V>>, after: seq<Reply<V>>)
    requires forall i :: 0 <= i < |before| ==> !before[i].Return?
    ensures Delivered(Serve(before + [Return(vs)] + after)) == PerformAll(Fresh(), before + [Return(vs)]).out
  {
    var t := FirstReturn(before, vs);
    PerformAllAppend(Fresh(), before + [Return(vs)], after);
    CloseStays(t, after);
    ServeKeepsClose(before + [Return(vs)] + after);
  }

  lemma FirstReturn<V>(before: seq<Reply<V>>, vs: seq<Any<V>>) returns (t: Side<V>)
    requires forall i :: 0 <= i < |before| ==> !before[i].Return?
    ensures t == PerformAll(Fresh(), before + [Return(vs)]) && t.responded && t.closedAt == Some(|t.out|)
  {
    CloseRule(before);
    assert (before + [Return(vs)])[..|before|] == before;
    t := Perform(PerformAll(Fresh(), before), Return(vs));
  }

  lemma ServeKeepsClose<V>(rs: seq<Reply<V>>)
    requires PerformAll(Fresh(), rs).responded && PerformAll(Fresh(), rs).closedAt.Some?
    ensures Serve(rs) == PerformAll(Fresh(), rs)
  {}

  /** On the channel: the server, here b, has closed it and still has credit. The
      next value it sends breaks the caller's session, in one of the ways module
      WriteRule describes. */
  lemma SendBehindCloseBreaksTheCaller<V>(
    run: seq<System.Event>, s: System.State, k: nat, c: RpcFrame.Codec<Item<V>>, item: Item<V>)
    requires Guarantees.Reached(run, s) && k in s.b.objs && s.b.objs[k].owned && c.enc(item).Some?
    requires var ch := s.b.objs[k].c; ch.sentClose && !ch.sentEOF && ch.remoteWin.win > 0 && !ch.remoteWin.closed
    ensures var data := RpcFrame.Frame(c.enc(item).value);
      && WriteRule.SendsLate(s, k, Protocol.Write(data))
      && WriteRule.Called(s, k, Protocol.Write(data)).Next?
      && !WriteRule.Safe(WriteRule.Called(s, k, Protocol.Write(data)).s)
  {
    var data := RpcFrame.Frame(c.enc(item).value);
    assert |data| >= 4;
    Guarantees.ReachedInv(run, s);
    WriteRule.WriteIsSafeIffNotClosed(s, k, Protocol.Write(data));
  }

  // ---- the whole call ----

  function Sends<V>(vs: seq<Any<V>>): (rs: seq<Reply<V>>)
    ensures |rs| == |vs|
  {
    seq(|vs|, i requires 0 <= i < |vs| => Send(vs[i]))
  }

  lemma {:induction false} SendsFollow<V>(s: Side<V>, sends: seq<Any<V>>)
    ensures PerformAll(s, Sends(sends)) == s.(out := s.out + Values(sends))
  {
    if sends == [] {
      assert s.out + Values(sends) == s.out;
    } else {
      var n := |sends| - 1;
      SendsFollow(s, sends[..n]);
      assert Sends(sends)[..n] == Sends(sends[..n]);
      ValuesSnoc(sends, n);
      assert sends[..n + 1] == sends;
    }
  }

  lemma {:induction false} PerformAllAppend<V>(s: Side<V>, before: seq<Reply<V>>, after: seq<Reply<V>>)
    ensures PerformAll(s, before + after) == PerformAll(PerformAll(s, before), after)
  {
    if after == [] {
      assert before + after == before;
    } else {
      var n := |after| - 1;
      PerformAllAppend(s, before, after[..n]);
      assert (before + after)[..|before| + n] == before + after[..n];
    }
  }

  /** Server.respond emits that exchange and nothing else, and closes right after
      it unless the handler continued. */
  lemma ServeEmits<V>(vs: seq<Any<V>>, continue_: bool, sends: seq<Any<V>>)
    requires continue_ || sends == []
    ensures var first := if continue_ then Continue(vs) else Return(vs);
      var s := Serve([first] + Sends(sends));
      && s.out == Exchange(vs, continue_, sends)
      && s.closedAt == (if continue_ then None else Some(|s.out|)) && !WritesLate(s)
  {
    var first := if continue_ then Continue(vs) else Return(vs);
    PerformAllAppend(Fresh(), [first], Sends(sends));
    assert [first][..0] == [];
    var s := Responded(Fresh(), vs, continue_);
    assert PerformAll(Fresh(), [first]) == s;
    SendsFollow(s, sends);
    assert s.out == Response(ErrorOf(vs), continue_, vs);
    if !continue_ { assert s.out + Values(sends) == s.out; }
  }

  /** The complete frames that the client has read so far, decoded. */
  ghost predicate HasDecoded<V(!new)>(c: RpcFrame.Codec<Item<V>>, read: seq<Byte>, items: seq<Item<V>>) {
    RpcFrame.Inner(c, RpcFrame.Complete(read)) == RpcFrame.Somes(items)
  }

  lemma DecodesPrefix<V(!new)>(c: RpcFrame.Codec<Item<V>>, out: seq<Item<V>>, seen: seq<seq<Byte>>)
    requires RpcFrame.Inverts(c) && RpcFrame.Encodable(c, out) && seen <= RpcFrame.Bodies(c, out)
    ensures RpcFrame.Inner(c, seen) == RpcFrame.Somes(out[..|seen|])
  {
    RpcFrame.InnerOfBodies(c, out[..|seen|]);
    assert seen == RpcFrame.Bodies(c, out[..|seen|]);
  }

  lemma ItemsOverChannel<V(!new)>(
    run: seq<System.Event>, s: System.State, k: nat, c: RpcFrame.Codec<Item<V>>, out: seq<Item<V>>)
    requires Guarantees.Reached(run, s) && Guarantees.Established(s, k) && RpcFrame.Inverts(c)
    requires RpcFrame.Encodable(c, out) && s.a.objs[k].written <= RpcFrame.Frames(RpcFrame.Bodies(c, out))
    ensures var x, y := s.a.objs[k], s.b.objs[k];
      var n := |RpcFrame.Complete(y.read)|;
      && n <= |out| && HasDecoded(c, y.read, out[..n])
      && (Guarantees.AtEnd(y) ==> n >= |RpcFrame.Complete(Guarantees.BeforeEof(x))|)
  {
    RpcFrame.FramesOverChannel(run, s, k, RpcFrame.Bodies(c, out));
    DecodesPrefix(c, out, RpcFrame.Complete(s.b.objs[k].read));
  }

  /** call's request: the header, then the argument or the streamed arguments. */
  ghost predicate IsRequest<V>(out: seq<Item<V>>, selector: string, args: seq<Any<V>>) {
    && |out| == 1 + |args| && out[0] == CallHeader(selector)
    && forall i :: 0 <= i < |args| ==> out[i + 1] == Value(args[i])
  }

  /** The request over a mux channel, which a is writing: at any moment of any run
      the server has decoded nothing, or the caller's selector followed by the
      arguments that have arrived, in order; and every mux routes the selector it
      decoded, once cleaned, as it routes the caller's. */
  lemma RequestOverChannel<V(!new)>(
    run: seq<System.Event>, s: System.State, k: nat, c: RpcFrame.Codec<Item<V>>,
    selector: string, args: seq<Any<V>>, out: seq<Item<V>>)
    requires Guarantees.Reached(run, s) && Guarantees.Established(s, k) && RpcFrame.Inverts(c)
    requires IsRequest(out, selector, args) && RpcFrame.Encodable(c, out)
    requires s.a.objs[k].written <= RpcFrame.Frames(RpcFrame.Bodies(c, out))
    ensures var got := RpcFrame.Inner(c, RpcFrame.Complete(s.b.objs[k].read));
      && |got| <= 1 + |args|
      && (|got| > 0 ==> got[0] == Some(CallHeader(selector)))
      && (forall i :: 0 <= i && i + 1 < |got| ==> got[i + 1] == Some(Value(args[i])))
      && (|got| > 0 ==> forall mux ::
            Router.MatchLevel(mux, Router.Clean(got[0].value.selector)) == Router.MatchLevel(mux, selector))
  {
    ItemsOverChannel(run, s, k, c, out);
    var n := |RpcFrame.Complete(s.b.objs[k].read)|;
    RpcFrame.SomesAt(out[..n]);
    forall mux ensures Router.MatchLevel(mux, Router.Clean(selector)) == Router.MatchLevel(mux, selector) {
      RoutingIgnoresSpelling(mux, selector);
    }
  }

  /** A call over a mux channel. The server, a, is writing the response Return(vs),
      or Continue(vs) and then the values sends; the client, b, has read what has
      reached it. At any moment of any run of the session, as soon as enough frames
      have arrived, the caller gets exactly the values, or the error, and what it
      can receive next is the sends that have arrived, in order. When it sees the
      end of the stream, it has all that the server had finished writing by then. */
  lemma CallOverChannel<V(!new)>(
    run: seq<System.Event>, s: System.State, k: nat, c: RpcFrame.Codec<Item<V>>,
    vs: seq<Any<V>>, continue_: bool, sends: seq<Any<V>>)
    requires Guarantees.Reached(run, s) && Guarantees.Established(s, k) && RpcFrame.Inverts(c)
    requires continue_ || sends == []
    requires var out := Exchange(vs, continue_, sends);
      RpcFrame.Encodable(c, out) && s.a.objs[k].written <= RpcFrame.Frames(RpcFrame.Bodies(c, out))
    ensures var out, x, y := Exchange(vs, continue_, sends), s.a.objs[k], s.b.objs[k];
      var n := |RpcFrame.Complete(y.read)|;
      && n <= |out| && HasDecoded(c, y.read, out[..n])
      && (Guarantees.AtEnd(y) ==> n >= |RpcFrame.Complete(Guarantees.BeforeEof(x))|)
    ensures AnswerSoFar(vs, continue_, sends, |RpcFrame.Complete(s.b.objs[k].read)|)
  {
    ItemsOverChannel(run, s, k, c, Exchange(vs, continue_, sends));
    AnswerFromPrefix(vs, continue_, sends, |RpcFrame.Complete(s.b.objs[k].read)|);
  }

  /** What call makes of the first n items of the exchange: the error, whatever was
      asked for, from the first item on; or the values, once they are there. */
  ghost predicate AnswerSoFar<V>(vs: seq<Any<V>>, continue_: bool, sends: seq<Any<V>>, n: nat)
    requires continue_ || sends == []
  {
    var out, k := Exchange(vs, continue_, sends), AtLeastOne(|vs|);
    && n <= |out|
    && (SingleError(vs) && n > 0 ==> forall asked ::
          Receive(out[..n], asked) == RemoteError(vs[0].text, continue_, out[..n][1..]))
    && (!SingleError(vs) && n > k ==>
          Receive(out[..n], k)
          == Replies(Values(if vs == [] then [Nil] else vs), continue_, Values(sends[..n - 1 - k])))
  }

  lemma PrefixOfSum<V>(h: seq<V>, before: seq<V>, after: seq<V>)
    ensures (h + (before + after))[..|h| + |before|] == h + before
  {
  }

  lemma ExchangeExtends<V>(vs: seq<Any<V>>, continue_: bool, sends: seq<Any<V>>, m: nat)
    requires m <= |sends| && (continue_ || sends == [])
    ensures Exchange(vs, continue_, sends)[..1 + AtLeastOne(|vs|) + m] == Exchange(vs, continue_, sends[..m])
  {
    ValuesAppend(sends[..m], sends[m..]);
    assert sends == sends[..m] + sends[m..];
    PrefixOfSum(Response(ErrorOf(vs), continue_, vs), Values(sends[..m]), Values(sends[m..]));
  }

  lemma AnswerFromPrefix<V>(vs: seq<Any<V>>, continue_: bool, sends: seq<Any<V>>, n: nat)
    requires (continue_ || sends == []) && n <= |Exchange(vs, continue_, sends)|
    ensures AnswerSoFar(vs, continue_, sends, n)
  {
    var k := AtLeastOne(|vs|);
    if !SingleError(vs) && n > k {
      var m := n - 1 - k;
      ExchangeExtends(vs, continue_, sends, m);
      ValuesAgree(vs, continue_, sends[..m]);
    }
  }

  /** Server.respond cleans the selector before routing, and routing cleans it
      again: the second time changes nothing. */
  lemma RoutingIgnoresSpelling(s: Router.State, selector: string)
    ensures Router.MatchLevel(s, Router.Clean(selector)) == Router.MatchLevel(s, selector)
  {
    Router.CleanIsIdempotent(selector);
  }

  // ---- the objects ----

  class Responder<V> {
    var responded: bool
    var error: Option<string>
    var continue_: bool
    var out: seq<Item<V>>
    /** How much was written when the channel was closed. */
    var closedAt: Option<nat>

    ghost function State(): Side<V> reads this { Side(responded, error, continue_, out, closedAt) }

    constructor ()
      ensures State() == Fresh()
    {
      responded, error, continue_, out, closedAt := false, None, false, [], None;
    }

    method Send(v: Any<V>)
      modifies this`out
      ensures State() == Perform(old(State()), Reply.Send(v))
    {
      out := out + [Item.Value(v)];
    }

    method Return(vs: seq<Any<V>>)
      modifies this
      ensures State() == Perform(old(State()), Reply.Return(vs))
    {
      Respond(vs, false);
    }

    method Continue(vs: seq<Any<V>>)
      modifies this
      ensures State() == Perform(old(State()), Reply.Continue(vs))
    {
      Respond(vs, true);
    }

    method SendAll(values: seq<Any<V>>)
      modifies this`out
      ensures out == old(out) + Values(values)
    {
      for i := 0 to |values|
        invariant out == old(out) + Values(values[..i])
      {
        Send(values[i]);
        ValuesSnoc(values, i);
      }
      assert values[..|values|] == values;
    }

    method Respond(vs: seq<Any<V>>, cont: bool)
      modifies this
      ensures State() == Responded(old(State()), vs, cont)
    {
      responded := true;
      continue_ := cont;
      var values := vs;
      if |values| == 1 && values[0].Failure? {
        error := Some(values[0].text);
        values := [Nil];
      }
      out := out + [ResponseHeader(error, continue_)];
      if |values| == 0 {
        values := [Nil];
      }
      SendAll(values);
      if !cont {
        CloseChannel();
      }
    }

    /** The channel's Close lets only the first request through. */
    method CloseChannel()
      modifies this`closedAt
      ensures State() == Closing(old(State()))
    {
      if closedAt == None {
        closedAt := Some(|out|);
      }
    }
  }

  /** Server.respond, for a handler that makes the calls rs. */
  method ServerRespond<V>(rs: seq<Reply<V>>) returns (out: seq<Item<V>>, closedAt: Option<nat>)
    ensures out == Serve(rs).out && closedAt == Serve(rs).closedAt
  {
    var resp := new Responder<V>();
    for i := 0 to |rs|
      invariant fresh(resp) && resp.State() == PerformAll(Fresh(), rs[..i])
    {
      assert rs[..i + 1][..i] == rs[..i];
      match rs[i]
      case Return(vs) => resp.Return(vs);
      case Continue(vs) => resp.Continue(vs);
      case Send(v) => resp.Send(v);
    }
    assert rs[..|rs|] == rs;
    if !resp.responded {
      resp.Return([]);
    }
    if !resp.continue_ {
      resp.CloseChannel();
    }
    return resp.out, resp.closedAt;
  }

  /** x is encoded behind the items sent before it. */
  method EncodeNext<V>(enc: RpcFrame.FrameEncoder<Item<V>>, x: Item<V>, ghost sent: seq<Item<V>>, ghost w: seq<Byte>)
    returns (ok: bool)
    requires enc.w == w + RpcFrame.Written(enc.c, sent)
    modifies enc
    ensures ok == enc.c.enc(x).Some?
    ensures enc.w == w + RpcFrame.Written(enc.c, if ok then sent + [x] else sent)
  {
    RpcFrame.WrittenMore(enc.c, sent, x);
    ok := enc.Encode(x);
  }

  /** The request half of call: the header, then the arguments in order, each through
      the frame encoder; the first that the codec refuses ends it, and the channel is
      then closed. */
  method ClientRequest<V>(enc: RpcFrame.FrameEncoder<Item<V>>, selector: string, args: seq<Any<V>>)
    returns (ok: bool, ghost sent: seq<Item<V>>)
    modifies enc
    ensures |sent| <= 1 + |args| && (sent != [] ==> sent[0] == CallHeader(selector))
    ensures forall i :: 0 <= i && i + 1 < |sent| ==> sent[i + 1] == Value(args[i])
    ensures enc.w == old(enc.w) + RpcFrame.Written(enc.c, sent)
    ensures ok <==> |sent| == 1 + |args|
    ensures !ok ==> enc.c.enc(if sent == [] then CallHeader(selector) else Value(args[|sent| - 1])) == None
  {
    sent := [];
    ok := EncodeNext(enc, CallHeader(selector), sent, old(enc.w));
    if !ok {
      return;
    }
    sent := sent + [CallHeader(selector)];
    for i := 0 to |args|
      invariant ok && |sent| == 1 + i && sent[0] == CallHeader(selector)
      invariant forall j :: 0 <= j < i ==> sent[j + 1] == Value(args[j])
      invariant enc.w == old(enc.w) + RpcFrame.Written(enc.c, sent)
    {
      ok := EncodeNext(enc, Value(args[i]), sent, old(enc.w));
      if !ok {
        return;
      }
      sent := sent + [Value(args[i])];
    }
  }

  /** The response half of call. */
  method ClientReceive<V>(items: seq<Item<V>>, asked: nat) returns (answer: Answer<V>, closes: bool)
    ensures answer == Receive(items, asked)
    ensures closes == (answer.NoHeader? || !answer.continue_)
  {
    if items == [] || !items[0].ResponseHeader? {
      return NoHeader, true;
    }
    var header, rest := items[0], items[1..];
    if header.error.Some? {
      return RemoteError(header.error.value, header.continue_, rest), !header.continue_;
    }
    if asked == 0 {
      if rest != [] {
        rest := rest[1..];
      }
      return Replies([], header.continue_, rest), !header.continue_;
    }
    var got: seq<Item<V>> := [];
    while |got| < asked
      invariant |got| <= |items[1..]| && got == items[1..][..|got|] && rest == items[1..][|got|..]
      invariant |got| <= asked
      decreases asked - |got|
    {
      if rest == [] {
        return Short(header.continue_), !header.continue_;
      }
      got, rest := got + [rest[0]], rest[1..];
    }
    return Replies(got, header.continue_, rest), !header.continue_;
  }
}
