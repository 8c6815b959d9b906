/** The channel table (mux/util_chanlist.go) and the channel object
    (mux/channel.go). Every method is proved against the step functions of module
    Protocol, down to the bytes handed to the frame encoder. */
module Mux {
  import opened Wire
  import opened Window
  import opened Protocol
  import opened Chunking
  import Buffer

  lemma {:induction false} EncodeAllAppend(ms: seq<Message>, more: seq<Message>)
    ensures EncodeAll(ms + more) == EncodeAll(ms) + EncodeAll(more)
  {
    if ms == [] {
      assert ms + more == more;
    } else {
      assert (ms + more)[1..] == ms[1..] + more;
      EncodeAllAppend(ms[1..], more);
    }
  }

  lemma EncodeOne(m: Message)
    ensures EncodeAll([m]) == Encode(m) && EncodeAll([]) == []
  {
    assert [m][1..] == [];
  }

  // ---- mux/util_chanlist.go ----

  /** The entries of a table, in slot order. */
  function Listed<T>(table: seq<Option<T>>): seq<T> {
    if table == [] then []
    else (if table[0].Some? then [table[0].value] else []) + Listed(table[1..])
  }

  lemma {:induction false} ListedSnoc<T>(table: seq<Option<T>>, i: nat)
    requires i < |table|
    ensures Listed(table[..i + 1]) == Listed(table[..i]) + (if table[i].Some? then [table[i].value] else [])
  {
    if i > 0 {
      ListedSnoc(table[1..], i - 1);
      assert table[..i + 1][1..] == table[1..][..i] && table[..i][1..] == table[1..][..i - 1];
    } else {
      assert table[..1][1..] == [];
    }
  }

  lemma {:induction false} ListedMember<T>(table: seq<Option<T>>, x: T)
    ensures x in Listed(table) <==> Some(x) in table
  {
    if table != [] { ListedMember(table[1..], x); }
  }

  class ChanList<T(==)> {
    var chans: seq<Option<T>>

    constructor ()
      ensures chans == []
    {
      chans := [];
    }

    /** Takes the first free slot, so an id is reused as soon as it is free. */
    method Add(ch: T) returns (id: nat)
      modifies this
      ensures id == FreeSlot(old(chans)) && chans == Put(old(chans), id, Some(ch))
    {
      var i := 0;
      while i < |chans|
        invariant i <= |chans| && chans == old(chans)
        invariant forall j :: 0 <= j < i ==> chans[j].Some?
      {
        if chans[i] == None {
          FirstFree(chans, i);
          chans := chans[i := Some(ch)];
          return i;
        }
        i := i + 1;
      }
      FirstFree(chans, i);
      chans := chans + [Some(ch)];
      return |chans| - 1;
    }

    method GetChan(id: nat) returns (ch: Option<T>)
      ensures ch == Get(chans, id)
    {
      if id < |chans| {
        return chans[id];
      }
      return None;
    }

    method Delete(id: nat)
      modifies this
      ensures chans == Remove(old(chans), id)
    {
      if id < |chans| {
        chans := chans[id := None];
      }
    }

    method DropAll() returns (r: seq<T>)
      modifies this
      ensures r == Listed(old(chans)) && chans == []
    {
      r := [];
      for i := 0 to |chans|
        invariant chans == old(chans) && r == Listed(chans[..i])
      {
        ListedSnoc(chans, i);
        if chans[i].Some? {
          r := r + [chans[i].value];
        }
      }
      assert chans[..|chans|] == chans;
      chans := [];
    }
  }

  lemma {:induction false} FirstFree<T>(table: seq<Option<T>>, i: nat)
    requires i <= |table| && (forall j :: 0 <= j < i ==> table[j].Some?) && (i < |table| ==> table[i] == None)
    ensures FreeSlot(table) == i
  {
    if i > 0 { FirstFree(table[1..], i - 1); }
  }

  // ---- mux/channel.go ----

  /** `out` has been sent, and writing `rest` on c would complete `goal`. */
  ghost predicate Remains(goal: Written, out: seq<Message>, c: Chan, rest: seq<Byte>) {
    var r := WriteLoop(c, rest);
    goal.c == r.c && goal.status == r.status && goal.out == out + r.out
  }

  lemma RemainsStep(goal: Written, out: seq<Message>, c: Chan, rest: seq<Byte>)
    requires Remains(goal, out, c, rest) && rest != [] && ChunkSize(c, rest).Granted?
    ensures var (w, g) := Reserve(c.remoteWin, Min(c.maxRemotePayload, |rest|));
      && g.n <= |rest|
      && var sent := out + [Message.Data(c.remoteId, g.n, rest[..g.n])];
      && if g.n == 0 then goal == Written(c.(remoteWin := w), sent, Spinning)
         else Remains(goal, sent, c.(remoteWin := w), rest[g.n..])
  {
    var (w, g) := Reserve(c.remoteWin, Min(c.maxRemotePayload, |rest|));
    var m, r := Message.Data(c.remoteId, g.n, rest[..g.n]), WriteLoop(c.(remoteWin := w), rest[g.n..]);
    assert out + ([m] + r.out) == out + [m] + r.out;
  }

  lemma RemainsEnd(goal: Written, out: seq<Message>, c: Chan, rest: seq<Byte>)
    requires Remains(goal, out, c, rest) && (rest == [] || !ChunkSize(c, rest).Granted?)
    ensures var (w, g) := Reserve(c.remoteWin, Min(c.maxRemotePayload, |rest|));
      goal == if rest == [] then Written(c, out, Done)
              else Written(c.(remoteWin := w), out, if g.WouldBlock? then Waiting else EndOfFile)
  {
    assert out + [] == out;
  }

  lemma SentOne(w: seq<Byte>, out: seq<Message>, m: Message)
    requires m.Data?
    ensures w + EncodeAll(out + [m]) == w + EncodeAll(out) + Encode(m)
    ensures |Link.Bytes(out + [m])| == |Link.Bytes(out)| + |m.data|
  {
    EncodeOne(m);
    EncodeAllAppend(out, [m]);
    Associates(w, EncodeAll(out), Encode(m));
    Link.Append(out, m);
    Link.OneBytes(m);
  }

  lemma Associates<T>(a: seq<T>, b: seq<T>, c: seq<T>)
    ensures a + (b + c) == a + b + c
  {}

  datatype Verdict = Fine(drop: bool) | Hangs(drop: bool) | Fault(reason: Reason)

  class Channel {
    const direction: Direction
    const enc: Encoder
    const pending: Buffer.Pending
    const remoteWin: SendWindow
    var localId: nat
    var remoteId: nat
    var maxIncomingPayload: nat
    var maxRemotePayload: nat
    var sentEOF: bool
    var sentClose: bool
    var myWindow: nat
    var msg: seq<Message>
    var msgClosed: bool
    ghost var Repr: set<object>

    ghost predicate Valid()
      reads this, Repr
    {
      && this in Repr && remoteWin in Repr && pending in Repr && pending.Repr <= Repr
      && pending.Valid() && remoteWin.Valid() && enc !in Repr
      && this !in pending.Repr && remoteWin !in pending.Repr
    }

    /** The channel as module Protocol sees it. */
    ghost function Value(): Chan
      requires Valid()
      reads this, Repr
    {
      Chan(localId, remoteId, maxIncomingPayload, maxRemotePayload, direction, sentEOF, sentClose,
           remoteWin.Value(), pending.Contents(), pending.closed, myWindow, msg, msgClosed)
    }

    /** newChannel, before the table assigns an id. */
    constructor (direction: Direction, enc: Encoder)
      ensures Valid() && fresh(Repr) && this.enc == enc
      ensures Value() == NewChan(0, direction)
    {
      this.direction, this.enc := direction, enc;
      pending := new Buffer.Pending();
      remoteWin := new SendWindow();
      localId, remoteId, maxIncomingPayload, maxRemotePayload := 0, 0, CHANNEL_MAX_PACKET, 0;
      sentEOF, sentClose, myWindow, msg, msgClosed := false, false, CHANNEL_WINDOW_SIZE, [], false;
      new;
      Repr := {this, remoteWin, pending} + pending.Repr;
    }

    /** ok is false for io.EOF, that is, when Close was sent before. */
    method Send(m: Message) returns (ok: bool)
      requires Valid()
      modifies this`sentClose, enc
      ensures Valid() && ok == !old(sentClose)
      ensures Value() == old(Value()).(sentClose := old(sentClose) || m.Close?)
      ensures enc.w == old(enc.w) + EncodeAll(Gated(old(Value()), m))
    {
      EncodeOne(m);
      if sentClose {
        return false;
      }
      if m.Close? {
        sentClose := true;
      }
      enc.Send(m);
      return true;
    }

    method CloseWrite() returns (ok: bool)
      requires Valid()
      modifies this`sentEOF, this`sentClose, enc
      ensures Valid() && Value() == old(Value()).(sentEOF := true)
      ensures enc.w == old(enc.w) + EncodeAll(Gated(old(Value()), Message.EOF(remoteId)))
    {
      sentEOF := true;
      ok := Send(Message.EOF(remoteId));
    }

    method Close() returns (ok: bool)
      requires Valid()
      modifies this`sentClose, enc
      ensures Valid() && Value() == old(Value()).(sentClose := true)
      ensures enc.w == old(enc.w) + EncodeAll(Gated(old(Value()), Message.Close(remoteId)))
    {
      ok := Send(Message.Close(remoteId));
    }

    /** Runs until the data is out, the window is closed, it would wait, or it would
        repeat itself for ever. */
    method Write(data: seq<Byte>) returns (n: nat, status: Status)
      requires Valid() && maxRemotePayload < U32
      modifies remoteWin, enc
      ensures Valid()
      ensures sentEOF ==> n == 0 && status == EndOfFile && Value() == old(Value()) && enc.w == old(enc.w)
      ensures !sentEOF ==>
        var r := WriteLoop(old(Value()), data);
        && Value() == r.c && status == r.status
        && enc.w == old(enc.w) + EncodeAll(r.out)
        && n == |Link.Bytes(r.out)|
    {
      if sentEOF {
        return 0, EndOfFile;
      }
      ghost var out;
      ghost var c := Value();
      n, status, out := WriteChunks(data, c);
    }

    /** The loop of Write. */
    method WriteChunks(data: seq<Byte>, ghost c: Chan) returns (n: nat, status: Status, ghost out: seq<Message>)
      requires remoteWin.Valid() && maxRemotePayload < U32
      requires c.remoteWin == remoteWin.Value() && c.remoteId == remoteId && c.maxRemotePayload == maxRemotePayload
      modifies remoteWin, enc
      ensures remoteWin.Valid()
      ensures WriteLoop(c, data) == Written(c.(remoteWin := remoteWin.Value()), out, status)
      ensures enc.w == old(enc.w) + EncodeAll(out) && n == |Link.Bytes(out)|
    {
      n, out := 0, [];
      ghost var goal := WriteLoop(c, data);
      var rest := data;
      while rest != []
        invariant remoteWin.Valid() && |rest| <= |data|
        invariant Remains(goal, out, c.(remoteWin := remoteWin.Value()), rest)
        invariant enc.w == old(enc.w) + EncodeAll(out) && n == |Link.Bytes(out)|
        decreases |rest|
      {
        ghost var now := c.(remoteWin := remoteWin.Value());
        var r := SendChunk(rest);
        if !r.Granted? {
          RemainsEnd(goal, out, now, rest);
          return n, if r.WouldBlock? then Waiting else EndOfFile, out;
        }
        ghost var m := Message.Data(remoteId, r.n, rest[..r.n]);
        RemainsStep(goal, out, now, rest);
        SentOne(old(enc.w), out, m);
        out := out + [m];
        if r.n == 0 {
          return n, Spinning, out;
        }
        n := n + r.n;
        rest := rest[r.n..];
      }
      RemainsEnd(goal, out, c.(remoteWin := remoteWin.Value()), rest);
      return n, Done, out;
    }

    /** The body of that loop. */
    method SendChunk(data: seq<Byte>) returns (r: Reservation)
      requires remoteWin.Valid() && maxRemotePayload < U32
      modifies remoteWin, enc
      ensures remoteWin.Valid()
      ensures (remoteWin.Value(), r) == Reserve(old(remoteWin.Value()), Min(maxRemotePayload, |data|))
      ensures r.Granted? ==> r.n <= |data| && enc.w == old(enc.w) + Encode(Message.Data(remoteId, r.n, data[..r.n]))
      ensures !r.Granted? ==> enc.w == old(enc.w)
    {
      var space := Min(maxRemotePayload, |data|);
      r := remoteWin.Take(space);
      if r.Granted? {
        var toSend := data[..r.n];
        enc.Send(Message.Data(remoteId, |toSend|, toSend));
      }
    }

    method AdjustWindow(n: nat) returns (ok: bool)
      requires Valid() && n < U32
      modifies this`myWindow, this`sentClose, enc
      ensures Valid() && Value() == old(Value()).(myWindow := (old(myWindow) + n) % U32)
      ensures enc.w == old(enc.w) + EncodeAll(Gated(old(Value()), Message.WindowAdjust(remoteId, n)))
    {
      myWindow := (myWindow + n) % U32;
      ok := Send(Message.WindowAdjust(remoteId, n));
    }

    /** Copies out what is buffered and, if that is anything, gives the peer the
        same amount of credit; an io.EOF from that update is swallowed. */
    method Read(dest: array<Byte>) returns (n: nat, outcome: Buffer.Outcome)
      requires Valid() && dest !in Repr && |Value().pending| < U32
      modifies pending.Repr, this`myWindow, this`sentClose, enc, dest
      ensures Valid() && Repr == old(Repr)
      ensures var c := old(Value());
        && n == (if dest.Length < |c.pending| then dest.Length else |c.pending|)
        && dest[..n] == c.pending[..n]
        && Value() == c.(pending := c.pending[n..], myWindow := if n == 0 then c.myWindow else (c.myWindow + n) % U32)
        && enc.w == old(enc.w) + (if n == 0 then [] else EncodeAll(Gated(c, Message.WindowAdjust(c.remoteId, n))))
        && outcome == (if dest.Length == 0 || c.pending != [] then Buffer.Copied
                       else if c.pendingClosed then Buffer.AtEOF else Buffer.WouldBlock)
    {
      n, outcome := TakePending(dest);
      GiveCredit(n);
    }

    method TakePending(dest: array<Byte>) returns (n: nat, outcome: Buffer.Outcome)
      requires Valid() && dest !in Repr
      modifies pending.Repr, dest
      ensures Valid()
      ensures var c := old(Value());
        && n == (if dest.Length < |c.pending| then dest.Length else |c.pending|)
        && dest[..n] == c.pending[..n] && Value() == c.(pending := c.pending[n..])
        && outcome == (if dest.Length == 0 || c.pending != [] then Buffer.Copied
                       else if c.pendingClosed then Buffer.AtEOF else Buffer.WouldBlock)
    {
      n, outcome := pending.Read(dest);
    }

    method GiveCredit(n: nat)
      requires Valid() && n < U32
      modifies this`myWindow, this`sentClose, enc
      ensures Valid()
      ensures Value() == old(Value()).(myWindow := if n == 0 then old(myWindow) else (old(myWindow) + n) % U32)
      ensures enc.w == old(enc.w)
           + (if n == 0 then [] else EncodeAll(Gated(old(Value()), Message.WindowAdjust(remoteId, n))))
    {
      if n > 0 {
        var _ := AdjustWindow(n);
      }
    }

    /** close, run once the channel has left the table. */
    method Teardown()
      requires Valid()
      modifies pending`closed, remoteWin`closed, this`sentClose, this`msgClosed
      ensures Valid() && Value() == Closed(old(Value()))
    {
      pending.EndOfFile();
      msgClosed := true;
      sentClose := true;
      remoteWin.Shut();
    }

    method HandleData(length: nat, data: seq<Byte>) returns (v: Verdict)
      requires Valid()
      modifies pending.Repr, this`myWindow, this`Repr
      ensures Valid() && fresh(Repr - old(Repr))
      ensures match Protocol.HandleData(old(Value()), length, data)
        case Accepted(c, _, drop) => v == Fine(drop) && Value() == c
        case Stalled(_, _) => false
        case Rejected(reason) => v == Fault(reason) && Value() == old(Value())
    {
      if length > maxIncomingPayload {
        return Fault(PayloadTooBig);
      }
      if length != |data| % U32 {
        return Fault(WrongLength);
      }
      if myWindow < length {
        return Fault(WroteTooMuch);
      }
      myWindow := myWindow - length;
      pending.Write(data);
      Repr := Repr + pending.Repr;
      return Fine(false);
    }

    method Enqueue(m: Message, drop: bool) returns (v: Verdict)
      requires Valid()
      modifies this`msg
      ensures Valid()
      ensures match Queue(old(Value()), m, drop)
        case Accepted(c, _, d) => v == Fine(d) && Value() == c
        case Stalled(c, d) => v == Hangs(d) && Value() == c
        case Rejected(_) => false
    {
      if |msg| >= CHAN_SIZE {
        return Hangs(drop);
      }
      msg := msg + [m];
      return Fine(drop);
    }

    /** One packet for this channel; the caller removes the channel from the
        table when the verdict says so. */
    method Handle(m: Message) returns (v: Verdict)
      requires Valid() && WellFormed(m)
      modifies Repr, enc
      ensures Valid() && fresh(Repr - old(Repr))
      ensures match Protocol.Handle(old(Value()), m)
        case Accepted(c, out, drop) =>
          v == Fine(drop) && Value() == c && enc.w == old(enc.w) + EncodeAll(out)
        case Stalled(c, drop) => v == Hangs(drop) && Value() == c && enc.w == old(enc.w)
        case Rejected(reason) => v == Fault(reason) && Value() == old(Value()) && enc.w == old(enc.w)
    {
      EncodeOne(m);
      match m
      case Data(_, length, data) =>
        v := HandleData(length, data);
      case Close(_) =>
        var _ := Send(Message.Close(remoteId));
        Teardown();
        v := Fine(true);
      case EOF(_) =>
        pending.EndOfFile();
        v := Fine(false);
      case WindowAdjust(_, n) =>
        assert Fields(m)[1] < U32;
        var ok := remoteWin.Grow(n);
        v := if ok then Fine(false) else Fault(BadWindowUpdate);
      case OpenConfirm(_, sender, window, max) =>
        v := HandleConfirm(m);
      case OpenFailure(_) =>
        if direction == Inbound {
          return Fault(ResponseOnInbound);
        }
        v := Enqueue(m, true);
      case Open(_, _, _) =>
        v := Fault(InvalidMessage);
    }

    method HandleConfirm(m: Message) returns (v: Verdict)
      requires Valid() && WellFormed(m) && m.OpenConfirm?
      modifies this`remoteId, this`maxRemotePayload, this`msg, remoteWin
      ensures Valid()
      ensures match Protocol.Handle(old(Value()), m)
        case Accepted(c, out, drop) => v == Fine(drop) && Value() == c && out == []
        case Stalled(c, drop) => v == Hangs(drop) && Value() == c
        case Rejected(reason) => v == Fault(reason) && Value() == old(Value())
    {
      if direction == Inbound {
        return Fault(ResponseOnInbound);
      }
      if m.maxPacketSize < MIN_PACKET_LENGTH || m.maxPacketSize > MAX_PACKET_LENGTH {
        return Fault(BadMaxPacket);
      }
      assert Fields(m)[2] < U32;
      remoteId := m.senderID;
      maxRemotePayload := m.maxPacketSize;
      var _ := remoteWin.Grow(m.windowSize);
      v := Enqueue(m, false);
    }
  }
}
