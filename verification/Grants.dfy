/** Sending against any peer: whatever packets arrive and however calls interleave, a
    channel never sends more than its peer has granted it (mux/channel.go:93-120,
    mux/util_window.go). */
module Grants {
  import opened Wire
  import opened Window
  import opened Protocol
  import Link
  import opened AnyPeer
  import opened Handshake

  /** The credit that a packet brings the channel that takes it: a window update, or
      the window of an answer to its Open, unless that would overflow. */
  ghost function Brings(o: Obj, m: Message): nat {
    if m.WindowAdjust? then m.additionalBytes
    else if m.OpenConfirm? && o.c.remoteWin.win + m.windowSize < 0x1_0000_0000 then m.windowSize
    else 0
  }

  /** The credit that input i grants channel k, which may be the Open that makes k. */
  ghost function GrantedNow(s: Session, i: Input, k: nat): nat {
    if !i.Incoming? || !s.Running? then 0
    else if i.m.Open? then
      if k == s.next && 9 <= i.m.maxPacketSize <= 0x8000_0000 then i.m.windowSize else 0
    else if Takes(s.e, k, i.m) then Brings(s.e.objs[k], i.m) else 0
  }

  ghost function Granted(inputs: seq<Input>, k: nat): nat {
    if inputs == [] then 0
    else
      var before := inputs[..|inputs| - 1];
      Granted(before, k) + GrantedNow(FeedAll(before), inputs[|inputs| - 1], k)
  }

  /** The balance, the chunk in hand and the data sent make up the grant; a closed
      window may have been drawn on for nothing. */
  ghost predicate Covered(o: Obj, grant: nat) {
    && o.written == Link.Bytes(o.sent)
    && o.c.remoteWin.win + Link.Held(o) + |Link.Bytes(o.sent)| <= grant
    && (!o.c.remoteWin.closed ==> o.c.remoteWin.win + Link.Held(o) + |Link.Bytes(o.sent)| == grant)
  }

  ghost predicate CoveredIn(e: Endpoint, k: nat, grant: nat) {
    if k in e.objs then Covered(e.objs[k], grant) else grant == 0
  }

  /** A step that sends out and pays for its data. */
  lemma PaysFor(o: Obj, q: Obj, out: seq<Message>, grant: nat)
    requires Covered(o, grant) && q.sent == o.sent + out && |out| <= 1 && q.c.remoteWin.closed == o.c.remoteWin.closed
    requires var data := if out != [] && out[0].Data? then out[0].data else [];
      && q.written == o.written + data
      && q.c.remoteWin.win + Link.Held(q) + |data| <= o.c.remoteWin.win + Link.Held(o)
      && (!o.c.remoteWin.closed ==>
            q.c.remoteWin.win + Link.Held(q) + |data| == o.c.remoteWin.win + Link.Held(o))
    ensures Covered(q, grant)
  {
    Link.AppendAll(o.sent, out);
    if out != [] { Link.OneBytes(out[0]); assert out == [out[0]]; }
  }

  lemma DoKeepsCovered(o: Obj, op: Op, grant: nat)
    requires Covered(o, grant) && Do(o, op).Moved?
    ensures Covered(Do(o, op).o, grant)
  {
    var r := Do(o, op);
    if op.Write? || op.Encoding? || op.Adjust? || op.CloseWrite? || op.Shutdown? {
      if r.out == [] { assert o.sent + [] == o.sent && o.written + [] == o.written; }
      assert r.o.sent == o.sent + r.out;
      PaysFor(o, r.o, r.out, grant);
    }
  }

  lemma DoesCovers(o: Obj, o': Obj, m: Message, grant: nat)
    requires Covered(o, grant) && !o.c.remoteWin.closed && Does(o, o', m)
    ensures Covered(o', grant + Brings(o, m))
  {
    var out := if m.Close? && !o.c.sentClose then [Message.Close(o.c.remoteId)] else [];
    assert o'.sent == o.sent + out;
    Link.AppendAll(o.sent, out);
    Link.NoBytes(out);
  }

  lemma TakingCovers(s: Session, m: Message, accept: bool, k: nat, grant: nat)
    requires s.Running? && ObjsOk(s) && WellFormed(m) && Takes(s.e, k, m) && CoveredIn(s.e, k, grant)
    ensures CoveredIn(Feed(s, Incoming(m, accept)).e, k, grant + Brings(s.e.objs[k], m))
  {
    TakingDoes(s, m, accept, k);
    assert ObjOk(s.e.objs[k], true, false);
    DoesCovers(s.e.objs[k], Feed(s, Incoming(m, accept)).e.objs[k], m, grant);
  }

  /** What changes nothing that counts for channel k. */
  lemma SameCover(e: Endpoint, e': Endpoint, k: nat, grant: nat)
    requires CoveredIn(e, k, grant) && (k in e'.objs <==> k in e.objs)
    requires k in e.objs ==>
      && e'.objs[k].written == e.objs[k].written && e'.objs[k].sent == e.objs[k].sent
      && e'.objs[k].inHand == e.objs[k].inHand && e'.objs[k].c.remoteWin.win == e.objs[k].c.remoteWin.win
      && (e.objs[k].c.remoteWin.closed ==> e'.objs[k].c.remoteWin.closed)
    ensures CoveredIn(e', k, grant)
  {}

  lemma CallKeepsCover(s: Session, j: nat, op: Op, k: nat, grant: nat)
    requires CoveredIn(s.e, k, grant)
    ensures CoveredIn(Feed(s, Call(j, op)).e, k, grant)
  {
    if j in s.e.objs && Do(s.e.objs[j], op).Moved? {
      DoCovered(s.e, j, op, k, grant);
      var e := s.e.(objs := s.e.objs[j := Do(s.e.objs[j], op).o]);
      FeedCall(s, j, op);
      SameCover(e, AnyPeer.Resumed(s.(e := e)).e, k, grant);
    }
  }

  lemma DoCovered(e: Endpoint, j: nat, op: Op, k: nat, grant: nat)
    requires CoveredIn(e, k, grant) && j in e.objs && Do(e.objs[j], op).Moved?
    ensures CoveredIn(e.(objs := e.objs[j := Do(e.objs[j], op).o]), k, grant)
  {
    if j == k { DoKeepsCovered(e.objs[k], op, grant); }
  }

  /** A new channel has sent no data. */
  lemma NewIsCovered(e: Endpoint, e': Endpoint, k: nat, id: nat, owned: bool, m: Message)
    requires Created(e, e', k, id, owned, m) && !m.Data?
    ensures CoveredIn(e', k, e'.objs[k].c.remoteWin.win)
  {
    Link.NoBytes([m]);
  }

  lemma OpeningKeepsCover(s: Session, k: nat, grant: nat)
    requires ObjsOk(s) && CoveredIn(s.e, k, grant)
    ensures CoveredIn(Feed(s, Opening).e, k, grant)
  {
    if !s.Ended? {
      OpenAnnounces(s.e, s.next);
      var r := StartOpen(s.e, s.next);
      var id :| Created(s.e, r.e, s.next, id, false, r.out[0]);
      if k == s.next { NewIsCovered(s.e, r.e, k, id, false, r.out[0]); }
    }
  }

  lemma OpenKeepsCover(s: Session, m: Message, accept: bool, k: nat, grant: nat)
    requires s.Running? && ObjsOk(s) && m.Open? && WellFormed(m) && CoveredIn(s.e, k, grant)
    ensures CoveredIn(Feed(s, Incoming(m, accept)).e, k, grant + GrantedNow(s, Incoming(m, accept), k))
  {
    if 9 <= m.maxPacketSize <= 0x8000_0000 {
      GoodOpenMakesAChannel(s.e, s.next, m, accept);
      var r := Receive(s.e, s.next, m, accept);
      var id :| Created(s.e, r.e, s.next, id, accept, r.out[0]);
      if k == s.next { NewIsCovered(s.e, r.e, k, id, accept, r.out[0]); }
    } else {
      BadOpenIsRefused(s.e, s.next, m, accept);
    }
  }

  /** A packet for another channel, or one that ends the session. */
  lemma OthersKeepCover(s: Session, m: Message, accept: bool, k: nat, grant: nat)
    requires s.Running? && ObjsOk(s) && !m.Open? && WellFormed(m) && CoveredIn(s.e, k, grant)
    requires !Takes(s.e, k, m)
    ensures CoveredIn(Feed(s, Incoming(m, accept)).e, k, grant)
  {
    EndsIffNotTaken(s, m, accept);
    if j :| Takes(s.e, j, m) {
      TakingDoes(s, m, accept, j);
    } else {
      EndingTearsDown(s, m, accept);
      SameCover(s.e, Teardown(s.e), k, grant);
    }
  }

  lemma FeedKeepsCover(s: Session, i: Input, k: nat, grant: nat)
    requires SessionOk(s) && (i.Incoming? ==> WellFormed(i.m)) && CoveredIn(s.e, k, grant)
    ensures CoveredIn(Feed(s, i).e, k, grant + GrantedNow(s, i, k))
  {
    match i {
      case Call(j, op) => CallKeepsCover(s, j, op, k, grant);
      case Opening => OpeningKeepsCover(s, k, grant);
      case Lost => SameCover(s.e, Teardown(s.e), k, grant);
      case Incoming(m, accept) =>
        if s.Running? {
          if m.Open? { OpenKeepsCover(s, m, accept, k, grant); }
          else if Takes(s.e, k, m) { TakingCovers(s, m, accept, k, grant); }
          else { OthersKeepCover(s, m, accept, k, grant); }
        }
    }
  }

  lemma {:induction false} AlwaysCovered(inputs: seq<Input>, k: nat)
    requires Decodable(inputs)
    ensures CoveredIn(FeedAll(inputs).e, k, Granted(inputs, k))
  {
    if inputs != [] {
      var before := inputs[..|inputs| - 1];
      AlwaysCovered(before, k);
      AlwaysOk(before);
      FeedKeepsCover(FeedAll(before), inputs[|inputs| - 1], k, Granted(before, k));
    }
  }

  /** Whatever the peer does, the data frames of a channel carry exactly the bytes that
      its Writes reported, they never exceed what the peer has granted, and while the
      window is open the credit left is the grant less what is sent or in hand. */
  lemma NeverSendsUngranted(inputs: seq<Input>, k: nat)
    requires Decodable(inputs) && k in FeedAll(inputs).e.objs
    ensures var o := FeedAll(inputs).e.objs[k];
      && o.written == Link.Bytes(o.sent)
      && |Link.Bytes(o.sent)| + Link.Held(o) <= Granted(inputs, k)
      && (!o.c.remoteWin.closed ==>
            o.c.remoteWin.win == Granted(inputs, k) - |Link.Bytes(o.sent)| - Link.Held(o))
  {
    AlwaysCovered(inputs, k);
  }
}
