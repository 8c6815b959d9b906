/** Channel objects in memory and the endpoint of module Protocol they stand for.
    Each object owns its own part of memory, so that a packet handled by one leaves
    all the others as they were. */
module Objects {
  import opened Wire
  import opened Protocol
  import opened Mux
  import Buffer
  import Chunking
  import Link

  /** An endpoint, the object of each of its channels, all that these are made of,
      and the encoder they share. */
  datatype View = View(model: Endpoint, name: map<nat, Channel>, Repr: set<object>, enc: Encoder)

  /** Channel k of the model is what its object says. */
  ghost predicate Tied(v: View, k: nat)
    reads v.Repr
  {
    && k in v.name && k in v.model.objs
    && v.name[k] in v.Repr && v.name[k].Repr <= v.Repr && v.name[k].Valid() && v.name[k].enc == v.enc
    && v.name[k].Value() == v.model.objs[k].c
  }

  ghost predicate Apart(v: View, j: nat, k: nat)
    requires j in v.name && k in v.name
    reads v.Repr
  {
    v.name[j] in v.Repr && v.name[k] in v.Repr && v.name[j].Repr !! v.name[k].Repr
  }

  ghost predicate Faithful(v: View)
    reads v.Repr
  {
    && v.enc !in v.Repr && v.name.Keys == v.model.objs.Keys
    && (forall k {:trigger Tied(v, k)} :: k in v.name ==> Tied(v, k))
    && (forall j, k {:trigger Apart(v, j, k)} :: j in v.name && k in v.name && j != k ==> Apart(v, j, k))
  }

  // ---- one object changes ----

  /** The object of channel t of v has changed, and the model becomes after. */
  datatype Change = Change(v: View, t: nat, after: Endpoint)

  /** The view after a change. */
  ghost function Next(x: Change): View
    requires x.t in x.v.name
    reads x.v.name[x.t]
  {
    x.v.(model := x.after, Repr := x.v.Repr + x.v.name[x.t].Repr)
  }

  ghost predicate OnlyObj(e: Endpoint, e': Endpoint, t: nat) {
    e'.objs.Keys == e.objs.Keys && forall j :: j in e.objs && j != t ==> e'.objs[j] == e.objs[j]
  }

  twostate lemma KeptOne(ch: Channel)
    requires old(ch.Valid()) && unchanged(old(ch.Repr))
    ensures ch.Valid() && ch.Value() == old(ch.Value()) && ch.Repr == old(ch.Repr)
  {}

  twostate lemma OthersKept(x: Change)
    requires old(Faithful(x.v)) && x.t in x.v.name
    requires unchanged(x.v.Repr - old(x.v.name[x.t].Repr))
    ensures forall j :: j in x.v.name && j != x.t ==> Tied(x.v, j) && x.v.name[j].Repr == old(x.v.name[j].Repr)
  {
    var v, t := x.v, x.t;
    forall j | j in v.name && j != t ensures Tied(v, j) && v.name[j].Repr == old(v.name[j].Repr) {
      assert old(Tied(v, j)) && old(Tied(v, t)) && old(Apart(v, j, t));
      assert old(v.name[j].Repr) <= v.Repr - old(v.name[t].Repr);
      KeptOne(v.name[j]);
    }
  }

  twostate lemma StillApart(x: Change)
    requires old(Faithful(x.v)) && x.t in x.v.name
    requires fresh(x.v.name[x.t].Repr - old(x.v.name[x.t].Repr))
    requires forall j :: j in x.v.name && j != x.t ==> x.v.name[j].Repr == old(x.v.name[j].Repr)
    ensures forall j, k :: j in x.v.name && k in x.v.name && j != k ==> x.v.name[j].Repr !! x.v.name[k].Repr
  {
    var v := x.v;
    forall j, k | j in v.name && k in v.name && j != k ensures v.name[j].Repr !! v.name[k].Repr {
      assert old(Tied(v, j)) && old(Tied(v, k)) && old(Apart(v, j, k));
    }
  }

  lemma Retie(v: View, w: View, j: nat)
    requires Tied(v, j) && w.name == v.name && w.enc == v.enc && v.Repr <= w.Repr
    requires j in w.model.objs && w.model.objs[j].c == v.model.objs[j].c
    ensures Tied(w, j)
  {}

  lemma Assemble(w: View)
    requires w.enc !in w.Repr && w.name.Keys == w.model.objs.Keys
    requires forall j :: j in w.name ==> Tied(w, j)
    requires forall j, k :: j in w.name && k in w.name && j != k ==> w.name[j].Repr !! w.name[k].Repr
    ensures Faithful(w)
  {
    forall j, k | j in w.name && k in w.name && j != k ensures Apart(w, j, k) {
      assert Tied(w, j) && Tied(w, k);
    }
  }

  /** A change of one object, within its own memory and newly allocated memory, that
      the model follows keeps the view faithful. */
  twostate lemma ChangeIsConfined(x: Change)
    requires old(Faithful(x.v)) && x.t in x.v.name && OnlyObj(x.v.model, x.after, x.t)
    requires unchanged(x.v.Repr - old(x.v.name[x.t].Repr))
    requires fresh(x.v.name[x.t].Repr - old(x.v.name[x.t].Repr))
    requires Tied(Next(x), x.t) && x.v.enc !in Next(x).Repr
    ensures Faithful(Next(x))
  {
    var w := Next(x);
    OthersKept(x);
    StillApart(x);
    forall j | j in w.name ensures Tied(w, j) {
      if j != x.t { Retie(x.v, w, j); }
    }
    Assemble(w);
  }

  function Changed(e: Endpoint, t: nat, c: Chan, out: seq<Message>): Endpoint {
    if t in e.objs then e.(objs := e.objs[t := e.objs[t].(c := c, sent := e.objs[t].sent + out)]) else e
  }

  /** The model after handle, but for the table. */
  function HandledBy(e: Endpoint, t: nat, m: Message): Endpoint {
    if t !in e.objs then e
    else match Protocol.Handle(e.objs[t].c, m)
      case Accepted(c, out, _) => Changed(e, t, c, out)
      case Stalled(c, _) => Changed(e, t, c, [])
      case Rejected(_) => e
  }

  /** handle, on the object that is channel t. */
  method HandleAt(ghost v: View, ghost t: nat, ch: Channel, m: Message) returns (r: Verdict, ghost w: View)
    requires Faithful(v) && t in v.name && v.name[t] == ch && WellFormed(m)
    modifies ch.Repr, ch.enc
    ensures Faithful(w) && w.name == v.name && w.enc == v.enc && fresh(w.Repr - v.Repr)
    ensures w.model == HandledBy(v.model, t, m)
    ensures t in v.model.objs && match Protocol.Handle(v.model.objs[t].c, m)
      case Accepted(_, out, drop) => r == Fine(drop) && v.enc.w == old(v.enc.w) + EncodeAll(out)
      case Stalled(_, drop) => r == Hangs(drop) && v.enc.w == old(v.enc.w)
      case Rejected(reason) => r == Fault(reason) && v.enc.w == old(v.enc.w)
  {
    assert Tied(v, t);
    r := ch.Handle(m);
    ghost var x := Change(v, t, HandledBy(v.model, t, m));
    w := Next(x);
    assert Tied(w, t);
    ChangeIsConfined(x);
  }

  method Close(ch: Channel)
    requires ch.Valid()
    modifies ch.Repr
    ensures ch.Valid() && ch.Repr == old(ch.Repr) && ch.Value() == Closed(old(ch.Value()))
  {
    ch.Teardown();
  }

  /** close, on the object that is channel t. */
  method TeardownAt(ghost v: View, ghost t: nat, ch: Channel) returns (ghost w: View)
    requires Faithful(v) && t in v.name && v.name[t] == ch
    modifies ch.Repr
    ensures Faithful(w) && w.name == v.name && w.enc == v.enc && w.Repr == v.Repr
    ensures t in v.model.objs && w.model == Changed(v.model, t, Closed(v.model.objs[t].c), [])
  {
    assert Tied(v, t);
    Close(ch);
    ghost var x := Change(v, t, Changed(v.model, t, Closed(v.model.objs[t].c), []));
    w := Next(x);
    assert Tied(w, t);
    ChangeIsConfined(x);
  }

  // ---- what users do with an object ----

  /** The steps that a whole Read takes: the bytes, then the credit for them. */
  function ReadSteps(o: Obj, size: nat): Moved {
    match Do(o, Read(size))
    case Blocked => Moved(o, [])
    case Moved(q, _) => Do(q, Adjust(if size < |o.c.pending| then size else |o.c.pending|))
  }

  /** The step or steps of module Protocol that a call on channel t is. */
  ghost predicate Performs(v: View, w: View, t: nat, r: Moved) {
    && t in v.model.objs && r.Moved?
    && w.model == v.model.(objs := v.model.objs[t := r.o]) && w.name == v.name && w.enc == v.enc
  }

  method CloseAt(ghost v: View, ghost t: nat, ch: Channel) returns (ok: bool, ghost w: View)
    requires Faithful(v) && t in v.name && v.name[t] == ch && v.model.objs[t].owned
    modifies ch.Repr, ch.enc
    ensures Faithful(w) && fresh(w.Repr - v.Repr) && Performs(v, w, t, Do(v.model.objs[t], Shutdown))
    ensures v.enc.w == old(v.enc.w) + EncodeAll(Do(v.model.objs[t], Shutdown).out)
  {
    assert Tied(v, t);
    ok := ch.Close();
    ghost var x := Change(v, t, v.model.(objs := v.model.objs[t := Do(v.model.objs[t], Shutdown).o]));
    w := Next(x);
    assert Tied(w, t);
    ChangeIsConfined(x);
  }

  method CloseWriteAt(ghost v: View, ghost t: nat, ch: Channel) returns (ok: bool, ghost w: View)
    requires Faithful(v) && t in v.name && v.name[t] == ch && v.model.objs[t].owned
    modifies ch.Repr, ch.enc
    ensures Faithful(w) && fresh(w.Repr - v.Repr) && Performs(v, w, t, Do(v.model.objs[t], CloseWrite))
    ensures v.enc.w == old(v.enc.w) + EncodeAll(Do(v.model.objs[t], CloseWrite).out)
  {
    assert Tied(v, t);
    ok := ch.CloseWrite();
    ghost var x := Change(v, t, v.model.(objs := v.model.objs[t := Do(v.model.objs[t], CloseWrite).o]));
    w := Next(x);
    assert Tied(w, t);
    ChangeIsConfined(x);
  }

  /** What those two steps come to. */
  ghost predicate Reads(o: Obj, n: nat, r: Moved) {
    && n <= |o.c.pending| && r.Moved? && r.o.read == o.read + o.c.pending[..n]
    && r.o.c == AfterRead(o.c, n) && r.out == CreditFor(o.c, n)
  }

  function AfterRead(c: Chan, n: nat): Chan
    requires n <= |c.pending|
  {
    c.(pending := c.pending[n..], myWindow := if n == 0 then c.myWindow else (c.myWindow + n) % U32)
  }

  function CreditFor(c: Chan, n: nat): seq<Message> {
    if n == 0 then [] else Gated(c, Message.WindowAdjust(c.remoteId, n))
  }

  lemma ReadStepsAre(o: Obj, size: nat)
    requires o.owned
    ensures Reads(o, if size < |o.c.pending| then size else |o.c.pending|, ReadSteps(o, size))
  {
    if size == 0 || o.c.pending == [] { assert o.c.pending[0..] == o.c.pending; }
  }

  /** Channel.Read with all it may touch in one piece. */
  method ReadObject(ch: Channel, dest: array<Byte>) returns (n: nat, outcome: Buffer.Outcome)
    requires ch.Valid() && dest !in ch.Repr && |ch.Value().pending| < U32
    modifies ch.Repr, ch.enc, dest
    ensures ch.Valid() && ch.Repr == old(ch.Repr) && n <= dest.Length
    ensures var c := old(ch.Value());
      && n == (if dest.Length < |c.pending| then dest.Length else |c.pending|) && dest[..n] == c.pending[..n]
      && ch.Value() == AfterRead(c, n) && ch.enc.w == old(ch.enc.w) + EncodeAll(CreditFor(c, n))
  {
    n, outcome := ch.Read(dest);
  }

  method ReadAt(ghost v: View, ghost t: nat, ch: Channel, dest: array<Byte>)
    returns (n: nat, outcome: Buffer.Outcome, ghost w: View)
    requires Faithful(v) && t in v.name && v.name[t] == ch && v.model.objs[t].owned
    requires dest !in v.Repr && |v.model.objs[t].c.pending| < U32
    modifies ch.Repr, ch.enc, dest
    ensures Faithful(w) && fresh(w.Repr - v.Repr) && Performs(v, w, t, ReadSteps(v.model.objs[t], dest.Length))
    ensures v.enc.w == old(v.enc.w) + EncodeAll(ReadSteps(v.model.objs[t], dest.Length).out)
    ensures n <= dest.Length && w.model.objs[t].read == v.model.objs[t].read + dest[..n]
  {
    assert Tied(v, t);
    ReadStepsAre(v.model.objs[t], dest.Length);
    n, outcome := ReadObject(ch, dest);
    ghost var x := Change(v, t, v.model.(objs := v.model.objs[t := ReadSteps(v.model.objs[t], dest.Length).o]));
    w := Next(x);
    assert Tied(w, t);
    ChangeIsConfined(x);
  }

  /** The steps that a whole Write takes, as far as it gets. */
  function WriteSteps(o: Obj, data: seq<Byte>): Moved
    decreases |data|
  {
    if data == [] then Moved(o, [])
    else match Do(o, Write(data))
      case Blocked => Moved(o, [])
      case Moved(q, out) =>
        if Link.Bytes(out) == [] || !(Link.Bytes(out) <= data) then Moved(q, out)
        else
          match WriteSteps(q, data[|Link.Bytes(out)|..])
          case Moved(last, more) => Moved(last, out + more)
          case Blocked => Moved(q, out)
  }

  lemma {:induction false} WriteStepsAre(o: Obj, data: seq<Byte>)
    requires o.owned && !o.c.sentEOF
    ensures var r, l := WriteSteps(o, data), Chunking.WriteLoop(o.c, data);
      && r.Moved? && r.o.c == l.c && r.out == l.out && r.o.written == o.written + Link.Bytes(r.out)
    decreases |data|
  {
    if data != [] {
      Chunking.LoopIsSteps(o, data);
      match Do(o, Write(data)) {
        case Blocked => assert o.written + Link.Bytes([]) == o.written;
        case Moved(q, out) =>
          if Link.Bytes(out) != [] {
            WriteStepsAre(q, data[|Link.Bytes(out)|..]);
            BytesCons(out, WriteSteps(q, data[|Link.Bytes(out)|..]).out, o.written);
          }
      }
    }
  }

  lemma BytesCons(out: seq<Message>, more: seq<Message>, w: seq<Byte>)
    requires |out| == 1
    ensures w + Link.Bytes(out) + Link.Bytes(more) == w + Link.Bytes(out + more)
  {
    assert (out + more)[1..] == more && out[1..] == [];
    assert Link.Bytes(out + more) == Link.Bytes(out) + Link.Bytes(more);
  }

  method WriteAt(ghost v: View, ghost t: nat, ch: Channel, data: seq<Byte>)
    returns (n: nat, status: Chunking.Status, ghost w: View)
    requires Faithful(v) && t in v.name && v.name[t] == ch && v.model.objs[t].owned
    requires !v.model.objs[t].c.sentEOF && v.model.objs[t].c.maxRemotePayload < U32
    modifies ch.Repr, ch.enc
    ensures Faithful(w) && fresh(w.Repr - v.Repr) && Performs(v, w, t, WriteSteps(v.model.objs[t], data))
    ensures v.enc.w == old(v.enc.w) + EncodeAll(WriteSteps(v.model.objs[t], data).out)
    ensures n <= |data| && w.model.objs[t].written == v.model.objs[t].written + data[..n]
  {
    assert Tied(v, t);
    WriteStepsAre(v.model.objs[t], data);
    Chunking.WriteSendsAPrefix(v.model.objs[t].c, data);
    ghost var r := WriteSteps(v.model.objs[t], data);
    n, status := ch.Write(data);
    ghost var x := Change(v, t, v.model.(objs := v.model.objs[t := r.o]));
    w := Next(x);
    assert Tied(w, t);
    ChangeIsConfined(x);
  }

  // ---- a new object; the table ----

  /** The view with one more channel. */
  ghost function Added(v: View, k: nat, ch: Channel, o: Obj): View
    reads ch
  {
    v.(model := v.model.(objs := v.model.objs[k := o]), name := v.name[k := ch], Repr := v.Repr + ch.Repr)
  }

  lemma AddedIsFaithful(v: View, k: nat, ch: Channel, o: Obj)
    requires Faithful(v) && k !in v.name && ch.Valid() && ch.enc == v.enc && ch.Repr !! v.Repr
    requires o.c == ch.Value()
    ensures Faithful(Added(v, k, ch, o))
  {
    var w := Added(v, k, ch, o);
    forall j | j in w.name ensures Tied(w, j) {
      if j != k { assert Tied(v, j); }
    }
    forall i, j | i in w.name && j in w.name && i != j ensures w.name[i].Repr !! w.name[j].Repr {
      if i != k { assert Tied(v, i); }
      if j != k { assert Tied(v, j); }
      if i != k && j != k { assert Apart(v, i, j); }
    }
    Assemble(w);
  }

  function WithTable(v: View, table: seq<Option<nat>>): View {
    v.(model := v.model.(table := table))
  }

  lemma TableDoesNotMatter(v: View, table: seq<Option<nat>>)
    requires Faithful(v)
    ensures Faithful(WithTable(v, table))
  {
    var w := WithTable(v, table);
    forall j | j in w.name ensures Tied(w, j) { Retie(v, w, j); }
    forall i, j | i in w.name && j in w.name && i != j ensures w.name[i].Repr !! w.name[j].Repr {
      assert Apart(v, i, j);
    }
    Assemble(w);
  }
}
