/** The send window of a channel (mux/util_window.go): a uint32 credit balance
    that writers draw on and that the peer's window updates top up. */
module Window {
  import opened Wire

  datatype Credit = Credit(win: nat, closed: bool)

  ghost predicate InRange(w: Credit) { w.win < U32 }

  /** add: the sum is computed in uint32, and a sum below one of its operands
      is taken as the sign of wrap-around. A zero update is accepted unseen. */
  function Add(w: Credit, n: nat): Option<Credit> {
    if n == 0 then Some(w)
    else if (w.win + n) % U32 < n then None
    else Some(w.(win := (w.win + n) % U32))
  }

  /** reserve: waits while the window is empty and open; otherwise takes what it
      can, even from a closed window, and then reports io.EOF if it is closed. */
  datatype Reservation = Granted(n: nat) | AtEOF(n: nat) | WouldBlock

  function Reserve(w: Credit, want: nat): (Credit, Reservation) {
    if w.win == 0 && !w.closed then (w, WouldBlock)
    else
      var n := if w.win < want then w.win else want;
      (w.(win := w.win - n), if w.closed then AtEOF(n) else Granted(n))
  }

  /** The wrap-around test is exact: an update is refused if and only if the
      true sum does not fit in a uint32, and an accepted one adds exactly n. */
  lemma AddIsExact(w: Credit, n: nat)
    requires InRange(w) && n < U32
    ensures Add(w, n) == if w.win + n < U32 then Some(w.(win := w.win + n)) else None
  {
    if w.win + n >= U32 { assert (w.win + n) % U32 == w.win + n - U32; }
  }

  /** reserve waits exactly on an empty open window. Otherwise it takes the smaller of
      the request and the balance, leaves the rest, and hands it to the writer exactly
      while the window is open. */
  lemma ReserveTakesTheMinimum(w: Credit, want: nat)
    ensures var (w', r) := Reserve(w, want);
      && (r.WouldBlock? <==> w == Credit(0, false)) && (r.WouldBlock? ==> w' == w)
      && (!r.WouldBlock? ==>
            && r.n <= want && r.n <= w.win && (r.n == want || r.n == w.win)
            && w'.win + r.n == w.win && w'.closed == w.closed && (r.Granted? <==> !w.closed))
  {}

  // ---- runs ----

  datatype Entry = Update(n: nat) | Draw(want: nat) | Shut

  ghost predicate Uint32Entry(op: Entry) {
    match op
    case Update(n) => n < U32
    case Draw(n) => n < U32
    case Shut => true
  }

  /** A window together with the totals accepted from the peer and handed to
      writers. */
  datatype Ledger = Ledger(w: Credit, added: nat, drawn: nat)

  function Post(l: Ledger, op: Entry): Ledger {
    match op
    case Update(n) =>
      (match Add(l.w, n)
       case None => l
       case Some(w) => Ledger(w, l.added + n, l.drawn))
    case Draw(want) =>
      (match Reserve(l.w, want)
       case (w, WouldBlock) => l
       case (w, Granted(n)) => Ledger(w, l.added, l.drawn + n)
       case (w, AtEOF(n)) => Ledger(w, l.added, l.drawn + n))
    case Shut => l.(w := l.w.(closed := true))
  }

  function Posted(ops: seq<Entry>): Ledger {
    if ops == [] then Ledger(Credit(0, false), 0, 0)
    else Post(Posted(ops[..|ops| - 1]), ops[|ops| - 1])
  }

  /** Whatever the order of updates, reservations and closing, the balance is
      always what was accepted minus what was drawn, and stays a uint32. */
  lemma {:induction false} LedgerBalances(ops: seq<Entry>)
    requires forall i :: 0 <= i < |ops| ==> Uint32Entry(ops[i])
    ensures InRange(Posted(ops).w)
    ensures Posted(ops).w.win + Posted(ops).drawn == Posted(ops).added
  {
    if ops != [] {
      var before, op := ops[..|ops| - 1], ops[|ops| - 1];
      LedgerBalances(before);
      if op.Update? { AddIsExact(Posted(before).w, op.n); }
    }
  }

  // ---- the object ----

  class SendWindow {
    var win: nat
    var writeWaiters: int
    var closed: bool

    ghost predicate Valid() reads this { win < U32 }
    ghost function Value(): Credit reads this { Credit(win, closed) }

    constructor ()
      ensures Valid() && Value() == Credit(0, false)
    {
      win, writeWaiters, closed := 0, 0, false;
    }

    method Grow(n: nat) returns (ok: bool)
      requires Valid() && n < U32
      modifies this`win
      ensures Valid()
      ensures ok == (old(win) + n < U32)
      ensures Value() == if ok then old(Value()).(win := old(win) + n) else old(Value())
      ensures Add(old(Value()), n) == if ok then Some(Value()) else None
    {
      AddIsExact(Value(), n);
      if n == 0 {
        return true;
      }
      var sum := (win + n) % U32;
      if sum < n {
        return false;
      }
      win := sum;
      return true;
    }

    /** A blocked caller leaves only its registration in writeWaiters. */
    method Take(want: nat) returns (r: Reservation)
      requires Valid() && want < U32
      modifies this
      ensures Valid() && (Value(), r) == Reserve(old(Value()), want)
      ensures writeWaiters == old(writeWaiters) + if r.WouldBlock? then 1 else 0
      ensures !r.WouldBlock? ==> r.n <= want && r.n <= old(win)
      ensures r.Granted? && want > 0 ==> r.n > 0
    {
      writeWaiters := writeWaiters + 1;
      if win == 0 && !closed {
        return WouldBlock;
      }
      writeWaiters := writeWaiters - 1;
      var n := want;
      if win < n {
        n := win;
      }
      win := win - n;
      r := if closed then AtEOF(n) else Granted(n);
    }

    method Shut()
      requires Valid()
      modifies this`closed
      ensures Valid() && Value() == old(Value()).(closed := true)
    {
      closed := true;
    }
  }
}
