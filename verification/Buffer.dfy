/** The receive buffer of a channel (mux/util_buffer.go): a linked list of byte
    slices, filled at the tail by the receive loop and emptied at the head by
    Read. It refines a queue of bytes. */
module Buffer {
  import opened Wire

  class Element {
    var buf: seq<Byte>
    var next: Element?

    constructor (buf: seq<Byte>)
      ensures this.buf == buf && next == null
    {
      this.buf, next := buf, null;
    }
  }

  /** The bytes of a run of elements. */
  ghost function Flat(nodes: seq<Element>): seq<Byte>
    reads nodes`buf
  {
    if nodes == [] then [] else nodes[0].buf + Flat(nodes[1..])
  }

  lemma {:induction false} FlatAppend(nodes: seq<Element>, e: Element)
    ensures Flat(nodes + [e]) == Flat(nodes) + e.buf
  {
    if nodes != [] {
      assert (nodes + [e])[1..] == nodes[1..] + [e];
      FlatAppend(nodes[1..], e);
    }
  }

  /** n bytes copied; or io.EOF; or the caller waits for the producer. */
  datatype Outcome = Copied | AtEOF | WouldBlock

  class Pending {
    var head: Element
    var tail: Element
    var closed: bool
    /** The elements from head to tail. */
    ghost var nodes: seq<Element>
    ghost var Repr: set<object>

    ghost predicate Valid()
      reads this, Repr
    {
      && this in Repr && (forall i :: 0 <= i < |nodes| ==> nodes[i] in Repr)
      && nodes != [] && head == nodes[0] && tail == nodes[|nodes| - 1]
      && (forall i :: 0 <= i < |nodes| - 1 ==> nodes[i].next == nodes[i + 1])
      && (forall i, j :: 0 <= i < j < |nodes| ==> nodes[i] != nodes[j])
    }

    ghost function Contents(): seq<Byte>
      reads this, nodes`buf
    {
      Flat(nodes)
    }

    constructor ()
      ensures Valid() && fresh(Repr)
      ensures Contents() == [] && !closed
    {
      var e := new Element([]);
      head, tail, closed, nodes, Repr := e, e, false, [e], {this, e};
      new;
      assert nodes[1..] == [] && Flat(nodes) == nodes[0].buf + Flat(nodes[1..]);
    }

    method Write(buf: seq<Byte>)
      requires Valid()
      modifies Repr
      ensures Valid() && fresh(Repr - old(Repr))
      ensures Contents() == old(Contents()) + buf
      ensures closed == old(closed)
    {
      var e := new Element(buf);
      FlatAppend(nodes, e);
      tail.next := e;
      tail := e;
      nodes, Repr := nodes + [e], Repr + {e};
    }

    method EndOfFile()
      requires Valid()
      modifies this`closed
      ensures closed && Valid() && Contents() == old(Contents())
    {
      closed := true;
    }

    /** Copies out the first min(dest.Length, available) bytes, in order, across
        element boundaries and past empty elements. Reports the end only when
        the buffer is closed and everything ever written has been taken. */
    method Read(dest: array<Byte>) returns (n: nat, outcome: Outcome)
      requires Valid()
      modifies Repr, dest
      ensures Valid() && Repr == old(Repr) && closed == old(closed)
      ensures n == if dest.Length < |old(Contents())| then dest.Length else |old(Contents())|
      ensures dest[..n] == old(Contents())[..n]
      ensures dest[n..] == old(dest[n..])
      ensures Contents() == old(Contents())[n..]
      ensures outcome == if dest.Length == 0 || old(Contents()) != [] then Copied
                         else if closed then AtEOF else WouldBlock
    {
      ghost var all := Contents();
      n, outcome := 0, Copied;
      while n < dest.Length
        invariant Valid() && Repr == old(Repr) && closed == old(closed)
        invariant n <= dest.Length && n <= |all|
        invariant dest[..n] == all[..n] && dest[n..] == old(dest[..])[n..]
        invariant Contents() == all[n..] && outcome == Copied
        decreases dest.Length - n, |nodes|
      {
        if |head.buf| > 0 {
          n := TakeFromHead(dest, n, all);
          continue;
        }
        if head != tail {
          assert Flat(nodes) == head.buf + Flat(nodes[1..]);
          head := head.next;
          nodes := nodes[1..];
          continue;
        }
        assert nodes[1..] == [] && Contents() == head.buf + Flat(nodes[1..]) == [];
        if n > 0 {
          break;
        }
        outcome := if closed then AtEOF else WouldBlock;
        break;
      }
    }

    /** copy(buf, b.head.buf), and the two re-slicings after it. */
    method TakeFromHead(dest: array<Byte>, n: nat, ghost all: seq<Byte>) returns (n': nat)
      requires Valid() && n < dest.Length && n <= |all| && head.buf != []
      requires dest[..n] == all[..n] && Contents() == all[n..]
      modifies head`buf, dest
      ensures Valid() && n < n' <= dest.Length && n' <= |all|
      ensures dest[..n'] == all[..n'] && dest[n'..] == old(dest[n'..])
      ensures Contents() == all[n'..]
    {
      var r := if dest.Length - n < |head.buf| then dest.Length - n else |head.buf|;
      n' := n + r;
      ghost var rest := Flat(nodes[1..]);
      assert all[n..] == head.buf + rest;
      forall i | n <= i < n' {
        dest[i] := head.buf[i - n];
      }
      head.buf := head.buf[r..];
      assert all[n'..] == all[n..][r..];
      assert dest[..n'] == all[..n] + all[n..][..r];
    }
  }
}
