/** The unbounded event queue of libcore/gomobile/app/app.go: a circular buffer with masked
    indices that doubles when it is full. */
module Pump {
  import opened Bytes
  import opened Common

  const INITIAL_SIZE := 16

  // ---------------------------------------------------------------- masked indices

  /** The bitwise and of two natural numbers. */
  function BitAnd(a: nat, b: nat): nat {
    if a == 0 || b == 0 then 0
    else 2 * BitAnd(a / 2, b / 2) + if a % 2 == 1 && b % 2 == 1 then 1 else 0
  }

  lemma ModTwice(i: nat, p: nat)
    requires p > 0
    ensures i % (2 * p) == 2 * (i / 2 % p) + i % 2
  {
    var h := i / 2;
    assert h == p * (h / p) + h % p;
    assert i == 2 * h + i % 2;
    assert i == 2 * p * (h / p) + (2 * (h % p) + i % 2) by {
      assert 2 * (p * (h / p)) == 2 * p * (h / p);
    }
    DivModUnique(i, 2 * p, h / p, 2 * (h % p) + i % 2);
  }

  lemma DivModUnique(i: nat, n: nat, q: nat, r: nat)
    requires n > 0 && i == n * q + r && r < n
    ensures i % n == r
  {
    var q', r' := i / n, i % n;
    assert i == n * q' + r';
    if q < q' {
      assert n * q' >= n * (q + 1) by { MulMonotone(n, q + 1, q'); }
    } else if q' < q {
      assert n * q >= n * (q' + 1) by { MulMonotone(n, q' + 1, q); }
    }
  }

  lemma MulMonotone(n: nat, a: nat, b: nat)
    requires a <= b
    ensures n * a <= n * b
  {
  }

  lemma BitAndStep(i: nat, p: nat)
    requires i > 0 && p > 0
    ensures BitAnd(i, 2 * p - 1) == 2 * BitAnd(i / 2, p - 1) + i % 2
  {
    assert (2 * p - 1) / 2 == p - 1 && (2 * p - 1) % 2 == 1;
  }

  /** Masking with one less than a power of two is the remainder. */
  lemma {:induction false} MaskIsMod(i: nat, k: nat, n: nat)
    requires n == Pow2(k)
    ensures BitAnd(i, n - 1) == i % n
  {
    if k == 0 || i == 0 {
      assert i % n == 0;
    } else {
      var p := Pow2(k - 1);
      var half: nat := i / 2;
      MaskIsMod(half, k - 1, p);
      BitAndStep(i, p);
      ModTwice(i, p);
      assert n == 2 * p;
    }
  }

  // ---------------------------------------------------------------- the specification

  /** What the pump's two channels offer it, one item per turn of its loop: a receiver ready on
      dst, or a value sent on src. */
  datatype Offer<E> = Receiver | Event(e: E) | Stop

  /** An unbounded queue that forgets what comes after the stop. */
  datatype Fifo<E> = Fifo(queue: seq<E>, active: bool, delivered: seq<E>, closed: bool)

  function Empty<E>(): Fifo<E> {
    Fifo([], true, [], false)
  }

  /** One turn: dst closes as soon as the queue is stopped and empty. */
  function Turn<E>(f: Fifo<E>, offer: Offer<E>): Fifo<E> {
    if f.closed then f
    else
      var f' := match offer
        case Receiver => if f.queue == [] then f else f.(queue := f.queue[1..], delivered := f.delivered + [f.queue[0]])
        case Stop => f.(active := false)
        case Event(e) => if f.active then f.(queue := f.queue + [e]) else f;
      f'.(closed := f'.queue == [] && !f'.active)
  }

  function Turns<E>(f: Fifo<E>, offers: seq<Offer<E>>): Fifo<E>
    decreases |offers|
  {
    if offers == [] then f else Turns(Turn(f, offers[0]), offers[1..])
  }

  lemma {:induction false} TurnsAppend<E>(f: Fifo<E>, offers: seq<Offer<E>>, last: Offer<E>)
    ensures Turns(f, offers + [last]) == Turn(Turns(f, offers), last)
    decreases |offers|
  {
    if offers == [] {
      assert [] + [last] == [last] && [last][1..] == [];
      assert Turns(Turn(f, last), []) == Turn(f, last);
    } else {
      assert (offers + [last])[1..] == offers[1..] + [last];
      TurnsAppend(Turn(f, offers[0]), offers[1..], last);
    }
  }

  /** The events sent before the first stop. */
  function Accepted<E>(offers: seq<Offer<E>>): seq<E>
    decreases |offers|
  {
    if offers == [] || offers[0].Stop? then []
    else (if offers[0].Event? then [offers[0].e] else []) + Accepted(offers[1..])
  }

  lemma TurnConserves<E>(f: Fifo<E>, offer: Offer<E>)
    requires f.closed ==> f.queue == [] && !f.active
    ensures var f' := Turn(f, offer);
            && f'.delivered + f'.queue == f.delivered + f.queue + (if f.active && offer.Event? then [offer.e] else [])
            && (f'.closed ==> f'.queue == [] && !f'.active)
            && (f'.active <==> f.active && !offer.Stop?)
  {
    if offer.Receiver? && f.queue != [] && !f.closed {
      assert f.queue == [f.queue[0]] + f.queue[1..];
    }
  }

  /** Delivered and queued events together are always the accepted ones, in order; dst is
      closed only when a stop was sent and everything accepted was delivered. */
  lemma {:induction false} TurnsConserve<E>(f: Fifo<E>, offers: seq<Offer<E>>)
    requires f.closed ==> f.queue == [] && !f.active
    ensures var f' := Turns(f, offers);
            && f'.delivered + f'.queue == f.delivered + f.queue + (if f.active then Accepted(offers) else [])
            && (f'.closed ==> f'.queue == [] && !f'.active)
            && (f'.active <==> f.active && Stop !in offers)
    decreases |offers|
  {
    if offers != [] {
      var f1 := Turn(f, offers[0]);
      TurnConserves(f, offers[0]);
      TurnsConserve(f1, offers[1..]);
      Associate(f.delivered + f.queue, if f.active && offers[0].Event? then [offers[0].e] else [],
                     if f.active && !offers[0].Stop? then Accepted(offers[1..]) else []);
      assert Stop in offers <==> offers[0] == Stop || Stop in offers[1..];
    }
  }

  lemma PumpConserves<E>(offers: seq<Offer<E>>)
    ensures var f := Turns(Empty<E>(), offers);
            && f.delivered + f.queue == Accepted(offers)
            && (f.closed ==> f.delivered == Accepted(offers) && Stop in offers)
  {
    TurnsConserve(Empty<E>(), offers);
    var f := Turns(Empty<E>(), offers);
    assert [] + [] + Accepted(offers) == Accepted(offers);
    if f.closed { assert f.delivered + [] == f.delivered; }
  }

  function Receivers<E>(n: nat): (offers: seq<Offer<E>>)
    ensures |offers| == n
  {
    seq(n, i => Receiver)
  }

  /** After a stop, as many receives as events are still queued close dst, and not one fewer. */
  lemma {:induction false} StoppedPumpDrains<E>(f: Fifo<E>, n: nat)
    requires !f.active && (f.closed <==> f.queue == [])
    ensures Turns(f, Receivers(n)).closed <==> n >= |f.queue|
    decreases n
  {
    if n > 0 && f.queue != [] {
      assert Receivers<E>(n)[0] == Receiver && Receivers<E>(n)[1..] == Receivers(n - 1);
      StoppedPumpDrains(Turn(f, Receiver), n - 1);
    } else if n > 0 {
      ClosedStays(f, Receivers(n));
    }
  }

  /** Receivers get the queued events from the head on, whether the source is still active or not. */
  lemma {:induction false} ReceiversGetTheHead<E>(f: Fifo<E>, n: nat)
    requires !f.closed && n <= |f.queue|
    ensures Turns(f, Receivers(n)).delivered == f.delivered + f.queue[..n]
    ensures Turns(f, Receivers(n)).queue == f.queue[n..]
    decreases n
  {
    if n > 0 {
      var f1 := Turn(f, Receiver);
      assert Receivers<E>(n)[0] == Receiver && Receivers<E>(n)[1..] == Receivers(n - 1);
      assert f.queue[..n] == [f.queue[0]] + f.queue[1..][..n - 1];
      if f1.closed {
        assert n == 1;
      } else {
        ReceiversGetTheHead(f1, n - 1);
      }
    }
  }

  /** Whatever has happened, as many receivers as events are queued get all that was accepted. */
  lemma ReceiversGetAll<E>(offers: seq<Offer<E>>)
    ensures var n := |Turns(Empty<E>(), offers).queue|;
            Turns(Empty(), offers + Receivers(n)).delivered == Accepted(offers)
  {
    var f := Turns(Empty<E>(), offers);
    PumpConserves(offers);
    TurnsSplit(Empty(), offers, Receivers(|f.queue|));
    if f.closed {
      ClosedStays(f, Receivers(|f.queue|));
    } else {
      ReceiversGetTheHead(f, |f.queue|);
      assert f.queue[..|f.queue|] == f.queue;
    }
  }

  lemma {:induction false} ClosedStays<E>(f: Fifo<E>, offers: seq<Offer<E>>)
    requires f.closed
    ensures Turns(f, offers) == f
    decreases |offers|
  {
    if offers != [] { ClosedStays(f, offers[1..]); }
  }

  // ---------------------------------------------------------------- the ring

  class Ring<E> {
    var i: nat
    var j: nat
    var buf: array<Option<E>>
    var mask: nat
    var srcActive: bool
    ghost var size: nat      // buf has 2^size slots
    ghost var window: seq<E> // the events in the slots from i to j
    ghost var delivered: seq<E>

    constructor ()
      ensures Valid() && fresh(buf)
      ensures window == [] && srcActive && delivered == []
    {
      i, j, buf, mask := 0, 0, new Option<E>[INITIAL_SIZE](_ => None), INITIAL_SIZE - 1;
      srcActive := true;
      size, window, delivered := 4, [], [];
      assert Pow2(4) == 16;
    }

    /** The length stays a power of two, the window never exceeds it, and a slot outside the
        window holds nothing. */
    ghost predicate Valid()
      reads this, buf
    {
      && buf.Length == Pow2(size) && buf.Length >= INITIAL_SIZE
      && mask == buf.Length - 1
      && i <= j <= i + buf.Length && j - i == |window|
      && (forall k :: i <= k < j ==> buf[k % buf.Length] == Some(window[k - i]))
      && (forall k :: j <= k < i + buf.Length ==> buf[k % buf.Length] == None)
    }

    /** The queue that the ring stands for, while the loop is running. */
    ghost function Contents(): Fifo<E>
      reads this
    {
      Fifo(window, srcActive, delivered, window == [] && !srcActive)
    }

    function Slot(k: nat): nat
      reads this
    {
      BitAnd(k, mask)
    }

    lemma SlotIsMod(k: nat)
      requires Valid()
      ensures Slot(k) == k % buf.Length < buf.Length
    {
      MaskIsMod(k, size, buf.Length);
    }

    /** case maybeDst <- buf[i&mask]. */
    method Deliver() returns (e: E)
      requires Valid() && i != j
      modifies this, buf
      ensures Valid() && buf == old(buf) && srcActive == old(srcActive)
      ensures e == old(window)[0] && window == old(window)[1..] && delivered == old(delivered) + [e]
    {
      SlotIsMod(i);
      e := buf[Slot(i)].value;
      buf[Slot(i)] := None;
      OneTurnOn(i, buf.Length);
      DistinctSlots(i, buf.Length);
      i := i + 1;
      window := window[1..];
      delivered := delivered + [e];
    }

    /** Where the window is in a full ring. */
    lemma FullWindow()
      requires Valid() && i + buf.Length == j
      ensures Slot(j) == i % buf.Length < buf.Length
      ensures var start := Slot(j);
              && (forall k :: 0 <= k < buf.Length - start ==> buf[start + k] == Some(window[k]))
              && (forall k :: buf.Length - start <= k < buf.Length ==>
                    buf[k - (buf.Length - start)] == Some(window[k]))
    {
      SlotIsMod(j);
      OneTurnOn(i, buf.Length);
      var slots := buf[..];
      forall k | i <= k < i + |slots| ensures slots[k % |slots|] == Some(window[k - i]) {
        assert slots[k % |slots|] == buf[k % buf.Length];
      }
      Unrolled(slots, window, i);
    }

    /** The two copies into a buffer twice as large. */
    method CopyOut() returns (b: array<Option<E>>)
      requires Valid() && i + buf.Length == j
      ensures fresh(b) && b.Length == 2 * buf.Length
      ensures forall k :: 0 <= k < 2 * buf.Length ==> b[k] == if k < buf.Length then Some(window[k]) else None
    {
      FullWindow();
      var len, start := buf.Length, Slot(j);
      b := new Option<E>[2 * len](_ => None);
      forall k | 0 <= k < len - start {
        b[k] := buf[start + k];
      }
      forall k | len - start <= k < len {
        b[k] := buf[k - (len - start)];
      }
    }

    /** Doubles the buffer when it is full, the window first. */
    method Grow()
      requires Valid() && i + buf.Length == j
      modifies this
      ensures Valid() && fresh(buf) && j < i + buf.Length && srcActive == old(srcActive)
      ensures window == old(window) && delivered == old(delivered)
    {
      var len := buf.Length;
      var b := CopyOut();
      forall k | 0 <= k < 2 * len ensures b[k % (2 * len)] == if k < len then Some(window[k]) else None {
        SmallMod(k, 2 * len);
      }
      i, j := 0, len;
      buf, mask := b, 2 * len - 1;
      size := size + 1;
    }

    /** case e := <-src, while the source is active. */
    method Accept(e: E)
      requires Valid()
      modifies this, buf
      ensures Valid() && (buf == old(buf) || fresh(buf)) && srcActive == old(srcActive)
      ensures window == old(window) + [e] && delivered == old(delivered)
    {
      if i + buf.Length == j {
        Grow();
      }
      SlotIsMod(j);
      DistinctSlots(i, buf.Length);
      buf[Slot(j)] := Some(e);
      j := j + 1;
      window := window + [e];
    }

    method StopSource()
      requires Valid()
      modifies this`srcActive
      ensures Valid() && !srcActive
    {
      srcActive := false;
    }
  }

  lemma OneTurnOn(i: nat, n: nat)
    requires n > 0
    ensures (i + n) % n == i % n
  {
    DivModUnique(i + n, n, i / n + 1, i % n);
  }

  lemma SmallMod(k: nat, n: nat)
    requires k < n
    ensures k % n == k
  {
    DivModUnique(k, n, 0, k);
  }

  /** The k-th slot from i on, counted from the slot of i. */
  lemma AddMod(i: nat, k: nat, n: nat)
    requires k < n
    ensures (i + k) % n == if k < n - i % n then i % n + k else i % n + k - n
  {
    var q, r := i / n, i % n;
    if k < n - r {
      DivModUnique(i + k, n, q, r + k);
    } else {
      DivModUnique(i + k, n, q + 1, r + k - n);
    }
  }

  /** A full ring, from the slot of i to the end and then from the start, is its window. */
  lemma Unrolled<E>(slots: seq<Option<E>>, window: seq<E>, i: nat)
    requires |slots| == |window| > 0
    requires forall k :: i <= k < i + |slots| ==> slots[k % |slots|] == Some(window[k - i])
    ensures var start := i % |slots|;
            && (forall k :: 0 <= k < |slots| - start ==> slots[start + k] == Some(window[k]))
            && (forall k :: |slots| - start <= k < |slots| ==> slots[k - (|slots| - start)] == Some(window[k]))
  {
    var n := |slots|;
    var start := i % n;
    forall k: nat | k < n ensures slots[if k < n - start then start + k else start + k - n] == Some(window[k]) {
      AddMod(i, k, n);
      assert slots[(i + k) % n] == Some(window[i + k - i]);
    }
    forall k: nat | n - start <= k < n ensures slots[k - (n - start)] == Some(window[k]) {
      assert slots[if k < n - start then start + k else start + k - n] == Some(window[k]);
    }
  }

  /** Indices less than one turn apart use different slots. */
  lemma DistinctSlots(i: nat, n: nat)
    requires n > 0
    ensures forall k, k' :: i <= k < k' < i + n ==> k % n != k' % n
  {
    forall k: nat, k': nat | i <= k < k' < i + n ensures k % n != k' % n {
      AddMod(k, k' - k, n);
    }
  }

  /** The pump's loop on any sequence of offers: what comes out of dst, and whether it is
      closed, is what the unbounded queue gives. */
  method Pump<E>(offers: seq<Offer<E>>) returns (out: seq<E>, closed: bool)
    ensures out == Turns(Empty(), offers).delivered
    ensures closed == Turns(Empty(), offers).closed
  {
    var ring := new Ring<E>();
    out, closed := [], false;
    var n := 0;
    while n < |offers|
      invariant n <= |offers| && ring.Valid() && fresh(ring) && fresh(ring.buf)
      invariant ring.Contents() == Turns(Empty(), offers[..n]) && out == ring.delivered
    {
      if ring.i == ring.j && !ring.srcActive {
        break;
      }
      TurnsAppend(Empty(), offers[..n], offers[n]);
      assert offers[..n] + [offers[n]] == offers[..n + 1];
      match offers[n] {
        case Receiver =>
          if ring.i != ring.j {
            var e := ring.Deliver();
            out := out + [e];
          }
        case Stop =>
          ring.StopSource();
        case Event(e) =>
          if ring.srcActive {
            ring.Accept(e);
          }
      }
      n := n + 1;
    }
    closed := ring.i == ring.j && !ring.srcActive;
    TurnsSplit(Empty(), offers[..n], offers[n..]);
    assert offers[..n] + offers[n..] == offers;
    if n < |offers| {
      ClosedStays(ring.Contents(), offers[n..]);
    }
  }

  lemma {:induction false} TurnsSplit<E>(f: Fifo<E>, first: seq<Offer<E>>, rest: seq<Offer<E>>)
    ensures Turns(f, first + rest) == Turns(Turns(f, first), rest)
    decreases |first|
  {
    if first == [] {
      assert [] + rest == rest;
    } else {
      assert (first + rest)[1..] == first[1..] + rest;
      TurnsSplit(Turn(f, first[0]), first[1..], rest);
    }
  }
}
