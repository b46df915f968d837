/** wk2xxx_tx_chars of spi2uart.c: draining the UART's circular transmit buffer into the chip's FIFO. */
module TxRing {
  import opened Bytes

  const FIFO := 255
  const WAKEUP_CHARS := 256

  // ----- masked indices -----

  function Pow2(k: nat): (r: nat)
    ensures r > 0
  {
    if k == 0 then 1 else 2 * Pow2(k - 1)
  }

  /** Bitwise and. */
  function And(x: nat, y: nat): (r: nat)
  {
    if x == 0 || y == 0 then 0 else (x % 2) * (y % 2) + 2 * And(x / 2, y / 2)
  }

  lemma HalfMod(x: nat, m: nat, p: nat)
    requires m > 0 && p == 2 * m
    ensures x % p == x % 2 + 2 * (x / 2 % m)
  {
    var q, e := x / 2 / m, x / 2 % m;
    assert x / 2 == m * q + e;
    assert p * q == 2 * (m * q);
    ModUnique(x, p, q, 2 * e + x % 2);
  }

  /** x & (2^k - 1) is x modulo 2^k. */
  lemma {:induction false} MaskIsModulo(x: nat, k: nat)
    ensures And(x, Pow2(k) - 1) == x % Pow2(k)
    decreases k
  {
    if k == 0 {
      ModUnique(x, 1, x, 0);
    } else {
      MaskIsModulo(x / 2, k - 1);
      MaskStep(x, Pow2(k - 1), Pow2(k));
    }
  }

  lemma MaskStep(x: nat, m: nat, p: nat)
    requires m > 0 && p == 2 * m && And(x / 2, m - 1) == x / 2 % m
    ensures And(x, p - 1) == x % p
  {
    hide And;
    HalfMod(x, m, p);
    AndOdd(x, m - 1);
    assert 2 * (m - 1) + 1 == p - 1;
  }

  lemma AndOdd(x: nat, y: nat)
    ensures And(x, 2 * y + 1) == x % 2 + 2 * And(x / 2, y)
  {
  }

  // ----- the ring -----

  /** Pending bytes of a ring of the given size: from tail up to head, round the end. */
  function Pending(buf: seq<byte>, head: nat, tail: nat): (r: seq<byte>)
    requires head < |buf| && tail < |buf|
    ensures |r| == if tail <= head then head - tail else head + |buf| - tail
  {
    if tail <= head then buf[tail..head] else buf[tail..] + buf[..head]
  }

  /** Taking the byte at tail removes the first pending byte. */
  lemma TakeOne(buf: seq<byte>, head: nat, tail: nat)
    requires head < |buf| && tail < |buf| && head != tail
    ensures var next := if tail + 1 == |buf| then 0 else tail + 1;
            Pending(buf, head, tail) == [buf[tail]] + Pending(buf, head, next)
  {
    if tail < head {
      assert buf[tail..head] == [buf[tail]] + buf[tail + 1..head];
    } else {
      assert buf[tail..] == [buf[tail]] + buf[tail + 1..];
      assert [buf[tail]] + buf[tail + 1..] + buf[..head] == [buf[tail]] + (buf[tail + 1..] + buf[..head]);
    }
  }

  /** Putting a byte at head appends it to the pending bytes, unless that would make the ring look empty. */
  lemma PutOne(buf: seq<byte>, head: nat, tail: nat, c: byte)
    requires head < |buf| && tail < |buf| && |Pending(buf, head, tail)| + 1 < |buf|
    ensures var next := if head + 1 == |buf| then 0 else head + 1;
            Pending(buf[head := c], next, tail) == Pending(buf, head, tail) + [c]
  {
    var after := buf[head := c];
    if tail <= head {
      assert after[tail..head + 1] == buf[tail..head] + [c];
      assert head + 1 == |buf| ==> after[tail..] == after[tail..head + 1];
    } else {
      assert after[tail..] == buf[tail..] && after[..head + 1] == buf[..head] + [c];
      assert buf[tail..] + (buf[..head] + [c]) == buf[tail..] + buf[..head] + [c];
    }
  }

  /** Free FIFO places as the source computes them from the counter and the full flag. */
  function Room(tfcnt: byte, full: bool): (r: nat)
    ensures r <= FIFO
  {
    if tfcnt == 0 then (if full then 0 else FIFO) else FIFO - tfcnt
  }

  /** Bytes one call moves: never more than are pending, and at least one of them even into a full FIFO. */
  function Moved(pending: nat, room: nat): nat {
    Min(pending, if room == 0 then 1 else room)
  }

  class Port {
    const bits: nat
    const buf: array<byte>
    var head: nat
    var tail: nat
    var icountTx: u32
    var xChar: byte
    var stopped: bool
    /** Bytes written to the chip's data register, oldest first. */
    ghost var fdat: seq<byte>

    ghost predicate Valid()
      reads this, buf
    {
      buf.Length == Pow2(bits) && head < buf.Length && tail < buf.Length
    }

    ghost function Ring(): seq<byte>
      requires Valid()
      reads this, buf
    {
      Pending(buf[..], head, tail)
    }

    /** uart_circ_chars_pending: CIRC_CNT(head, tail, size), that is (head - tail) & (size - 1) on wrapping words. */
    method CharsPending() returns (n: nat)
      requires Valid()
      ensures n == |Ring()|
    {
      n := And(head + buf.Length - tail, buf.Length - 1);
      MaskIsModulo(head + buf.Length - tail, bits);
      if tail <= head {
        ModUnique(head + buf.Length - tail, buf.Length, 1, head - tail);
      } else {
        ModUnique(head + buf.Length - tail, buf.Length, 0, head + buf.Length - tail);
      }
    }

    /** CIRC_SPACE(head, tail, size), that is (tail - (head + 1)) & (size - 1) on wrapping words. */
    method CircSpace() returns (n: nat)
      requires Valid()
      ensures n == buf.Length - 1 - |Ring()|
    {
      n := And(tail + buf.Length - 1 - head, buf.Length - 1);
      MaskIsModulo(tail + buf.Length - 1 - head, bits);
      SpaceLeft(buf.Length, head, tail);
    }

    method PutByte(c: byte)
      requires Valid() && |Ring()| + 1 < buf.Length
      modifies `head, buf
      ensures Valid() && Ring() == old(Ring()) + [c]
    {
      PutOne(buf[..], head, tail, c);
      ghost var was := buf[..];
      MaskIsModulo(head + 1, bits);
      StepTail(head, buf.Length);
      hide And, Pow2, Pending;
      buf[head] := c;
      assert buf[..] == was[head := c];
      head := And(head + 1, buf.Length - 1);
    }

    /** The serial core's side of the ring: a byte is queued if there is room. */
    method Enqueue(c: byte) returns (taken: bool)
      requires Valid()
      modifies `head, buf
      ensures Valid() && taken == (|old(Ring())| + 1 < buf.Length)
      ensures Line(buf.Length, Ring(), fdat) == Step(Line(buf.Length, old(Ring()), fdat), Queued(c))
    {
      hide And, Pow2, Pending;
      var space := CircSpace();
      taken := space > 0;
      if taken {
        PutByte(c);
      }
    }

    method WriteFdat(c: byte)
      modifies `fdat
      ensures fdat == old(fdat) + [c]
    {
      fdat := fdat + [c];
    }

    /** One turn of the do-while loop on a ring that is not empty. */
    method TakeByte(txbuf: array<byte>, i: nat)
      requires Valid() && txbuf != buf && i < txbuf.Length && head != tail
      modifies `tail, `icountTx, txbuf
      ensures Valid()
      ensures txbuf[..i + 1] == old(txbuf[..i]) + [old(Ring())[0]] && Ring() == old(Ring())[1..]
      ensures icountTx == U32(old(icountTx) + 1)
    {
      TakeOne(buf[..], head, tail);
      ghost var first := txbuf[..i];
      txbuf[i] := buf[tail];
      assert txbuf[..i + 1] == first + [buf[tail]];
      MaskIsModulo(tail + 1, bits);
      StepTail(tail, buf.Length);
      hide And, Pow2, Pending;
      tail := And(tail + 1, buf.Length - 1);
      icountTx := U32(icountTx + 1);
    }

    /** The do-while loop: up to `room` bytes, but at least one try, from the ring into txbuf. */
    method Collect(txbuf: array<byte>, room: nat) returns (i: nat)
      requires Valid() && txbuf != buf && txbuf.Length == FIFO && room <= FIFO
      modifies `tail, `icountTx, txbuf
      ensures Valid()
      ensures i == Moved(|old(Ring())|, room)
      ensures txbuf[..i] == old(Ring())[..i] && Ring() == old(Ring())[i..]
      ensures icountTx == U32(old(icountTx) + i)
    {
      ghost var was := Ring();
      ghost var counted := icountTx;
      i := 0;
      hide And, Pow2, Pending;
      var count: int, again := room, true;
      while again && head != tail
        invariant Valid() && i <= FIFO && i <= |was|
        invariant txbuf[..i] == was[..i] && Ring() == was[i..]
        invariant icountTx == U32(counted + i)
        invariant count == room - i
        invariant if again then i == 0 || i < room else i == Moved(|was|, room)
        decreases again, FIFO - i
      {
        U32Add(counted + i, 1);
        TakeByte(txbuf, i);
        assert was[..i + 1] == was[..i] + [was[i..][0]] && was[i..][1..] == was[i + 1..];
        i := i + 1;
        count := count - 1;
        again := count > 0;
      }
    }

    /** The loop that writes the collected bytes out. */
    method WriteOut(txbuf: array<byte>, i: nat)
      requires i <= txbuf.Length
      modifies `fdat
      ensures fdat == old(fdat) + txbuf[..i]
    {
      for n := 0 to i
        invariant fdat == old(fdat) + txbuf[..n]
      {
        WriteFdat(txbuf[n]);
        assert txbuf[..n + 1] == txbuf[..n] + [txbuf[n]];
      }
    }

    /** wk2xxx_tx_chars, given what its register reads return: the FIFO level and full flag at the start, and
        whether the transmitter is idle (TDAT and TBUSY both 0) at the end. */
    method TxChars(tfcnt: byte, full: bool, idle: bool) returns (wakeup: bool, stopTx: bool)
      requires Valid()
      modifies `tail, `icountTx, `xChar, `fdat
      ensures Valid()
      ensures var room := if tfcnt == 255 || (tfcnt == 0 && full) then 1 else 255 - tfcnt;
              var k := if old(xChar) != 0 || old(stopped) then 0 else Min(|old(Ring())|, room);
              && k <= |old(Ring())|
              && fdat == old(fdat) + (if old(xChar) != 0 then [old(xChar)] else old(Ring())[..k])
              && Ring() == old(Ring())[k..]
              && icountTx == U32(old(icountTx) + if old(xChar) != 0 then 1 else k)
      ensures old(xChar) == 0 && !old(stopped) ==>
              Line(buf.Length, Ring(), fdat) == Step(Line(buf.Length, old(Ring()), old(fdat)), Drained(tfcnt, full))
      ensures xChar == 0
      ensures wakeup == (idle && |Ring()| < 256) && stopTx == (idle && |Ring()| == 0)
    {
      hide And, Pow2, Pending;
      if xChar != 0 {
        WriteFdat(xChar);
        icountTx := U32(icountTx + 1);
        xChar := 0;
      } else if head != tail && !stopped {
        var txbuf := new byte[FIFO](_ => 0);
        var i := Collect(txbuf, Room(tfcnt, full));
        WriteOut(txbuf, i);
      }
      var pending := CharsPending();
      wakeup := idle && pending < WAKEUP_CHARS;
      stopTx := idle && head == tail;
    }
  }

  lemma StepTail(tail: nat, size: nat)
    requires tail < size
    ensures (tail + 1) % size == if tail + 1 == size then 0 else tail + 1
  {
    if tail + 1 == size {
      ModUnique(tail + 1, size, 1, 0);
    } else {
      ModUnique(tail + 1, size, 0, tail + 1);
    }
  }

  lemma SpaceLeft(size: nat, head: nat, tail: nat)
    requires head < size && tail < size
    ensures (tail + size - 1 - head) % size == size - 1 - (if tail <= head then head - tail else head + size - tail)
  {
    if tail <= head {
      ModUnique(tail + size - 1 - head, size, 0, tail + size - 1 - head);
    } else {
      ModUnique(tail + size - 1 - head, size, 1, tail - 1 - head);
    }
  }

  // ----- whole runs -----

  /** The serial core queues a byte if the ring has room, or the driver drains with these register readings (no
      x_char, not stopped). */
  datatype Event = Queued(c: byte) | Drained(tfcnt: byte, full: bool)

  /** Size of the ring, bytes still in it, and bytes written to the chip; Port.Enqueue and Port.TxChars do just what
      the two kinds of step say. */
  datatype Line = Line(size: nat, ring: seq<byte>, fdat: seq<byte>)

  function Step(l: Line, ev: Event): Line {
    match ev
    case Queued(c) => if |l.ring| + 1 < l.size then l.(ring := l.ring + [c]) else l
    case Drained(tfcnt, full) =>
      var k := Moved(|l.ring|, Room(tfcnt, full));
      l.(ring := l.ring[k..], fdat := l.fdat + l.ring[..k])
  }

  function Run(l: Line, evs: seq<Event>): Line
    decreases |evs|
  {
    if evs == [] then l else Run(Step(l, evs[0]), evs[1..])
  }

  /** The bytes the ring had room for. */
  function Accepted(l: Line, evs: seq<Event>): seq<byte>
    decreases |evs|
  {
    if evs == [] then []
    else (if evs[0].Queued? && |l.ring| + 1 < l.size then [evs[0].c] else []) + Accepted(Step(l, evs[0]), evs[1..])
  }

  /** Conservation: at any time the bytes written, followed by those pending, are the bytes accepted, in order; and the
      ring never holds more than one byte less than its size. */
  lemma {:induction false} RunConserves(l: Line, evs: seq<Event>)
    requires |l.ring| < l.size
    ensures Run(l, evs).fdat + Run(l, evs).ring == l.fdat + l.ring + Accepted(l, evs)
    ensures |Run(l, evs).ring| < Run(l, evs).size == l.size
    decreases |evs|
  {
    if evs == [] {
      assert l.fdat + l.ring + [] == l.fdat + l.ring;
    } else {
      hide Step;
      var next := Step(l, evs[0]);
      var queued := if evs[0].Queued? && |l.ring| + 1 < l.size then [evs[0].c] else [];
      StepConserves(l, evs[0]);
      RunConserves(next, evs[1..]);
      assert l.fdat + l.ring + queued + Accepted(next, evs[1..]) == l.fdat + l.ring + Accepted(l, evs);
    }
  }

  lemma StepConserves(l: Line, ev: Event)
    requires |l.ring| < l.size
    ensures Step(l, ev).fdat + Step(l, ev).ring
         == l.fdat + l.ring + (if ev.Queued? && |l.ring| + 1 < l.size then [ev.c] else [])
    ensures |Step(l, ev).ring| < Step(l, ev).size == l.size
  {
    match ev
    case Queued(c) => assert l.fdat + (l.ring + [c]) == l.fdat + l.ring + [c];
    case Drained(tfcnt, full) =>
      var k := Moved(|l.ring|, Room(tfcnt, full));
      assert l.ring == l.ring[..k] + l.ring[k..];
  }

  /** Each drain moves at least one pending byte, so as many drains as there are bytes empty the ring. */
  lemma {:induction false} DrainsEmpty(l: Line, evs: seq<Event>)
    requires |evs| >= |l.ring| && forall i :: 0 <= i < |evs| ==> evs[i].Drained?
    ensures Run(l, evs).ring == []
    decreases |evs|
  {
    if evs != [] {
      var rest := evs[1..];
      assert evs[0].Drained? && forall i :: 0 <= i < |rest| ==> rest[i] == evs[i + 1];
      DrainsEmpty(Step(l, evs[0]), rest);
    }
  }

  /** In numbers, without x_char and not stopped: into a FIFO of 255 places that holds tfcnt bytes a call writes the
      pending bytes as far as there are places; into a full one, which the counter shows as 255 or as 0 with the full
      flag, still one byte. So what it holds afterwards exceeds 255 exactly if it was full and a byte was pending, and
      then by that byte. */
  lemma OverfillsIff(pending: nat, tfcnt: byte, full: bool)
    ensures var moved := Moved(pending, Room(tfcnt, full));
            var held := if tfcnt == 0 && full then 255 else tfcnt as int;
            && (0 < tfcnt < 255 ==> moved == Min(pending, 255 - tfcnt))
            && (tfcnt == 0 && !full ==> moved == Min(pending, 255))
            && (tfcnt == 255 || (tfcnt == 0 && full) ==> moved == Min(pending, 1))
            && (held + moved > 255 <==> held == 255 && pending > 0)
            && held + moved <= 256
  {
  }

  /** The same over runs: a drain of a line moves that many bytes from the front of its ring to the chip. */
  lemma DrainsInNumbers(l: Line, tfcnt: byte, full: bool)
    ensures var r := Step(l, Drained(tfcnt, full));
            var room := if tfcnt == 255 || (tfcnt == 0 && full) then 1 else 255 - tfcnt;
            var k := Min(|l.ring|, room);
            r == Line(l.size, l.ring[k..], l.fdat + l.ring[..k])
  {
    OverfillsIff(|l.ring|, tfcnt, full);
    hide Moved, Room;
  }
}
