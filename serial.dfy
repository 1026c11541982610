/**
 * The interrupt-driven serial transmitter of AVR_Firmware02/src/serial.rs.
 *
 * `write_str` appends bytes at `head` of a 128-byte ring until the ring is
 * full (one slot is always left free, so `head == tail` means empty), drops
 * the rest silently and enables the "data register empty" interrupt; the
 * USART0_UDRE handler emits the byte at `tail` and advances `tail`, or turns
 * the interrupt off once the ring is empty. The ring's behaviour is given by
 * the value-level functions `Push` and `DrainStep`; the `Usart` class holds
 * the statics and its methods are proved to act as those functions.
 */
module Serial {
  import opened Wrappers
  import opened Machine

  /** `TX_BUFFER_SIZE`. */
  const TxBufferSize := 128

  /** `CPU_FREQUENCY` in Hz. */
  const CpuFrequency := 16_000_000

  // ---------------------------------------------------------------------------
  // The ring as a value
  // ---------------------------------------------------------------------------

  /** `TX_BUFFER`, `TX_HEAD` (producer index) and `TX_TAIL` (consumer index). */
  datatype Ring = Ring(buf: seq<Byte>, head: nat, tail: nat)

  predicate RingValid(r: Ring)
  {
    |r.buf| == TxBufferSize && r.head < TxBufferSize && r.tail < TxBufferSize
  }

  /** The index after `i` in the ring, `(i + 1) % TX_BUFFER_SIZE`. */
  function Next(i: nat): (j: nat)
    requires i < TxBufferSize
    ensures j < TxBufferSize
    ensures j == if i == TxBufferSize - 1 then 0 else i + 1
  {
    (i + 1) % TxBufferSize
  }

  /** Reduces an index below twice the ring size into the ring. */
  function Wrap(k: nat): (j: nat)
    requires k < 2 * TxBufferSize
    ensures j < TxBufferSize && j % TxBufferSize == k % TxBufferSize
  {
    if k < TxBufferSize then k else k - TxBufferSize
  }

  /** How many steps forward `to` lies from `from`: `(to - from) mod TX_BUFFER_SIZE`. */
  function Ahead(from: nat, to: nat): (d: nat)
    requires from < TxBufferSize && to < TxBufferSize
    ensures d < TxBufferSize && Wrap(from + d) == to
  {
    if from <= to then to - from else to + TxBufferSize - from
  }

  /** Number of bytes waiting to be sent. */
  function Occupancy(r: Ring): nat
    requires RingValid(r)
  {
    Ahead(r.tail, r.head)
  }

  /** The bytes waiting to be sent, oldest first, read from `tail` onward. */
  function Contents(r: Ring): (c: seq<Byte>)
    requires RingValid(r)
    ensures |c| == Occupancy(r) < TxBufferSize
  {
    seq(Occupancy(r), i requires 0 <= i < Occupancy(r) => r.buf[Wrap(r.tail + i)])
  }

  /** Room left: one slot is sacrificed, so at most 127 bytes can wait. */
  function Free(r: Ring): nat
    requires RingValid(r)
  {
    TxBufferSize - 1 - Occupancy(r)
  }

  /** The ring is full when advancing `head` would make it meet `tail`. */
  lemma FullIffNoRoom(r: Ring)
    requires RingValid(r)
    ensures Next(r.head) == r.tail <==> Free(r) == 0
    ensures r.head == r.tail <==> Contents(r) == []
  {
  }

  /** The loop of `write_str`: append bytes at `head` until the ring is full. */
  function Push(r: Ring, s: seq<Byte>): (r': Ring)
    requires RingValid(r)
    ensures RingValid(r')
    decreases |s|
  {
    if s == [] || Next(r.head) == r.tail then r
    else Push(Ring(r.buf[r.head := s[0]], Next(r.head), r.tail), s[1..])
  }

  /** How many bytes of `s` a write keeps: as many as fit, the rest are dropped. */
  function Accepted(r: Ring, s: seq<Byte>): nat
    requires RingValid(r)
  {
    if |s| <= Free(r) then |s| else Free(r)
  }

  /** Appending one byte to a ring that is not full. */
  lemma PushOne(r: Ring, b: Byte)
    requires RingValid(r) && Next(r.head) != r.tail
    ensures var r' := Ring(r.buf[r.head := b], Next(r.head), r.tail);
      RingValid(r') && Contents(r') == Contents(r) + [b] && Occupancy(r') == Occupancy(r) + 1
  {
    var r' := Ring(r.buf[r.head := b], Next(r.head), r.tail);
    var n := Occupancy(r);
    assert Occupancy(r') == n + 1;
    forall i | 0 <= i < n + 1
      ensures Contents(r')[i] == (Contents(r) + [b])[i]
    {
      if i < n {
        assert Wrap(r.tail + i) != r.head;
      }
    }
  }

  /**
   * `write_str` on an initialised port takes exactly `min(|s|, free space)`
   * bytes, never moves `tail`, and advances `head` by that many; the
   * occupancy only grows, so a write never makes the ring look empty.
   */
  lemma {:induction false} PushShape(r: Ring, s: seq<Byte>)
    requires RingValid(r)
    ensures Push(r, s).tail == r.tail
    ensures Occupancy(Push(r, s)) == Occupancy(r) + Accepted(r, s)
    ensures Push(r, s).head == Wrap(r.head + Accepted(r, s))
    decreases |s|
  {
    if s == [] || Next(r.head) == r.tail {
      FullIffNoRoom(r);
    } else {
      var r' := Ring(r.buf[r.head := s[0]], Next(r.head), r.tail);
      PushOne(r, s[0]);
      PushShape(r', s[1..]);
      assert Free(r') == Free(r) - 1;
    }
  }

  /** The bytes appended are the first `Accepted(r, s)` bytes of `s`, in order. */
  lemma {:induction false} PushAppends(r: Ring, s: seq<Byte>)
    requires RingValid(r)
    ensures Contents(Push(r, s)) == Contents(r) + s[..Accepted(r, s)]
    decreases |s|
  {
    if s == [] || Next(r.head) == r.tail {
      FullIffNoRoom(r);
    } else {
      var r' := Ring(r.buf[r.head := s[0]], Next(r.head), r.tail);
      PushOne(r, s[0]);
      PushAppends(r', s[1..]);
      var k := Accepted(r', s[1..]);
      assert Free(r') == Free(r) - 1;
      assert Accepted(r, s) == k + 1;
      assert s[..k + 1] == [s[0]] + s[1..][..k];
      assert Contents(Push(r, s)) == Contents(r) + [s[0]] + s[1..][..k];
    }
  }

  /** `write_str` writes only the slots it fills, the ones from `head` onward. */
  lemma {:induction false} PushFrame(r: Ring, s: seq<Byte>)
    requires RingValid(r)
    ensures forall j :: 0 <= j < TxBufferSize && Ahead(r.head, j) >= Accepted(r, s) ==>
              Push(r, s).buf[j] == r.buf[j]
    decreases |s|
  {
    if s != [] && Next(r.head) != r.tail {
      var r' := Ring(r.buf[r.head := s[0]], Next(r.head), r.tail);
      PushFrame(r', s[1..]);
      assert Accepted(r, s) == Accepted(r', s[1..]) + 1;
      forall j | 0 <= j < TxBufferSize && Ahead(r.head, j) >= Accepted(r, s)
        ensures Push(r, s).buf[j] == r.buf[j]
      {
        assert Ahead(r'.head, j) == Ahead(r.head, j) - 1;
      }
    }
  }

  /**
   * One step of the USART0_UDRE handler on an initialised port: emit the byte
   * at `tail` and advance `tail` when the ring is not empty, otherwise emit
   * nothing (the caller then turns the interrupt off).
   */
  function DrainStep(r: Ring): (Option<Byte>, Ring)
    requires RingValid(r)
  {
    if r.tail != r.head then (Some(r.buf[r.tail]), r.(tail := Next(r.tail)))
    else (None, r)
  }

  /** The drain step emits the oldest waiting byte and removes exactly that one. */
  lemma DrainPops(r: Ring)
    requires RingValid(r)
    ensures RingValid(DrainStep(r).1)
    ensures DrainStep(r).1.head == r.head && DrainStep(r).1.buf == r.buf
    ensures Contents(r) == [] ==> DrainStep(r) == (None, r)
    ensures Contents(r) != [] ==>
      DrainStep(r).0 == Some(Contents(r)[0]) && Contents(DrainStep(r).1) == Contents(r)[1..]
  {
    FullIffNoRoom(r);
    if r.tail != r.head {
      var r' := DrainStep(r).1;
      assert Wrap(r.tail + 0) == r.tail;
      assert Contents(r)[0] == r.buf[r.tail];
      assert Occupancy(r') == Occupancy(r) - 1;
      forall i | 0 <= i < Occupancy(r')
        ensures Contents(r')[i] == Contents(r)[i + 1]
      {
        assert Wrap(r'.tail + i) == Wrap(r.tail + (i + 1));
      }
    }
  }

  /** Repeated drain interrupts until the ring is empty: the bytes emitted and the final ring. */
  function DrainAll(r: Ring): (seq<Byte>, Ring)
    requires RingValid(r)
    decreases Occupancy(r)
  {
    if r.tail == r.head then ([], r)
    else
      var (b, r') := DrainStep(r);
      assert Occupancy(r') < Occupancy(r);
      var (rest, last) := DrainAll(r');
      ([b.value] + rest, last)
  }

  /** Draining emits exactly the waiting bytes, in order, and stops at `head == tail`. */
  lemma {:induction false} DrainAllEmits(r: Ring)
    requires RingValid(r)
    ensures DrainAll(r).0 == Contents(r)
    ensures DrainAll(r).1.head == DrainAll(r).1.tail == r.head
    decreases Occupancy(r)
  {
    DrainPops(r);
    FullIffNoRoom(r);
    if r.tail != r.head {
      var r' := DrainStep(r).1;
      DrainAllEmits(r');
      assert Contents(r) == [Contents(r)[0]] + Contents(r)[1..];
    }
  }

  /**
   * Round trip: writing `s` into the ring and then draining it emits the bytes
   * that were waiting followed by `s` itself, when `s` fits; when it does not,
   * exactly its first `Free(r)` bytes are emitted and the rest are lost.
   */
  lemma RoundTrip(r: Ring, s: seq<Byte>)
    requires RingValid(r)
    ensures |s| <= Free(r) ==> DrainAll(Push(r, s)).0 == Contents(r) + s
    ensures |s| > Free(r) ==> DrainAll(Push(r, s)).0 == Contents(r) + s[..Free(r)]
    ensures DrainAll(Push(r, s)).1.head == DrainAll(Push(r, s)).1.tail
  {
    PushAppends(r, s);
    DrainAllEmits(Push(r, s));
    assert s[..|s|] == s;
  }

  // ---------------------------------------------------------------------------
  // Baud divisor and echo
  // ---------------------------------------------------------------------------

  /**
   * UBRR0 for double-speed mode, `(CPU_FREQUENCY / (8 * baud) - 1) as u16`.
   * None is a panic: a zero divisor, or `8 * baud` above 16 MHz so that the
   * quotient is 0 and the `u32` subtraction underflows (this range also covers
   * every `8 * baud` that overflows `u32`).
   */
  function Ubrr(baud: uint32): Option<uint16>
  {
    if baud == 0 || 8 * baud > CpuFrequency then None
    else Some((CpuFrequency / (8 * baud) - 1) % Modulus16)
  }

  /** Euclidean division brackets its dividend. */
  lemma DivBracket(n: nat, d: nat)
    requires d > 0
    ensures (n / d) * d <= n < (n / d + 1) * d
  {
  }

  /** Multiplying by a natural number preserves order. */
  lemma MulMonotone(q: nat, a: nat, b: nat)
    requires a <= b
    ensures q * a <= q * b
  {
  }

  /**
   * The divisor selects the slowest realisable rate not below the requested
   * one: `16 MHz / (8 * (ubrr + 1))` is at least `baud`, and divisor
   * `ubrr + 1` would fall below it. Below 31 baud the `as u16` cast truncates.
   */
  lemma UbrrRealisesBaud(baud: uint32)
    ensures Ubrr(baud).Some? <==> 0 < 8 * baud <= CpuFrequency
    ensures baud >= 31 && Ubrr(baud).Some? ==>
      var u := Ubrr(baud).value;
      8 * baud * (u + 1) <= CpuFrequency < 8 * baud * (u + 2)
    ensures Ubrr(115200) == Some(16) && Ubrr(9600) == Some(207)
  {
    if baud >= 31 && 8 * baud <= CpuFrequency {
      var d := 8 * baud;
      var q := CpuFrequency / d;
      DivBracket(CpuFrequency, d);
      MulMonotone(q, 248, d);
      assert Ubrr(baud).value == q - 1;
    }
  }

  /** Whether a one-byte string is valid UTF-8 (`str::from_utf8(&[b])` succeeds). */
  predicate LoneByteIsUtf8(b: Byte)
  {
    // A lead byte of a multi-byte sequence, a continuation byte or one of the
    // bytes UTF-8 never uses all need more bytes to form a character.
    b < 0x80
  }

  // ---------------------------------------------------------------------------
  // The statics
  // ---------------------------------------------------------------------------

  /** The USART0 handle, the transmit ring and the UDRIE0 bit, all under one critical section. */
  class Usart {
    var buf: array<Byte>
    var head: nat
    var tail: nat
    /** UDRIE0: the "data register empty" (drain) interrupt is enabled. */
    var drainEnabled: bool
    /** Whether `init` has stored the USART0 handle. */
    var initialised: bool
    /** The UBRR0 register. */
    var ubrr: uint16

    ghost predicate Valid()
      reads this
    {
      buf.Length == TxBufferSize && head < TxBufferSize && tail < TxBufferSize
    }

    function State(): (r: Ring)
      reads this, buf
      requires Valid()
      ensures RingValid(r)
    {
      Ring(buf[..], head, tail)
    }

    /** The statics before `init`: an empty zeroed ring and no handle. */
    constructor ()
      ensures Valid() && fresh(buf)
      ensures buf[..] == seq(TxBufferSize, _ => 0) && head == 0 && tail == 0
      ensures !initialised && !drainEnabled && ubrr == 0
    {
      buf := new Byte[TxBufferSize](_ => 0);
      head, tail := 0, 0;
      drainEnabled, initialised := false, false;
      ubrr := 0;
    }

    /**
     * `init`: program UBRR0 from the baud rate, leave the drain interrupt off
     * and store the handle. Returns false where the divisor computation panics,
     * in which case nothing is stored.
     */
    method Init(baud: uint32) returns (ok: bool)
      requires Valid()
      modifies this
      ensures Valid() && buf == old(buf) && head == old(head) && tail == old(tail)
      ensures ok == Ubrr(baud).Some?
      ensures ok ==> initialised && !drainEnabled && ubrr == Ubrr(baud).value
      ensures !ok ==> initialised == old(initialised) && drainEnabled == old(drainEnabled) && ubrr == old(ubrr)
    {
      if baud == 0 || 8 * baud > CpuFrequency {
        return false;
      }
      ubrr := (CpuFrequency / (8 * baud) - 1) % Modulus16;
      drainEnabled := false;
      initialised := true;
      ok := true;
    }

    /**
     * `write_str`: on an initialised port, append bytes of `s` at `head` until
     * the ring is full, then enable the drain interrupt (even if nothing was
     * appended). Before `init` it does nothing.
     */
    method WriteStr(s: seq<Byte>)
      requires Valid()
      modifies this, buf
      ensures Valid() && buf == old(buf)
      ensures initialised == old(initialised) && ubrr == old(ubrr)
      ensures State() == if old(initialised) then Push(old(State()), s) else old(State())
      ensures drainEnabled == (old(drainEnabled) || old(initialised))
    {
      if !initialised {
        return;
      }
      ghost var r0 := State();
      var i := 0;
      while i < |s|
        invariant 0 <= i <= |s|
        invariant Valid() && buf == old(buf) && tail == old(tail)
        invariant initialised == old(initialised) && ubrr == old(ubrr) && drainEnabled == old(drainEnabled)
        invariant Push(State(), s[i..]) == Push(r0, s)
      {
        var nextHead := (head + 1) % TxBufferSize;
        if nextHead == tail {
          break;
        }
        assert s[i..][1..] == s[i + 1..];
        buf[head] := s[i];
        head := nextHead;
        i := i + 1;
      }
      assert State() == Push(r0, s);
      drainEnabled := true;
    }

    /**
     * USART0_UDRE: on an initialised port, emit the byte at `tail` and advance
     * `tail`, or disable the drain interrupt when the ring is empty.
     */
    method Udre() returns (sent: Option<Byte>)
      requires Valid()
      modifies this
      ensures Valid() && buf == old(buf) && buf[..] == old(buf[..])
      ensures initialised == old(initialised) && ubrr == old(ubrr)
      ensures !old(initialised) ==> sent == None && State() == old(State()) && drainEnabled == old(drainEnabled)
      ensures old(initialised) ==> (sent, State()) == DrainStep(old(State()))
      ensures old(initialised) ==> drainEnabled == (old(drainEnabled) && sent.Some?)
    {
      if !initialised {
        return None;
      }
      if tail != head {
        sent := Some(buf[tail]);
        tail := (tail + 1) % TxBufferSize;
      } else {
        sent := None;
        drainEnabled := false;
      }
    }

    /**
     * `serial_echo`, with the result of `read_nonblocking` as the input
     * `received`: echo the byte when one arrived and it is valid UTF-8 on its own.
     */
    method SerialEcho(received: Option<Byte>)
      requires Valid()
      modifies this, buf
      ensures Valid() && buf == old(buf)
      ensures initialised == old(initialised) && ubrr == old(ubrr)
      ensures received.Some? && LoneByteIsUtf8(received.value) ==>
        State() == (if old(initialised) then Push(old(State()), [received.value]) else old(State())) &&
        drainEnabled == (old(drainEnabled) || old(initialised))
      ensures !(received.Some? && LoneByteIsUtf8(received.value)) ==>
        State() == old(State()) && drainEnabled == old(drainEnabled)
    {
      match received
      case None =>
      case Some(b) =>
        if b < 0x80 {
          WriteStr([b]);
        }
    }
  }

  /**
   * What the echo does to an initialised ring: a received ASCII byte is
   * appended when there is room; any other byte, or no byte, appends nothing.
   */
  lemma EchoAppends(r: Ring, b: Byte)
    requires RingValid(r)
    ensures Contents(Push(r, [b])) == if Free(r) > 0 then Contents(r) + [b] else Contents(r)
  {
    PushAppends(r, [b]);
  }
}
