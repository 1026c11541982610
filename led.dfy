/**
 * The on-board LED driver of AVR_Firmware01/lib/led/led.c.
 *
 * The driver keeps a shadow copy `state` of the LED and drives PORTB bit 7
 * (Arduino pin 13). `led_toggle_default` decides from the shadow copy, not
 * from the register, so it shows the intended change only while the two
 * agree (`InSync`).
 */
module Led {
  import opened Machine
  import opened Ports

  /** The LED is on bit 7 of port B. */
  const LedBit: nat := 7

  const DdrB := Reg(B, Ddr)
  const PortB := Reg(B, Out)

  /** The shadow state agrees with what PORTB bit 7 drives. */
  predicate InSync(state: bool, portb: Byte)
  {
    BitOf(portb, LedBit) == state
  }

  /** The new shadow state and PORTB value after `led_toggle_default`. */
  function Toggled(state: bool, portb: Byte): (bool, Byte)
  {
    if !state then (true, SetBit(portb, LedBit)) else (false, ClearBit(portb, LedBit))
  }

  /**
   * A toggle negates the shadow state, drives bit 7 to the new state (so it
   * leaves the two in sync whatever they were), and keeps every other bit.
   */
  lemma ToggledDrivesNewState(state: bool, portb: Byte)
    ensures Toggled(state, portb).0 == !state
    ensures InSync(Toggled(state, portb).0, Toggled(state, portb).1)
    ensures forall k :: 0 <= k < 8 && k != LedBit ==> BitOf(Toggled(state, portb).1, k) == BitOf(portb, k)
  {
    SetBitSpec(portb, LedBit);
    ClearBitSpec(portb, LedBit);
  }

  /** From an in-sync state, two toggles restore both the shadow state and PORTB. */
  lemma ToggleTwice(state: bool, portb: Byte)
    requires InSync(state, portb)
    ensures Toggled(Toggled(state, portb).0, Toggled(state, portb).1) == (state, portb)
  {
    var (s1, p1) := Toggled(state, portb);
    var (s2, p2) := Toggled(s1, p1);
    ToggledDrivesNewState(state, portb);
    ToggledDrivesNewState(s1, p1);
    forall k | 0 <= k < 8
      ensures BitOf(p2, k) == BitOf(portb, k)
    {
    }
    BitsDetermineByte(p2, portb);
  }

  /**
   * Out of sync, a toggle does not change the LED: with the shadow state off
   * and bit 7 already driven high, the toggle "switches on" a lit LED.
   */
  lemma ToggleOutOfSyncIsInvisible()
    ensures !InSync(false, 0x80)
    ensures Toggled(false, 0x80) == (true, 0x80)
  {
  }

  /** The static `led` of led.c together with the registers it drives. */
  class LedDriver {
    var state: bool
    const io: Io

    ghost predicate Valid()
      reads this, io
    {
      io.Valid()
    }

    /** The static starts zeroed: the shadow state is off. */
    constructor (io: Io)
      requires io.Valid()
      ensures Valid() && this.io == io && !state
    {
      this.io := io;
      state := false;
    }

    /** `led_init`: bit 7 of DDRB becomes an output; the shadow state is off. */
    method Init()
      requires Valid()
      modifies this, io
      ensures Valid() && !state
      ensures io.regs == old(io.regs)[DdrB := SetBit(old(io.regs)[DdrB], LedBit)]
    {
      io.SetPinOutput(B, LedBit);
      state := false;
    }

    /** `led_off_default`: clear PORTB bit 7; the shadow state is off. */
    method Off()
      requires Valid()
      modifies this, io
      ensures Valid() && !state && InSync(state, io.regs[PortB])
      ensures io.regs == old(io.regs)[PortB := ClearBit(old(io.regs)[PortB], LedBit)]
    {
      ClearBitSpec(io.regs[PortB], LedBit);
      io.SetPinLow(B, LedBit);
      state := false;
    }

    /** `led_on_default`: set PORTB bit 7; the shadow state is on. */
    method On()
      requires Valid()
      modifies this, io
      ensures Valid() && state && InSync(state, io.regs[PortB])
      ensures io.regs == old(io.regs)[PortB := SetBit(old(io.regs)[PortB], LedBit)]
    {
      SetBitSpec(io.regs[PortB], LedBit);
      io.SetPinHigh(B, LedBit);
      state := true;
    }

    /** `led_toggle_default`: switch on when the shadow state is off, off otherwise. */
    method Toggle()
      requires Valid()
      modifies this, io
      ensures Valid()
      ensures (state, io.regs[PortB]) == Toggled(old(state), old(io.regs)[PortB])
      ensures io.regs == old(io.regs)[PortB := io.regs[PortB]]
    {
      if !state {
        io.SetPinHigh(B, LedBit);
        state := true;
      } else {
        io.SetPinLow(B, LedBit);
        state := false;
      }
    }
  }
}
