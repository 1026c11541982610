/**
 * The GPIO port primitives of AVR_Firmware_Rust/src/port.rs.
 *
 * Each ATmega2560 port has three 8-bit registers: PINx (input levels), DDRx
 * (direction, 1 = output) and PORTx (output level or pull-up). The volatile
 * pointer accesses of the source become reads and writes of an abstract
 * register file `Io.regs`, keyed by (port, register kind); the address
 * constants are kept as data, and `RegisterAt` shows that distinct registers
 * have distinct addresses, so writing one register cannot alter another.
 */
module Ports {
  import opened Wrappers
  import opened Machine

  datatype PortName = A | B | C | D | E | F | G | H | J | K | L

  /** PINx, DDRx and PORTx. */
  datatype RegKind = Pin | Ddr | Out

  datatype Reg = Reg(port: PortName, kind: RegKind)

  // ---------------------------------------------------------------------------
  // Address constants
  // ---------------------------------------------------------------------------

  /** The `Port` struct: data-space addresses of a port's PINx, DDRx and PORTx. */
  datatype PortAddresses = PortAddresses(pin: nat, ddr: nat, port: nat)

  /** The constants PORTA ... PORTL. */
  function AddressesOf(p: PortName): PortAddresses
  {
    match p
    case A => PortAddresses(0x20, 0x21, 0x22)
    case B => PortAddresses(0x23, 0x24, 0x25)
    case C => PortAddresses(0x26, 0x27, 0x28)
    case D => PortAddresses(0x29, 0x2A, 0x2B)
    case E => PortAddresses(0x2C, 0x2D, 0x2E)
    case F => PortAddresses(0x2F, 0x30, 0x31)
    case G => PortAddresses(0x32, 0x33, 0x34)
    case H => PortAddresses(0x100, 0x101, 0x102)
    case J => PortAddresses(0x103, 0x104, 0x105)
    case K => PortAddresses(0x106, 0x107, 0x108)
    case L => PortAddresses(0x109, 0x10A, 0x10B)
  }

  function Address(r: Reg): nat
  {
    var a := AddressesOf(r.port);
    match r.kind
    case Pin => a.pin
    case Ddr => a.ddr
    case Out => a.port
  }

  /**
   * The register at a data-space address, by the layout the constants follow:
   * consecutive PIN/DDR/PORT triples from 0x20 for ports A to G and from 0x100
   * for ports H to L.
   */
  function RegisterAt(addr: nat): Option<Reg>
  {
    var kinds := [Pin, Ddr, Out];
    if 0x20 <= addr < 0x20 + 3 * 7 then
      Some(Reg([A, B, C, D, E, F, G][(addr - 0x20) / 3], kinds[(addr - 0x20) % 3]))
    else if 0x100 <= addr < 0x100 + 3 * 4 then
      Some(Reg([H, J, K, L][(addr - 0x100) / 3], kinds[(addr - 0x100) % 3]))
    else None
  }

  /** Every port's DDRx sits one above its PINx and PORTx two above. */
  lemma AddressLayout(p: PortName)
    ensures AddressesOf(p).ddr == AddressesOf(p).pin + 1
    ensures AddressesOf(p).port == AddressesOf(p).pin + 2
  {
  }

  /** The constants follow that layout: each address names back its own register. */
  lemma AddressRoundTrip(r: Reg)
    ensures RegisterAt(Address(r)) == Some(r)
  {
  }

  /** The 33 register addresses are pairwise distinct. */
  lemma AddressesDistinct(r1: Reg, r2: Reg)
    requires r1 != r2
    ensures Address(r1) != Address(r2)
  {
    AddressRoundTrip(r1);
    AddressRoundTrip(r2);
  }

  // ---------------------------------------------------------------------------
  // Bit operations on a register byte
  // ---------------------------------------------------------------------------

  /** `1 << n` as a `u8`, listed by `n`; the shift overflows unless `n < 8`. */
  function Mask(n: nat): Byte
    requires n < 8
  {
    match n
    case 0 => 0x01
    case 1 => 0x02
    case 2 => 0x04
    case 3 => 0x08
    case 4 => 0x10
    case 5 => 0x20
    case 6 => 0x40
    case _ => 0x80
  }

  /** The listed masks are the shifts the source computes. */
  lemma MaskIsShift(n: nat)
    requires n < 8
    ensures Mask(n) == 1 << n
  {
  }

  /** Whether bit `n` of `v` is 1. */
  predicate BitOf(v: Byte, n: nat)
    requires n < 8
  {
    v & Mask(n) != 0
  }

  function SetBit(v: Byte, n: nat): Byte
    requires n < 8
  {
    v | Mask(n)
  }

  function ClearBit(v: Byte, n: nat): Byte
    requires n < 8
  {
    v & !Mask(n)
  }

  function ToggleBit(v: Byte, n: nat): Byte
    requires n < 8
  {
    v ^ Mask(n)
  }

  /** Two bytes with the same eight bits are equal. */
  lemma BitsDetermineByte(v: Byte, w: Byte)
    requires forall k :: 0 <= k < 8 ==> BitOf(v, k) == BitOf(w, k)
    ensures v == w
  {
    assert BitOf(v, 0) == BitOf(w, 0) && BitOf(v, 1) == BitOf(w, 1);
    assert BitOf(v, 2) == BitOf(w, 2) && BitOf(v, 3) == BitOf(w, 3);
    assert BitOf(v, 4) == BitOf(w, 4) && BitOf(v, 5) == BitOf(w, 5);
    assert BitOf(v, 6) == BitOf(w, 6) && BitOf(v, 7) == BitOf(w, 7);
  }

  /** Setting bit `n` makes it 1, keeps every other bit, and is idempotent. */
  lemma SetBitSpec(v: Byte, n: nat)
    requires n < 8
    ensures BitOf(SetBit(v, n), n)
    ensures forall k :: 0 <= k < 8 && k != n ==> BitOf(SetBit(v, n), k) == BitOf(v, k)
    ensures SetBit(SetBit(v, n), n) == SetBit(v, n)
  {
  }

  /** Clearing bit `n` makes it 0, keeps every other bit, and is idempotent. */
  lemma ClearBitSpec(v: Byte, n: nat)
    requires n < 8
    ensures !BitOf(ClearBit(v, n), n)
    ensures forall k :: 0 <= k < 8 && k != n ==> BitOf(ClearBit(v, n), k) == BitOf(v, k)
    ensures ClearBit(ClearBit(v, n), n) == ClearBit(v, n)
  {
  }

  /** Toggling bit `n` flips it, keeps every other bit, and toggling twice restores the byte. */
  lemma ToggleBitSpec(v: Byte, n: nat)
    requires n < 8
    ensures BitOf(ToggleBit(v, n), n) == !BitOf(v, n)
    ensures forall k :: 0 <= k < 8 && k != n ==> BitOf(ToggleBit(v, n), k) == BitOf(v, k)
    ensures ToggleBit(ToggleBit(v, n), n) == v
  {
  }

  // ---------------------------------------------------------------------------
  // The register file and the `Port` methods
  // ---------------------------------------------------------------------------

  /** The PIN, DDR and PORT registers of every port. */
  class Io {
    var regs: map<Reg, Byte>

    ghost predicate Valid()
      reads this
    {
      forall r: Reg :: r in regs
    }

    /** The register file as found at start-up, one value per register. */
    constructor (init: map<Reg, Byte>)
      requires forall r: Reg :: r in init
      ensures Valid() && regs == init
    {
      regs := init;
    }

    /** `set_pin_output`: DDRx |= 1 << n. */
    method SetPinOutput(p: PortName, n: nat)
      requires Valid() && n < 8
      modifies this
      ensures Valid()
      ensures regs == old(regs)[Reg(p, Ddr) := SetBit(old(regs)[Reg(p, Ddr)], n)]
    {
      var val := regs[Reg(p, Ddr)];
      regs := regs[Reg(p, Ddr) := val | Mask(n)];
    }

    /** `set_pin_input`: DDRx &= !(1 << n). */
    method SetPinInput(p: PortName, n: nat)
      requires Valid() && n < 8
      modifies this
      ensures Valid()
      ensures regs == old(regs)[Reg(p, Ddr) := ClearBit(old(regs)[Reg(p, Ddr)], n)]
    {
      var val := regs[Reg(p, Ddr)];
      regs := regs[Reg(p, Ddr) := val & !Mask(n)];
    }

    /** `set_pin_high`: PORTx |= 1 << n. */
    method SetPinHigh(p: PortName, n: nat)
      requires Valid() && n < 8
      modifies this
      ensures Valid()
      ensures regs == old(regs)[Reg(p, Out) := SetBit(old(regs)[Reg(p, Out)], n)]
    {
      var val := regs[Reg(p, Out)];
      regs := regs[Reg(p, Out) := val | Mask(n)];
    }

    /** `set_pin_low`: PORTx &= !(1 << n). */
    method SetPinLow(p: PortName, n: nat)
      requires Valid() && n < 8
      modifies this
      ensures Valid()
      ensures regs == old(regs)[Reg(p, Out) := ClearBit(old(regs)[Reg(p, Out)], n)]
    {
      var val := regs[Reg(p, Out)];
      regs := regs[Reg(p, Out) := val & !Mask(n)];
    }

    /** `toggle_pin`: PORTx ^= 1 << n. */
    method TogglePin(p: PortName, n: nat)
      requires Valid() && n < 8
      modifies this
      ensures Valid()
      ensures regs == old(regs)[Reg(p, Out) := ToggleBit(old(regs)[Reg(p, Out)], n)]
    {
      var val := regs[Reg(p, Out)];
      regs := regs[Reg(p, Out) := val ^ Mask(n)];
    }

    /** `read_pin`: whether bit `n` of PINx is 1; changes nothing. */
    method ReadPin(p: PortName, n: nat) returns (high: bool)
      requires Valid() && n < 8
      ensures high == BitOf(regs[Reg(p, Pin)], n)
    {
      var val := regs[Reg(p, Pin)];
      high := val & Mask(n) != 0;
    }
  }
}
