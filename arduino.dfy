/**
 * The Arduino Mega 2560 pin layer of AVR_Firmware_Rust/src/arduino.rs.
 *
 * Arduino pin numbers 0 to 69 map to a (port, bit) pair through a static
 * table; a number outside the table makes `get_mapping` panic, which halts the
 * board. Here a panic is the None result of `GetMapping`, and the operations
 * built on it report `ok == false` and change no register.
 */
module Arduino {
  import opened Wrappers
  import opened Machine
  import opened Ports

  datatype PinMode = Input | Output | InputPullup

  datatype PinState = Low | High

  /** `impl From<bool> for PinState`. */
  function StateFromBool(value: bool): PinState
  {
    if value then High else Low
  }

  /** `impl From<PinState> for bool`. */
  function BoolFromState(value: PinState): bool
  {
    match value
    case High => true
    case Low => false
  }

  /** The two conversions are inverse bijections. */
  lemma ConversionsRoundTrip(b: bool, s: PinState)
    ensures BoolFromState(StateFromBool(b)) == b
    ensures StateFromBool(BoolFromState(s)) == s
  {
  }

  /** `ArduinoPinMapping`: the port of a pin and its bit on that port. */
  datatype Mapping = Mapping(port: PortName, pinOnPort: nat)

  /** `TOTAL_MAPPED_PINS`. */
  const TotalMappedPins := 70

  /** `LED_BUILTIN`, which is D13. */
  const LedBuiltin: uint8 := 13

  // `ARDUINO_PIN_MAP`, indexed by Arduino pin number, in the groups the table is written in
  // (the analog pins A0 ... A15 are split by port).

  /** D0 ... D13. */
  const PinsD0: seq<Option<Mapping>> := [
    Some(Mapping(E, 0)), Some(Mapping(E, 1)), Some(Mapping(E, 4)), Some(Mapping(E, 5)),
    Some(Mapping(G, 5)), Some(Mapping(E, 3)), Some(Mapping(H, 3)), Some(Mapping(H, 4)),
    Some(Mapping(H, 5)), Some(Mapping(H, 6)), Some(Mapping(B, 4)), Some(Mapping(B, 5)),
    Some(Mapping(B, 6)), Some(Mapping(B, 7))
  ]

  /** D14 ... D21. */
  const PinsD14: seq<Option<Mapping>> := [
    Some(Mapping(J, 1)), Some(Mapping(J, 0)), Some(Mapping(H, 1)), Some(Mapping(H, 0)),
    Some(Mapping(D, 3)), Some(Mapping(D, 2)), Some(Mapping(D, 1)), Some(Mapping(D, 0))
  ]

  /** D22 ... D29. */
  const PinsD22: seq<Option<Mapping>> := [
    Some(Mapping(A, 0)), Some(Mapping(A, 1)), Some(Mapping(A, 2)), Some(Mapping(A, 3)),
    Some(Mapping(A, 4)), Some(Mapping(A, 5)), Some(Mapping(A, 6)), Some(Mapping(A, 7))
  ]

  /** D30 ... D37. */
  const PinsD30: seq<Option<Mapping>> := [
    Some(Mapping(C, 7)), Some(Mapping(C, 6)), Some(Mapping(C, 5)), Some(Mapping(C, 4)),
    Some(Mapping(C, 3)), Some(Mapping(C, 2)), Some(Mapping(C, 1)), Some(Mapping(C, 0))
  ]

  /** D38 ... D41. */
  const PinsD38: seq<Option<Mapping>> := [
    Some(Mapping(D, 7)), Some(Mapping(G, 2)), Some(Mapping(G, 1)), Some(Mapping(G, 0))
  ]

  /** D42 ... D46. */
  const PinsD42: seq<Option<Mapping>> := [
    Some(Mapping(L, 7)), Some(Mapping(L, 6)), Some(Mapping(L, 5)), Some(Mapping(L, 4)),
    Some(Mapping(L, 3))
  ]

  /** D47 ... D49. */
  const PinsD47: seq<Option<Mapping>> := [
    Some(Mapping(L, 2)), Some(Mapping(L, 1)), Some(Mapping(L, 0))
  ]

  /** D50 ... D53. */
  const PinsD50: seq<Option<Mapping>> := [
    Some(Mapping(B, 3)), Some(Mapping(B, 2)), Some(Mapping(B, 1)), Some(Mapping(B, 0))
  ]

  /** A0 ... A7, which are D54 ... D61. */
  const PinsA0: seq<Option<Mapping>> := [
    Some(Mapping(F, 0)), Some(Mapping(F, 1)), Some(Mapping(F, 2)), Some(Mapping(F, 3)),
    Some(Mapping(F, 4)), Some(Mapping(F, 5)), Some(Mapping(F, 6)), Some(Mapping(F, 7))
  ]

  /** A8 ... A15, which are D62 ... D69. */
  const PinsA8: seq<Option<Mapping>> := [
    Some(Mapping(K, 0)), Some(Mapping(K, 1)), Some(Mapping(K, 2)), Some(Mapping(K, 3)),
    Some(Mapping(K, 4)), Some(Mapping(K, 5)), Some(Mapping(K, 6)), Some(Mapping(K, 7))
  ]

  const PinMap: seq<Option<Mapping>> :=
    PinsD0 + PinsD14 + PinsD22 + PinsD30 + PinsD38 +
    PinsD42 + PinsD47 + PinsD50 + PinsA0 + PinsA8

  /**
   * The Arduino pin that the pin constants document for bit `bit` of `port`
   * (the "(PORTx, Bit n)" notes beside D0 ... A15), None for a bit no pin uses.
   */
  function DocumentedPin(port: PortName, bit: nat): Option<nat>
    requires bit < 8
  {
    match port
    case A => [Some(22), Some(23), Some(24), Some(25), Some(26), Some(27), Some(28), Some(29)][bit]
    case B => [Some(53), Some(52), Some(51), Some(50), Some(10), Some(11), Some(12), Some(13)][bit]
    case C => [Some(37), Some(36), Some(35), Some(34), Some(33), Some(32), Some(31), Some(30)][bit]
    case D => [Some(21), Some(20), Some(19), Some(18), None, None, None, Some(38)][bit]
    case E => [Some(0), Some(1), None, Some(5), Some(2), Some(3), None, None][bit]
    case F => [Some(54), Some(55), Some(56), Some(57), Some(58), Some(59), Some(60), Some(61)][bit]
    case G => [Some(41), Some(40), Some(39), None, None, Some(4), None, None][bit]
    case H => [Some(17), Some(16), None, Some(6), Some(7), Some(8), Some(9), None][bit]
    case J => [Some(15), Some(14), None, None, None, None, None, None][bit]
    case K => [Some(62), Some(63), Some(64), Some(65), Some(66), Some(67), Some(68), Some(69)][bit]
    case L => [Some(49), Some(48), Some(47), Some(46), Some(45), Some(44), Some(43), Some(42)][bit]
  }

  /** Whether table entry `e` is present, names a bit below 8, and is the bit documented for pin `p`. */
  predicate Documented(e: Option<Mapping>, p: nat)
  {
    e.Some? && e.value.pinOnPort < 8 && DocumentedPin(e.value.port, e.value.pinOnPort) == Some(p)
  }

  /** Whether every entry of a group of the table, whose first pin is `first`, is documented. */
  predicate GroupDocumented(group: seq<Option<Mapping>>, first: nat)
  {
    forall i :: 0 <= i < |group| ==> Documented(group[i], first + i)
  }

  // Each group agrees with the documented layout.

  lemma PinsD0Documented()
    ensures GroupDocumented(PinsD0, 0)
  {
  }

  lemma PinsD14Documented()
    ensures GroupDocumented(PinsD14, 14)
  {
  }

  lemma PinsD22Documented()
    ensures GroupDocumented(PinsD22, 22)
  {
  }

  lemma PinsD30Documented()
    ensures GroupDocumented(PinsD30, 30)
  {
  }

  lemma PinsD38Documented()
    ensures GroupDocumented(PinsD38, 38)
  {
  }

  lemma PinsD42Documented()
    ensures GroupDocumented(PinsD42, 42)
  {
  }

  lemma PinsD47Documented()
    ensures GroupDocumented(PinsD47, 47)
  {
  }

  lemma PinsD50Documented()
    ensures GroupDocumented(PinsD50, 50)
  {
  }

  lemma PinsA0Documented()
    ensures GroupDocumented(PinsA0, 54)
  {
  }

  lemma PinsA8Documented()
    ensures GroupDocumented(PinsA8, 62)
  {
  }

  /** Every entry is present, names a bit below 8, and agrees with the documented layout. */
  lemma PinMapMatchesDocumentation(p: nat)
    requires p < TotalMappedPins
    ensures |PinMap| == TotalMappedPins
    ensures PinMap[p].Some? && PinMap[p].value.pinOnPort < 8
    ensures DocumentedPin(PinMap[p].value.port, PinMap[p].value.pinOnPort) == Some(p)
  {
    if p < 14 {
      PinsD0Documented();
      assert PinMap[p] == PinsD0[p];
    } else if p < 22 {
      PinsD14Documented();
      assert PinMap[p] == PinsD14[p - 14];
    } else if p < 30 {
      PinsD22Documented();
      assert PinMap[p] == PinsD22[p - 22];
    } else if p < 38 {
      PinsD30Documented();
      assert PinMap[p] == PinsD30[p - 30];
    } else if p < 42 {
      PinsD38Documented();
      assert PinMap[p] == PinsD38[p - 38];
    } else if p < 47 {
      PinsD42Documented();
      assert PinMap[p] == PinsD42[p - 42];
    } else if p < 50 {
      PinsD47Documented();
      assert PinMap[p] == PinsD47[p - 47];
    } else if p < 54 {
      PinsD50Documented();
      assert PinMap[p] == PinsD50[p - 50];
    } else if p < 62 {
      PinsA0Documented();
      assert PinMap[p] == PinsA0[p - 54];
    } else {
      PinsA8Documented();
      assert PinMap[p] == PinsA8[p - 62];
    }
  }

  /** No two Arduino pins share a (port, bit) pair. */
  lemma PinMapInjective(p: nat, q: nat)
    requires p < TotalMappedPins && q < TotalMappedPins && p != q
    ensures PinMap[p] != PinMap[q]
  {
    PinMapMatchesDocumentation(p);
    PinMapMatchesDocumentation(q);
  }

  /** `get_mapping`: the table entry, or None where the source panics. */
  function GetMapping(pin: uint8): (r: Option<Mapping>)
    ensures r.Some? <==> pin < TotalMappedPins
    ensures r.Some? ==> r.value.pinOnPort < 8 && r == PinMap[pin]
  {
    if pin < TotalMappedPins then
      PinMapMatchesDocumentation(pin);
      match PinMap[pin]
      case Some(m) => Some(m)
      case None => None
    else None
  }

  /** The built-in LED is bit 7 of port B. */
  lemma LedBuiltinIsPB7()
    ensures GetMapping(LedBuiltin) == Some(Mapping(B, 7))
  {
  }

  /**
   * `pin_mode`: Output sets the DDR bit; Input clears the DDR bit and the PORT
   * bit (no pull-up); InputPullup clears the DDR bit and sets the PORT bit.
   */
  method SetPinMode(io: Io, pin: uint8, mode: PinMode) returns (ok: bool)
    requires io.Valid()
    modifies io
    ensures io.Valid()
    ensures ok == (pin < TotalMappedPins)
    ensures !ok ==> io.regs == old(io.regs)
    ensures ok ==>
      var m := GetMapping(pin).value;
      var ddr, out := Reg(m.port, Ddr), Reg(m.port, Out);
      io.regs == match mode
        case Output => old(io.regs)[ddr := SetBit(old(io.regs)[ddr], m.pinOnPort)]
        case Input => old(io.regs)[ddr := ClearBit(old(io.regs)[ddr], m.pinOnPort)]
                                  [out := ClearBit(old(io.regs)[out], m.pinOnPort)]
        case InputPullup => old(io.regs)[ddr := ClearBit(old(io.regs)[ddr], m.pinOnPort)]
                                        [out := SetBit(old(io.regs)[out], m.pinOnPort)]
  {
    var mapping := GetMapping(pin);
    if mapping.None? {
      return false;
    }
    var m := mapping.value;
    match mode {
      case Output =>
        io.SetPinOutput(m.port, m.pinOnPort);
      case Input =>
        io.SetPinInput(m.port, m.pinOnPort);
        io.SetPinLow(m.port, m.pinOnPort);
      case InputPullup =>
        io.SetPinInput(m.port, m.pinOnPort);
        io.SetPinHigh(m.port, m.pinOnPort);
    }
    ok := true;
  }

  /**
   * `digital_write`: the mapped PORT bit becomes `bool::from(value)`; every
   * other bit and every other register keeps its value.
   */
  method DigitalWrite(io: Io, pin: uint8, value: PinState) returns (ok: bool)
    requires io.Valid()
    modifies io
    ensures io.Valid()
    ensures ok == (pin < TotalMappedPins)
    ensures !ok ==> io.regs == old(io.regs)
    ensures ok ==>
      var m := GetMapping(pin).value;
      var out := Reg(m.port, Out);
      BitOf(io.regs[out], m.pinOnPort) == BoolFromState(value) &&
      (forall k :: 0 <= k < 8 && k != m.pinOnPort ==> BitOf(io.regs[out], k) == BitOf(old(io.regs)[out], k)) &&
      (forall r :: r != out ==> io.regs[r] == old(io.regs)[r])
  {
    var mapping := GetMapping(pin);
    if mapping.None? {
      return false;
    }
    var m := mapping.value;
    ghost var before := io.regs[Reg(m.port, Out)];
    match value {
      case High =>
        io.SetPinHigh(m.port, m.pinOnPort);
        SetBitSpec(before, m.pinOnPort);
      case Low =>
        io.SetPinLow(m.port, m.pinOnPort);
        ClearBitSpec(before, m.pinOnPort);
    }
    ok := true;
  }

  /** `digital_read`: the mapped PIN bit as a `PinState`; changes nothing. */
  method DigitalRead(io: Io, pin: uint8) returns (r: Option<PinState>)
    requires io.Valid()
    ensures r.Some? <==> pin < TotalMappedPins
    ensures r.Some? ==>
      var m := GetMapping(pin).value;
      BoolFromState(r.value) == BitOf(io.regs[Reg(m.port, Pin)], m.pinOnPort)
  {
    var mapping := GetMapping(pin);
    if mapping.None? {
      return None;
    }
    var high := io.ReadPin(mapping.value.port, mapping.value.pinOnPort);
    r := Some(if high then High else Low);
  }

  /** `digital_toggle`: flip the mapped PORT bit only. */
  method DigitalToggle(io: Io, pin: uint8) returns (ok: bool)
    requires io.Valid()
    modifies io
    ensures io.Valid()
    ensures ok == (pin < TotalMappedPins)
    ensures !ok ==> io.regs == old(io.regs)
    ensures ok ==>
      var m := GetMapping(pin).value;
      var out := Reg(m.port, Out);
      BitOf(io.regs[out], m.pinOnPort) == !BitOf(old(io.regs)[out], m.pinOnPort) &&
      (forall k :: 0 <= k < 8 && k != m.pinOnPort ==> BitOf(io.regs[out], k) == BitOf(old(io.regs)[out], k)) &&
      (forall r :: r != out ==> io.regs[r] == old(io.regs)[r])
  {
    var mapping := GetMapping(pin);
    if mapping.None? {
      return false;
    }
    var m := mapping.value;
    ToggleBitSpec(io.regs[Reg(m.port, Out)], m.pinOnPort);
    io.TogglePin(m.port, m.pinOnPort);
    ok := true;
  }
}
