/**
 * The Arduino Motor Shield driver of AVR_Firmware01/lib/arduino_motorshield.
 *
 * Each of the two motors has a brake bit on PORTH, a direction bit on PORTB
 * and a PWM compare register (OCR3C for motor A, OCR1A for motor B); the
 * driver also keeps the last duty cycle of each motor in a static.
 */
module MotorShield {
  import opened Machine
  import opened Ports

  // Pin assignments and PWM bounds of motorshield.h.
  const PwmA: nat := 5     // PE5, OC3C
  const PwmB: nat := 5     // PB5, OC1A
  const BrakeA: nat := 6   // PH6
  const BrakeB: nat := 5   // PH5
  const DirA: nat := 6     // PB6
  const DirB: nat := 7     // PB7
  const PwmMax: uint8 := 255

  const DdrB := Reg(B, Ddr)
  const DdrE := Reg(E, Ddr)
  const DdrH := Reg(H, Ddr)
  const PortB := Reg(B, Out)
  const PortH := Reg(H, Out)

  datatype Motor = MotorA | MotorB

  datatype Direction = Forward | Backward

  function BrakeBit(m: Motor): (n: nat)
    ensures n < 8
  {
    match m
    case MotorA => BrakeA
    case MotorB => BrakeB
  }

  function DirBit(m: Motor): (n: nat)
    ensures n < 8
  {
    match m
    case MotorA => DirA
    case MotorB => DirB
  }

  /**
   * The duty cycle `set_duty_cycle_*` stores: `duty` capped at PWM_MAX.
   * The cap never bites, because PWM_MAX is the largest `uint8_t`.
   */
  function ClampDuty(duty: uint8): (r: uint8)
    ensures r <= PwmMax
    ensures r == duty
  {
    if duty > PwmMax then PwmMax else duty
  }

  /** `reg |= bits`, the C compound assignment on a memory-mapped register. */
  function OrInto(regs: map<Reg, Byte>, reg: Reg, bits: Byte): map<Reg, Byte>
    requires reg in regs
  {
    regs[reg := regs[reg] | bits]
  }

  /**
   * The DDR writes of `motorshield_init`, in order: DIR_A and DIR_B on DDRB,
   * BRAKE_A and BRAKE_B on DDRH, PWM_A on DDRE, PWM_B on DDRB.
   */
  function InitDirections(regs: map<Reg, Byte>): map<Reg, Byte>
    requires DdrB in regs && DdrE in regs && DdrH in regs
  {
    var regs1 := OrInto(regs, DdrB, Mask(DirA) | Mask(DirB));
    var regs2 := OrInto(regs1, DdrH, Mask(BrakeA) | Mask(BrakeB));
    var regs3 := OrInto(regs2, DdrE, Mask(PwmA));
    OrInto(regs3, DdrB, Mask(PwmB))
  }

  /**
   * `motorshield_init` makes DDRB bits 5, 6, 7, DDRH bits 5, 6 and DDRE bit 5
   * outputs, keeps every other bit of those registers, and touches no other register.
   */
  lemma InitDirectionsEffect(regs: map<Reg, Byte>)
    requires DdrB in regs && DdrE in regs && DdrH in regs
    ensures var r := InitDirections(regs);
      BitOf(r[DdrB], 5) && BitOf(r[DdrB], 6) && BitOf(r[DdrB], 7) &&
      BitOf(r[DdrH], 5) && BitOf(r[DdrH], 6) && BitOf(r[DdrE], 5) &&
      (forall k :: 0 <= k < 5 ==> BitOf(r[DdrB], k) == BitOf(regs[DdrB], k)) &&
      (forall k :: 0 <= k < 8 && k != 5 && k != 6 ==> BitOf(r[DdrH], k) == BitOf(regs[DdrH], k)) &&
      (forall k :: 0 <= k < 8 && k != 5 ==> BitOf(r[DdrE], k) == BitOf(regs[DdrE], k)) &&
      r.Keys == regs.Keys &&
      (forall q :: q in regs && q != DdrB && q != DdrH && q != DdrE ==> r[q] == regs[q])
  {
  }

  /**
   * The port writes of `motor_*_forward` and `motor_*_backward`: release the
   * brake and set the direction bit (1 forward, 0 backward).
   */
  function Drive(regs: map<Reg, Byte>, m: Motor, dir: Direction): map<Reg, Byte>
    requires PortH in regs && PortB in regs
  {
    var regs1 := regs[PortH := ClearBit(regs[PortH], BrakeBit(m))];
    regs1[PortB := if dir == Forward then SetBit(regs1[PortB], DirBit(m)) else ClearBit(regs1[PortB], DirBit(m))]
  }

  /** The port write of `motor_*_stop`: apply the brake. */
  function Brake(regs: map<Reg, Byte>, m: Motor): map<Reg, Byte>
    requires PortH in regs
  {
    regs[PortH := SetBit(regs[PortH], BrakeBit(m))]
  }

  /** Whether two register files agree on the brake and direction bits of motor `m`. */
  predicate SameMotorBits(r1: map<Reg, Byte>, r2: map<Reg, Byte>, m: Motor)
    requires PortH in r1 && PortB in r1 && PortH in r2 && PortB in r2
  {
    BitOf(r1[PortH], BrakeBit(m)) == BitOf(r2[PortH], BrakeBit(m)) &&
    BitOf(r1[PortB], DirBit(m)) == BitOf(r2[PortB], DirBit(m))
  }

  /**
   * Driving a motor releases its brake, sets its direction bit to the
   * direction, and writes no register but PORTH and PORTB.
   */
  lemma DriveEffect(regs: map<Reg, Byte>, m: Motor, dir: Direction)
    requires PortH in regs && PortB in regs
    ensures var r := Drive(regs, m, dir);
      !BitOf(r[PortH], BrakeBit(m)) &&
      BitOf(r[PortB], DirBit(m)) == (dir == Forward) &&
      r.Keys == regs.Keys &&
      (forall q :: q in regs && q != PortH && q != PortB ==> r[q] == regs[q])
  {
    ClearBitSpec(regs[PortH], BrakeBit(m));
    if dir == Forward {
      SetBitSpec(regs[PortB], DirBit(m));
    } else {
      ClearBitSpec(regs[PortB], DirBit(m));
    }
  }

  /** Braking a motor sets its brake bit, keeps its direction, and writes no register but PORTH. */
  lemma BrakeEffect(regs: map<Reg, Byte>, m: Motor)
    requires PortH in regs && PortB in regs
    ensures var r := Brake(regs, m);
      BitOf(r[PortH], BrakeBit(m)) &&
      BitOf(r[PortB], DirBit(m)) == BitOf(regs[PortB], DirBit(m)) &&
      r.Keys == regs.Keys &&
      (forall q :: q in regs && q != PortH ==> r[q] == regs[q])
  {
    SetBitSpec(regs[PortH], BrakeBit(m));
  }

  /** Writing one motor's brake or direction bit keeps the other motor's bit on the same port. */
  lemma OtherMotorBitKept(v: Byte, m: Motor, other: Motor)
    requires m != other
    ensures BitOf(SetBit(v, BrakeBit(m)), BrakeBit(other)) == BitOf(v, BrakeBit(other))
    ensures BitOf(ClearBit(v, BrakeBit(m)), BrakeBit(other)) == BitOf(v, BrakeBit(other))
    ensures BitOf(SetBit(v, DirBit(m)), DirBit(other)) == BitOf(v, DirBit(other))
    ensures BitOf(ClearBit(v, DirBit(m)), DirBit(other)) == BitOf(v, DirBit(other))
  {
    if m == MotorA {
      assert other == MotorB;
    } else {
      assert other == MotorA;
    }
  }

  /** The motors use different bits, so driving or braking one keeps the other's brake and direction. */
  lemma MotorsIndependent(regs: map<Reg, Byte>, m: Motor, other: Motor, dir: Direction)
    requires PortH in regs && PortB in regs && other != m
    ensures SameMotorBits(Drive(regs, m, dir), regs, other)
    ensures SameMotorBits(Brake(regs, m), regs, other)
  {
    var h, b := regs[PortH], regs[PortB];
    OtherMotorBitKept(h, m, other);
    OtherMotorBitKept(b, m, other);
    assert Drive(regs, m, dir)[PortH] == ClearBit(h, BrakeBit(m));
    assert Drive(regs, m, dir)[PortB] == if dir == Forward then SetBit(b, DirBit(m)) else ClearBit(b, DirBit(m));
    assert Brake(regs, m)[PortH] == SetBit(h, BrakeBit(m));
    assert Brake(regs, m)[PortB] == b;
  }

  /** The statics `motor_a_speed` and `motor_b_speed` with the registers the driver writes. */
  class Shield {
    var motorASpeed: uint8
    var motorBSpeed: uint8
    /** OCR3C, motor A's compare register. */
    var ocr3c: uint16
    /** OCR1A, motor B's compare register. */
    var ocr1a: uint16
    const io: Io

    ghost predicate Valid()
      reads this, io
    {
      io.Valid()
    }

    /** The statics start zeroed; the compare registers hold their reset value 0. */
    constructor (io: Io)
      requires io.Valid()
      ensures Valid() && this.io == io
      ensures motorASpeed == 0 && motorBSpeed == 0 && ocr3c == 0 && ocr1a == 0
    {
      this.io := io;
      motorASpeed, motorBSpeed := 0, 0;
      ocr3c, ocr1a := 0, 0;
    }

    /**
     * `motorshield_init`: the six motor pins become outputs; the `pwm_init`
     * it calls clears both compare registers.
     */
    method Init()
      requires Valid()
      modifies this, io
      ensures Valid()
      ensures io.regs == InitDirections(old(io.regs))
      ensures ocr3c == 0 && ocr1a == 0
      ensures motorASpeed == old(motorASpeed) && motorBSpeed == old(motorBSpeed)
    {
      io.regs := InitDirections(io.regs);
      ocr3c, ocr1a := 0, 0;
    }

    /** `set_duty_cycle_a`: OCR3C and the stored speed of motor A both become the duty. */
    method SetDutyCycleA(duty: uint8)
      modifies this
      ensures ocr3c == duty && motorASpeed == duty
      ensures ocr1a == old(ocr1a) && motorBSpeed == old(motorBSpeed)
    {
      var d := ClampDuty(duty);
      ocr3c := d;
      motorASpeed := d;
    }

    /** `set_duty_cycle_b`: OCR1A and the stored speed of motor B both become the duty. */
    method SetDutyCycleB(duty: uint8)
      modifies this
      ensures ocr1a == duty && motorBSpeed == duty
      ensures ocr3c == old(ocr3c) && motorASpeed == old(motorASpeed)
    {
      var d := ClampDuty(duty);
      ocr1a := d;
      motorBSpeed := d;
    }

    /** `get_duty_cycle_a`: the stored speed of motor A; changes nothing. */
    method GetDutyCycleA() returns (duty: uint8)
      ensures duty == motorASpeed
    {
      duty := motorASpeed;
    }

    /** `get_duty_cycle_b`: the stored speed of motor B; changes nothing. */
    method GetDutyCycleB() returns (duty: uint8)
      ensures duty == motorBSpeed
    {
      duty := motorBSpeed;
    }

    /** `motor_a_forward`: release brake A, direction A forward, speed A. */
    method MotorAForward(speed: uint8)
      requires Valid()
      modifies this, io
      ensures Valid()
      ensures io.regs == Drive(old(io.regs), MotorA, Forward)
      ensures motorASpeed == speed && ocr3c == speed
      ensures motorBSpeed == old(motorBSpeed) && ocr1a == old(ocr1a)
    {
      io.SetPinLow(H, BrakeA);
      io.SetPinHigh(B, DirA);
      SetDutyCycleA(speed);
    }

    /** `motor_a_backward`: release brake A, direction A backward, speed A. */
    method MotorABackward(speed: uint8)
      requires Valid()
      modifies this, io
      ensures Valid()
      ensures io.regs == Drive(old(io.regs), MotorA, Backward)
      ensures motorASpeed == speed && ocr3c == speed
      ensures motorBSpeed == old(motorBSpeed) && ocr1a == old(ocr1a)
    {
      io.SetPinLow(H, BrakeA);
      io.SetPinLow(B, DirA);
      SetDutyCycleA(speed);
    }

    /** `motor_a_stop`: apply brake A and set speed A to 0. */
    method MotorAStop()
      requires Valid()
      modifies this, io
      ensures Valid()
      ensures io.regs == Brake(old(io.regs), MotorA)
      ensures motorASpeed == 0 && ocr3c == 0
      ensures motorBSpeed == old(motorBSpeed) && ocr1a == old(ocr1a)
    {
      io.SetPinHigh(H, BrakeA);
      SetDutyCycleA(0);
    }

    /** `motor_b_forward`: release brake B, direction B forward, speed B. */
    method MotorBForward(speed: uint8)
      requires Valid()
      modifies this, io
      ensures Valid()
      ensures io.regs == Drive(old(io.regs), MotorB, Forward)
      ensures motorBSpeed == speed && ocr1a == speed
      ensures motorASpeed == old(motorASpeed) && ocr3c == old(ocr3c)
    {
      io.SetPinLow(H, BrakeB);
      io.SetPinHigh(B, DirB);
      SetDutyCycleB(speed);
    }

    /** `motor_b_backward`: release brake B, direction B backward, speed B. */
    method MotorBBackward(speed: uint8)
      requires Valid()
      modifies this, io
      ensures Valid()
      ensures io.regs == Drive(old(io.regs), MotorB, Backward)
      ensures motorBSpeed == speed && ocr1a == speed
      ensures motorASpeed == old(motorASpeed) && ocr3c == old(ocr3c)
    {
      io.SetPinLow(H, BrakeB);
      io.SetPinLow(B, DirB);
      SetDutyCycleB(speed);
    }

    /** `motor_b_stop`: apply brake B and set speed B to 0. */
    method MotorBStop()
      requires Valid()
      modifies this, io
      ensures Valid()
      ensures io.regs == Brake(old(io.regs), MotorB)
      ensures motorBSpeed == 0 && ocr1a == 0
      ensures motorASpeed == old(motorASpeed) && ocr3c == old(ocr3c)
    {
      io.SetPinHigh(H, BrakeB);
      SetDutyCycleB(0);
    }
  }
}
