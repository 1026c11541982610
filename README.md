# AVR firmware core, modelled in Dafny

This project models the firmware of an ATmega2560 (Arduino Mega) board written
three times over: once in Rust with a cooperative scheduler and an
interrupt-driven serial transmitter (`AVR_Firmware02`), once in C with two
scheduler variants, an LED driver and a motor-shield driver (`AVR_Firmware01`),
and once in Rust as a register-level GPIO layer under an Arduino pin API
(`AVR_Firmware_Rust`).

One Dafny module per source file:

| module | file | form |
|---|---|---|
| `Machine`, `Wrappers` | — | integer widths, 16-bit wrapping arithmetic, `Option` |
| `Scheduler` | `AVR_Firmware02/src/scheduler.rs` | table rules as functions on `seq<Option<Task>>`; `TaskTable` class over an `array` |
| `Serial` | `AVR_Firmware02/src/serial.rs` | ring rules as functions on a `Ring` value; `Usart` class over an `array` |
| `CScheduler` | `AVR_Firmware01/lib/scheduler/scheduler.c` | `DenseTable` class (array + count + clock) |
| `CTimer` | `AVR_Firmware01/lib/timer/timer.c` | `TimerTable` class |
| `Ports` | `AVR_Firmware_Rust/src/port.rs` | address constants; `Io` class holding the register file |
| `Arduino` | `AVR_Firmware_Rust/src/arduino.rs` | pin table and the four pin operations over `Io` |
| `Led` | `AVR_Firmware01/lib/led/led.c` | `LedDriver` class (shadow state + `Io`) |
| `MotorShield` | `AVR_Firmware01/lib/arduino_motorshield/motorshield.c` | `Shield` class (speed statics, compare registers + `Io`) |

The memory-mapped registers are one map `Io.regs: map<Reg, bv8>` keyed by
(port, PIN/DDR/PORT). `Ports.AddressRoundTrip` and `Ports.AddressesDistinct`
show that the source's address constants give every register its own
address. Writing one key of the map therefore models writing one register.

Each interrupt handler and each critical section is one atomic method. The
Rust scheduler's table is a class whose methods are proved against the value
functions `AddTask`, `TickAll`, `CaptureAll` and `ReadyActions`. The
scheduler's properties are lemmas over those functions. Examples: the table
invariant "a period-0 task stays ready" (the promise of the comments at
`scheduler.rs` lines 43, 175 and 240) is preserved by every operation and is
part of `TaskTable.Valid()`; a ready task is captured exactly once; a
registered background task is captured on every dispatch. The two C schedulers are related to the same functions
through the slot view `CScheduler.Slots`, so all three dispatchers are shown to
invoke the same actions from the same table. The serial ring is proved to be
a bounded FIFO. Write-then-drain emits the waiting bytes followed by the written
bytes, truncated to the free space.

Two behaviours of the code that a reader may not expect; the model follows the
code in both:

- The due test in `TIMER0_COMPA` and in both C handlers is a plain unsigned
  `now >= next_run`, not a wrap-aware comparison. Once `now + period` wraps past
  65535, `next_run` falls below the clock. The task then becomes due again on
  every tick until the clock itself wraps (`Scheduler.WrappedTaskFiresEveryTick`),
  instead of becoming ready once per period.
- The overflow handler of `timer.c` has no `period > 0` guard, so a period-0
  entry is handled by the same `>=` test: firing sets its `next_run` to the
  current clock. It therefore fires on each overflow interrupt while the clock
  climbs, but when the clock wraps it falls below that `next_run` and the
  entry stops firing until the clock climbs back to its last firing time
  (`CTimer.BackgroundNextInterrupt`).

The LED driver and motor B's direction both drive PORTB bit 7 (`Led.LedBit`,
`MotorShield.DirB`). The LED's shadow state can therefore disagree with the
pin, and `Led.ToggleOutOfSyncIsInvisible` shows what a toggle does then.

## Model

| member | source | states |
|---|---|---|
| Machine.SubUndoesAdd | AVR_Firmware02/src/scheduler.rs:273-279 | `wrapping_sub` undoes `wrapping_add` on `u16`, so the elapsed tick count survives a clock wrap |
| Scheduler.FirstFree | AVR_Firmware02/src/scheduler.rs:183-189 | the slot `task_add` fills is empty and every slot before it is occupied; None exactly when no slot is empty |
| Scheduler.FirstFreeIs | AVR_Firmware02/src/scheduler.rs:183-189 | the lowest empty slot is the one chosen |
| Scheduler.AddTaskEffect | AVR_Firmware02/src/scheduler.rs:180-193 | registration keeps every registered task, fills exactly the lowest empty slot, and changes nothing on a full table |
| Scheduler.NewTaskInvariant | AVR_Firmware02/src/scheduler.rs:46-53 | `Task::new` is ready exactly when its period is 0, so it satisfies the background-ready invariant |
| Scheduler.AddTaskKeepsInvariant | AVR_Firmware02/src/scheduler.rs:180-193 | registration preserves "every background task is ready" |
| Scheduler.TickEffect | AVR_Firmware02/src/scheduler.rs:158-167 | a tick never fills or empties a slot and never changes an action or a period; it sets ready and `next_run = (now + period) mod 2^16` exactly for periodic tasks with `now >= next_run`, and leaves every other task unchanged |
| Scheduler.TickKeepsInvariant | AVR_Firmware02/src/scheduler.rs:158-167 | the tick handler preserves the background-ready invariant |
| Scheduler.NewTaskDue | AVR_Firmware02/src/scheduler.rs:46-53 | a new periodic task becomes due when the clock reaches its period |
| Scheduler.WrappedTaskFiresEveryTick | AVR_Firmware02/src/scheduler.rs:162-165 | once `now + period` has wrapped, the plain `>=` test makes the task ready on every following tick until the clock wraps |
| Scheduler.TicksFromKeepsPeriod | AVR_Firmware02/src/scheduler.rs:158-167 | any number of ticks keeps a task's action and period |
| Scheduler.CaptureEffect | AVR_Firmware02/src/scheduler.rs:233-247 | capture clears the ready flag of every periodic task, keeps a background task's flag, and keeps actions, periods and `next_run` |
| Scheduler.CaptureKeepsInvariant | AVR_Firmware02/src/scheduler.rs:233-247 | the capture phase preserves the background-ready invariant |
| Scheduler.ReadyActionsAppend | AVR_Firmware02/src/scheduler.rs:233-247 | the capture list of a concatenation of slots is the concatenation of their capture lists |
| Scheduler.ReadyActionsAt | AVR_Firmware02/src/scheduler.rs:233-247 | a slot holding a ready task has its action in the capture list, at the position given by the number of ready slots before it |
| Scheduler.NothingReadyNothingCaptured | AVR_Firmware02/src/scheduler.rs:233-247 | a table with no ready task yields an empty capture list |
| Scheduler.ReadyActionsIgnoresEmptyTail | AVR_Firmware02/src/scheduler.rs:233-247 | empty slots after the last registered one contribute nothing to the capture list |
| Scheduler.RecaptureOnlyBackground | AVR_Firmware02/src/scheduler.rs:239-244 | after capture only background tasks are still ready, so a periodic task is never dispatched twice for one firing |
| Scheduler.BackgroundAlwaysCaptured | AVR_Firmware02/src/scheduler.rs:239-244 | in a table meeting the invariant, every registered background task is in the capture list |
| Scheduler.DelayExact | AVR_Firmware02/src/scheduler.rs:273-279 | after `k` ticks (fewer than 65536), `delay(ms)` is over exactly when `k >= ms`, even across a clock wrap; `delay(0)` ends at once |
| Scheduler.DelayPolls | AVR_Firmware02/src/scheduler.rs:273-279 | over the clock values the busy-wait observes, it stops at the first poll whose wrapping elapsed time reaches `ms`, and never earlier |
| Scheduler.TaskTable.constructor | AVR_Firmware02/src/scheduler.rs:71-72 | ten empty slots and a clock at 0 |
| Scheduler.TaskTable.TaskAdd | AVR_Firmware02/src/scheduler.rs:180-193 | the table becomes `AddTask(old table, Task::new(action, period))` |
| Scheduler.TaskTable.Tick | AVR_Firmware02/src/scheduler.rs:142-170 | the clock advances by 1 mod 2^16 and the table becomes `TickAll(old table, new clock)` |
| Scheduler.TaskTable.GetSystemTime | AVR_Firmware02/src/scheduler.rs:203-208 | returns the clock |
| Scheduler.TaskTable.CaptureAt | AVR_Firmware02/src/scheduler.rs:234-246 | one slot of the capture loop: yields the action exactly when the slot holds a ready task, and clears the flag of a periodic one |
| Scheduler.TaskTable.Capture | AVR_Firmware02/src/scheduler.rs:227-248 | `ready_tasks[0..count]` holds the actions of the ready slots in slot order; `count` never exceeds 10; the table becomes `CaptureAll(old table)` |
| Scheduler.TaskTable.Run | AVR_Firmware02/src/scheduler.rs:225-258 | the invoked actions are `ReadyActions(old table)` in order, the table becomes `CaptureAll(old table)`, and every registered period-0 task's action is among the invoked ones |
| Serial.Next | AVR_Firmware02/src/serial.rs:81 | `(i + 1) % 128` stays in the ring and wraps from 127 to 0 |
| Serial.FullIffNoRoom | AVR_Firmware02/src/serial.rs:81-87 | `next_head == tail` exactly when no room is left; `head == tail` exactly when nothing waits |
| Serial.Push | AVR_Firmware02/src/serial.rs:79-92 | the write loop keeps the ring well formed |
| Serial.PushOne | AVR_Firmware02/src/serial.rs:89-91 | storing one byte at `head` and advancing `head` appends that byte to the waiting bytes |
| Serial.PushShape | AVR_Firmware02/src/serial.rs:79-92 | a write never moves `tail`; it takes exactly `min(len, free)` bytes and advances `head` by that many |
| Serial.PushAppends | AVR_Firmware02/src/serial.rs:79-92 | the waiting bytes become the old waiting bytes followed by the accepted prefix of the string |
| Serial.PushFrame | AVR_Firmware02/src/serial.rs:79-92 | a write changes only the slots it fills, those from `head` onward |
| Serial.DrainPops | AVR_Firmware02/src/serial.rs:157-167 | one drain interrupt emits the oldest waiting byte and removes exactly it, or emits nothing on an empty ring |
| Serial.DrainAllEmits | AVR_Firmware02/src/serial.rs:144-169 | repeated drain interrupts emit exactly the waiting bytes, in order, and end with `head == tail` |
| Serial.RoundTrip | AVR_Firmware02/src/serial.rs:65-98 | writing then draining emits the waiting bytes followed by the string when it fits, or by its first `free` bytes when it does not |
| Serial.UbrrRealisesBaud | AVR_Firmware02/src/serial.rs:11-37 | the divisor exists exactly when `0 < 8 * baud <= 16 MHz`; from 31 baud up, `16 MHz / (8 * (ubrr + 1))` is the slowest realisable rate not below the request, and divisor `ubrr + 1` would fall below it; 115200 gives 16 and 9600 gives 207 |
| Serial.Usart.constructor | AVR_Firmware02/src/serial.rs:16-26 | zeroed ring with `head == tail == 0`, no stored handle, drain interrupt off |
| Serial.Usart.Init | AVR_Firmware02/src/serial.rs:32-61 | UBRR0 is the computed divisor, the drain interrupt is off and the handle is stored; false where the divisor computation panics |
| Serial.Usart.WriteStr | AVR_Firmware02/src/serial.rs:65-98 | on an initialised port the ring becomes `Push(old ring, s)` and the drain interrupt is on; before `init` nothing changes |
| Serial.Usart.Udre | AVR_Firmware02/src/serial.rs:144-169 | on an initialised port the emitted byte and new ring are `DrainStep(old ring)`, and the interrupt is turned off exactly when nothing was waiting |
| Serial.Usart.SerialEcho | AVR_Firmware02/src/serial.rs:129-137 | a received byte that is valid UTF-8 on its own is written as in `write_str`; no byte or any other byte changes nothing |
| Serial.EchoAppends | AVR_Firmware02/src/serial.rs:129-137 | an echoed byte is appended to the waiting bytes exactly when there is room |
| CScheduler.AddAgrees | AVR_Firmware01/lib/scheduler/scheduler.c:15-29 | writing entry `task_count` registers exactly as the Rust `task_add` does on the slot view; a full table is left alone by both |
| CScheduler.DenseTable.constructor | AVR_Firmware01/lib/scheduler/scheduler.c:3-5 | no tasks and a clock at 0 |
| CScheduler.DenseTable.TaskAdd | AVR_Firmware01/lib/scheduler/scheduler.c:15-29 | below 10 entries, entry `task_count` becomes `{task, period, period, period == 0}` and the count grows by one; a full table is unchanged; the slot view changes as `AddTask` |
| CScheduler.DenseTable.Isr | AVR_Firmware01/lib/scheduler/scheduler.c:31-40 | the clock advances by 1 mod 2^16; each registered entry follows the Rust tick rule and the others are untouched; the slot view changes as `TickAll` |
| CScheduler.DenseTable.InvokeAt | AVR_Firmware01/lib/scheduler/scheduler.c:44-50 | a ready entry is invoked and loses its ready flag only when periodic; no other entry changes |
| CScheduler.DenseTable.Run | AVR_Firmware01/lib/scheduler/scheduler.c:42-52 | invokes exactly `ReadyActions` of the slot view, in index order, which is what the Rust dispatcher captures; the view becomes `CaptureAll` of the old one |
| CTimer.PeriodicTickAgrees | AVR_Firmware01/lib/timer/timer.c:27-32 | for periodic entries the overflow handler follows the same rule as the Rust tick handler |
| CTimer.BackgroundFiresWhenReached | AVR_Firmware01/lib/timer/timer.c:17-30 | without a period guard, a background entry fires once the clock reaches `next_run` and pins it to the current time; a new one fires on the first interrupt |
| CTimer.BackgroundNextInterrupt | AVR_Firmware01/lib/timer/timer.c:25-31 | a background entry fires again on the next interrupt exactly when the clock does not wrap; at the wrap it is left unchanged |
| CTimer.OddDeadlineNeverDue | AVR_Firmware01/lib/timer/timer.c:25-31 | the clock stays even, so an entry whose `next_run` is 65535 is never due |
| CTimer.TimerTable.constructor | AVR_Firmware01/lib/timer/timer.c:3-5 | no entries and a clock at 0 |
| CTimer.TimerTable.TaskAdd | AVR_Firmware01/lib/timer/timer.c:13-21 | below 10 entries, appends a not-ready entry with `next_run = period`; the slot view changes as `AddTask` |
| CTimer.TimerTable.Isr | AVR_Firmware01/lib/timer/timer.c:23-33 | the clock advances by 10 mod 2^16 and each registered entry with `clock >= next_run` becomes ready with `next_run = clock + period` |
| CTimer.TimerTable.InvokeAt | AVR_Firmware01/lib/timer/timer.c:37-40 | a ready entry is invoked and loses its ready flag whatever its period; no other entry changes |
| CTimer.TimerTable.Run | AVR_Firmware01/lib/timer/timer.c:35-42 | invokes exactly `ReadyActions` of the slot view, in index order, and every registered entry ends not ready |
| Ports.AddressLayout | AVR_Firmware_Rust/src/port.rs:76-141 | each port's DDRx is one above its PINx and PORTx two above |
| Ports.AddressRoundTrip | AVR_Firmware_Rust/src/port.rs:76-141 | the address constants follow the layout: each address names back its own register |
| Ports.AddressesDistinct | AVR_Firmware_Rust/src/port.rs:76-141 | the 33 register addresses are pairwise distinct |
| Ports.MaskIsShift | AVR_Firmware_Rust/src/port.rs:23 | the mask table is `1 << n` |
| Ports.BitsDetermineByte | AVR_Firmware_Rust/src/port.rs:60-64 | two register values with the same eight bits are equal |
| Ports.SetBitSpec | AVR_Firmware_Rust/src/port.rs:20-25 | OR-ing `1 << n` into `v` sets bit `n`, keeps every other bit, and is idempotent |
| Ports.ClearBitSpec | AVR_Firmware_Rust/src/port.rs:28-33 | AND-ing `v` with `!(1 << n)` clears bit `n`, keeps every other bit, and is idempotent |
| Ports.ToggleBitSpec | AVR_Firmware_Rust/src/port.rs:52-57 | XOR-ing `1 << n` into `v` flips bit `n`, keeps every other bit, and is its own inverse |
| Ports.Io.constructor | AVR_Firmware_Rust/src/port.rs:9-13 | the register file as found at start-up |
| Ports.Io.SetPinOutput | AVR_Firmware_Rust/src/port.rs:20-25 | DDRx gets bit `n` set (OR with `1 << n`); no other register changes |
| Ports.Io.SetPinInput | AVR_Firmware_Rust/src/port.rs:28-33 | DDRx becomes `DDRx & !(1 << n)`; no other register changes |
| Ports.Io.SetPinHigh | AVR_Firmware_Rust/src/port.rs:36-41 | PORTx gets bit `n` set (OR with `1 << n`); no other register changes |
| Ports.Io.SetPinLow | AVR_Firmware_Rust/src/port.rs:44-49 | PORTx becomes `PORTx & !(1 << n)`; no other register changes |
| Ports.Io.TogglePin | AVR_Firmware_Rust/src/port.rs:52-57 | PORTx becomes `PORTx ^ (1 << n)`; no other register changes |
| Ports.Io.ReadPin | AVR_Firmware_Rust/src/port.rs:60-65 | returns whether bit `n` of PINx is 1 and changes nothing |
| Arduino.ConversionsRoundTrip | AVR_Firmware_Rust/src/arduino.rs:25-39 | `PinState::from(bool)` and `bool::from(PinState)` are inverse bijections |
| Arduino.PinsD0Documented | AVR_Firmware_Rust/src/arduino.rs:143-157 | table entries D0-D13 agree with the documented (port, bit) of each pin constant |
| Arduino.PinsD14Documented | AVR_Firmware_Rust/src/arduino.rs:158-166 | table entries D14-D21 agree with the documented pins |
| Arduino.PinsD22Documented | AVR_Firmware_Rust/src/arduino.rs:167-175 | table entries D22-D29 agree with the documented pins |
| Arduino.PinsD30Documented | AVR_Firmware_Rust/src/arduino.rs:176-184 | table entries D30-D37 agree with the documented pins |
| Arduino.PinsD38Documented | AVR_Firmware_Rust/src/arduino.rs:185-189 | table entries D38-D41 agree with the documented pins |
| Arduino.PinsD42Documented | AVR_Firmware_Rust/src/arduino.rs:190-195 | table entries D42-D46 agree with the documented pins |
| Arduino.PinsD47Documented | AVR_Firmware_Rust/src/arduino.rs:196-199 | table entries D47-D49 agree with the documented pins |
| Arduino.PinsD50Documented | AVR_Firmware_Rust/src/arduino.rs:200-204 | table entries D50-D53 agree with the documented pins |
| Arduino.PinsA0Documented | AVR_Firmware_Rust/src/arduino.rs:207-214 | table entries A0-A7 (54-61) agree with the documented pins |
| Arduino.PinsA8Documented | AVR_Firmware_Rust/src/arduino.rs:215-222 | table entries A8-A15 (62-69) agree with the documented pins |
| Arduino.PinMapMatchesDocumentation | AVR_Firmware_Rust/src/arduino.rs:53-132 | all 70 entries are present, name a bit below 8, and map each pin to the port and bit its constant documents |
| Arduino.PinMapInjective | AVR_Firmware_Rust/src/arduino.rs:142-223 | no two Arduino pins share a (port, bit) pair |
| Arduino.GetMapping | AVR_Firmware_Rust/src/arduino.rs:228-242 | a mapping is returned exactly for pins below 70 (the source panics otherwise), and its bit is below 8 |
| Arduino.LedBuiltinIsPB7 | AVR_Firmware_Rust/src/arduino.rs:135 | `LED_BUILTIN` maps to port B bit 7 |
| Arduino.SetPinMode | AVR_Firmware_Rust/src/arduino.rs:252-269 | Output sets the DDR bit; Input clears the DDR and PORT bits; InputPullup clears the DDR bit and sets the PORT bit; an invalid pin changes nothing |
| Arduino.DigitalWrite | AVR_Firmware_Rust/src/arduino.rs:280-286 | the mapped PORT bit becomes `bool::from(value)`; every other bit and register is kept |
| Arduino.DigitalRead | AVR_Firmware_Rust/src/arduino.rs:299-306 | returns the mapped PIN bit as a `PinState`, None for an invalid pin |
| Arduino.DigitalToggle | AVR_Firmware_Rust/src/arduino.rs:316-319 | the mapped PORT bit flips; every other bit and register is kept |
| Led.ToggledDrivesNewState | AVR_Firmware01/lib/led/led.c:20-29 | a toggle negates the shadow state, drives bit 7 to it, and keeps every other PORTB bit |
| Led.ToggleTwice | AVR_Firmware01/lib/led/led.c:20-29 | from an in-sync state, two toggles restore both the shadow state and PORTB |
| Led.ToggleOutOfSyncIsInvisible | AVR_Firmware01/lib/led/led.c:20-29 | with the shadow state off and bit 7 already high, a toggle leaves the pin as it was |
| Led.LedDriver.constructor | AVR_Firmware01/lib/led/led.c:3 | the static starts with the LED off |
| Led.LedDriver.Init | AVR_Firmware01/lib/led/led.c:5-8 | DDRB bit 7 is set and the shadow state is off |
| Led.LedDriver.Off | AVR_Firmware01/lib/led/led.c:10-13 | PORTB bit 7 is cleared, the shadow state is off, and the two agree |
| Led.LedDriver.On | AVR_Firmware01/lib/led/led.c:15-18 | PORTB bit 7 is set, the shadow state is on, and the two agree |
| Led.LedDriver.Toggle | AVR_Firmware01/lib/led/led.c:20-29 | the shadow state and PORTB change as `Toggled`; no other register changes |
| MotorShield.BrakeBit | AVR_Firmware01/lib/arduino_motorshield/motorshield.h:10-11 | each motor's brake bit is a valid bit number |
| MotorShield.DirBit | AVR_Firmware01/lib/arduino_motorshield/motorshield.h:12-13 | each motor's direction bit is a valid bit number |
| MotorShield.ClampDuty | AVR_Firmware01/lib/arduino_motorshield/motorshield.c:38-40 | the stored duty is at most PWM_MAX, and the cap never changes a `uint8_t` duty |
| MotorShield.InitDirectionsEffect | AVR_Firmware01/lib/arduino_motorshield/motorshield.c:8-17 | DDRB bits 5-7, DDRH bits 5-6 and DDRE bit 5 become outputs; all other bits and registers are kept |
| MotorShield.DriveEffect | AVR_Firmware01/lib/arduino_motorshield/motorshield.c:61-71 | driving a motor releases its brake and sets its direction bit (1 forward, 0 backward), writing only PORTH and PORTB |
| MotorShield.BrakeEffect | AVR_Firmware01/lib/arduino_motorshield/motorshield.c:73-76 | stopping a motor sets its brake bit, keeps its direction, and writes only PORTH |
| MotorShield.OtherMotorBitKept | AVR_Firmware01/lib/arduino_motorshield/motorshield.h:10-13 | writing one motor's brake or direction bit keeps the other motor's bit on the same port |
| MotorShield.MotorsIndependent | AVR_Firmware01/lib/arduino_motorshield/motorshield.c:61-93 | driving or stopping one motor keeps the other motor's brake and direction bits |
| MotorShield.Shield.constructor | AVR_Firmware01/lib/arduino_motorshield/motorshield.c:5-6 | both speed statics start at 0 |
| MotorShield.Shield.Init | AVR_Firmware01/lib/arduino_motorshield/motorshield.c:8-34 | the DDR writes of `motorshield_init`, and OCR3C and OCR1A cleared by `pwm_init`; the speed statics are kept |
| MotorShield.Shield.SetDutyCycleA | AVR_Firmware01/lib/arduino_motorshield/motorshield.c:37-43 | OCR3C and motor A's speed become the duty; motor B's are kept |
| MotorShield.Shield.SetDutyCycleB | AVR_Firmware01/lib/arduino_motorshield/motorshield.c:45-51 | OCR1A and motor B's speed become the duty; motor A's are kept |
| MotorShield.Shield.GetDutyCycleA | AVR_Firmware01/lib/arduino_motorshield/motorshield.c:53-55 | returns motor A's stored speed |
| MotorShield.Shield.GetDutyCycleB | AVR_Firmware01/lib/arduino_motorshield/motorshield.c:57-59 | returns motor B's stored speed |
| MotorShield.Shield.MotorAForward | AVR_Firmware01/lib/arduino_motorshield/motorshield.c:61-65 | registers become `Drive(old, A, Forward)`; motor A's speed and OCR3C become `speed`; motor B is untouched |
| MotorShield.Shield.MotorABackward | AVR_Firmware01/lib/arduino_motorshield/motorshield.c:67-71 | registers become `Drive(old, A, Backward)`; motor A's speed and OCR3C become `speed`; motor B is untouched |
| MotorShield.Shield.MotorAStop | AVR_Firmware01/lib/arduino_motorshield/motorshield.c:73-76 | registers become `Brake(old, A)`; motor A's speed and OCR3C become 0; motor B is untouched |
| MotorShield.Shield.MotorBForward | AVR_Firmware01/lib/arduino_motorshield/motorshield.c:78-82 | registers become `Drive(old, B, Forward)`; motor B's speed and OCR1A become `speed`; motor A is untouched |
| MotorShield.Shield.MotorBBackward | AVR_Firmware01/lib/arduino_motorshield/motorshield.c:84-88 | registers become `Drive(old, B, Backward)`; motor B's speed and OCR1A become `speed`; motor A is untouched |
| MotorShield.Shield.MotorBStop | AVR_Firmware01/lib/arduino_motorshield/motorshield.c:90-93 | registers become `Brake(old, B)`; motor B's speed and OCR1A become 0; motor A is untouched |

## Left out

- Interrupt interleaving: every handler and every critical section is one atomic method. Task bodies running with interrupts enabled, and the C dispatchers running without a critical section, are not modelled as interleavings.
- Task bodies: function pointers become opaque action ids. The dispatchers return the ids they would call, in call order.
- Timer and PWM hardware set-up (`timer_init` in all three variants, the TCCR/ICR writes of `pwm_init`, the `TCNT0` reload in the overflow handler) and `enable_interrupts`: these are configuration writes with no model-level state. Only the OCR3C/OCR1A clears of `pwm_init` are kept.
- USART framing: the UCSR0A/UCSR0B/UCSR0C writes of `init` beyond UBRR0 and the drain-interrupt bit are not modelled, nor is the UDR0 register itself. `Udre` returns the byte it would write.
- `read_byte` (a busy-wait on the receive flag) is not modelled. The result of `read_nonblocking` is the input of `SerialEcho`.
- Serial.Usart.Init: a divisor computation that panics (division by zero, `u32` overflow or underflow under debug semantics) returns false and stores nothing. The UCSR0A write that precedes the panic in the source is not modelled.
- Scheduler.DelayPolls: the clock values the busy-wait would observe are an input sequence. The method reports None when the sequence runs out before the delay ends.
- Ports.Io.SetPinOutput, SetPinInput, SetPinHigh, SetPinLow, TogglePin, ReadPin: they require a bit number below 8. `1 << n` on a `u8` overflows from 8 up, and every caller passes a table bit below 8.
- Ports.Mask: the shift is written as the list of its eight values, with `MaskIsShift` relating the two.
- Volatile pointer accesses become reads and writes of the register map. Pointer provenance and the I/O-space aliasing of the low addresses are not modelled.
- Program entry points (`main` in the three variants) and the board-level wiring are not part of this model.
