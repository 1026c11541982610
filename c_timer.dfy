/**
 * The timer-overflow scheduler of AVR_Firmware01/lib/timer/timer.c.
 *
 * A dense table like scheduler.c, with four differences: the clock advances
 * by 10 per interrupt (one overflow every 10 ms), the due test has no
 * `period > 0` guard, a new entry always starts not ready, and `task_run`
 * clears the ready flag of every entry it runs, background or not.
 */
module CTimer {
  import opened Wrappers
  import opened Machine
  import opened Scheduler
  import CScheduler

  /** Clock ticks added by one overflow interrupt. */
  const TickStep := 10

  /** A new entry: `next_run = period`, `ready = 0`, whatever the period. */
  function NewEntry(action: ActionId, period: uint16): Task
  {
    Task(action, period, period, false)
  }

  /** The due test of `ISR(TIMER0_OVF_vect)`: plain `>=`, no period guard. */
  predicate TimerDue(t: Task, now: uint16)
  {
    now >= t.nextRun
  }

  /** What one overflow interrupt at time `now` does to a registered entry. */
  function TimerTick(t: Task, now: uint16): Task
  {
    if TimerDue(t, now) then t.(ready := true, nextRun := WrappingAdd16(now, t.period)) else t
  }

  /** For periodic entries the overflow handler follows the same rule as the Rust tick handler. */
  lemma PeriodicTickAgrees(t: Task, now: uint16)
    requires t.period > 0
    ensures TimerTick(t, now) == TickTask(t, now)
  {
  }

  /**
   * Without the period guard a background entry is due whenever the clock has
   * reached its next_run, and firing pins next_run to the current time.
   * A background entry just registered (next_run = 0) fires on the first interrupt.
   */
  lemma BackgroundFiresWhenReached(t: Task, now: uint16)
    requires t.period == 0 && t.nextRun <= now
    ensures TimerTick(t, now) == t.(ready := true, nextRun := now)
    ensures TimerTick(NewEntry(t.action, 0), now).ready
  {
  }

  /**
   * A background entry that fired at `prev` fires again on the next interrupt
   * exactly when the clock does not wrap in between: at the wrap the clock
   * falls below next_run and the entry is left unchanged until the clock
   * climbs back past `prev`.
   */
  lemma BackgroundNextInterrupt(t: Task, prev: uint16)
    requires t.period == 0 && t.nextRun == prev
    ensures var now := WrappingAdd16(prev, TickStep);
      (TimerTick(t, now).ready && TimerTick(t, now).nextRun == now) || TimerTick(t, now) == t
    ensures prev + TickStep < Modulus16 ==> TimerTick(t, WrappingAdd16(prev, TickStep)).nextRun == prev + TickStep
    ensures prev + TickStep >= Modulus16 ==> TimerTick(t, WrappingAdd16(prev, TickStep)) == t
  {
  }

  /**
   * The clock starts at 0 and moves in steps of 10 modulo 65536, so it is
   * always even; an entry whose next_run is 65535 (for example one registered
   * with period 65535) is never due again.
   */
  lemma OddDeadlineNeverDue(t: Task, now: uint16)
    requires now % 2 == 0 && t.nextRun == 0xFFFF
    ensures TimerTick(t, now) == t
    ensures WrappingAdd16(now, TickStep) % 2 == 0
  {
  }

  /** Static arrays, counter and clock of timer.c. */
  class TimerTable {
    var tasks: array<Task>
    var taskCount: nat
    var systemTime: uint16

    ghost predicate Valid()
      reads this
    {
      tasks.Length == TaskCapacity && taskCount <= TaskCapacity && systemTime % 2 == 0
    }

    /** The zero-initialised statics. */
    constructor ()
      ensures Valid() && fresh(tasks)
      ensures taskCount == 0 && systemTime == 0
    {
      tasks := new Task[TaskCapacity](_ => Task(0, 0, 0, false));
      taskCount := 0;
      systemTime := 0;
    }

    /** The registered entries as optional slots. */
    ghost function View(): seq<Option<Task>>
      reads this, tasks
      requires Valid()
    {
      CScheduler.Slots(tasks[..], taskCount)
    }

    /** `task_add`: append a not-ready entry when fewer than ten are registered. */
    method TaskAdd(action: ActionId, period: uint16)
      requires Valid()
      modifies this, tasks
      ensures Valid() && tasks == old(tasks) && systemTime == old(systemTime)
      ensures old(taskCount) < TaskCapacity ==>
        taskCount == old(taskCount) + 1 &&
        tasks[..] == old(tasks[..])[old(taskCount) := NewEntry(action, period)]
      ensures old(taskCount) == TaskCapacity ==> taskCount == old(taskCount) && tasks[..] == old(tasks[..])
      ensures View() == AddTask(old(View()), NewEntry(action, period))
    {
      CScheduler.AddAgrees(tasks[..], taskCount, NewEntry(action, period));
      if taskCount < TaskCapacity {
        tasks[taskCount] := NewEntry(action, period);
        taskCount := taskCount + 1;
      }
    }

    /**
     * `ISR(TIMER0_OVF_vect)`: advance the clock by 10 with wraparound and
     * apply the unguarded due test to every registered entry.
     */
    method Isr()
      requires Valid()
      modifies this, tasks
      ensures Valid() && tasks == old(tasks) && taskCount == old(taskCount)
      ensures systemTime == WrappingAdd16(old(systemTime), TickStep)
      ensures forall j :: 0 <= j < taskCount ==> tasks[j] == TimerTick(old(tasks[j]), systemTime)
      ensures forall j :: taskCount <= j < TaskCapacity ==> tasks[j] == old(tasks[j])
    {
      systemTime := WrappingAdd16(systemTime, TickStep);
      for i := 0 to taskCount
        invariant Valid() && tasks == old(tasks) && taskCount == old(taskCount)
        invariant systemTime == WrappingAdd16(old(systemTime), TickStep)
        invariant forall j :: 0 <= j < i ==> tasks[j] == TimerTick(old(tasks[j]), systemTime)
        invariant forall j :: i <= j < TaskCapacity ==> tasks[j] == old(tasks[j])
      {
        if systemTime >= tasks[i].nextRun {
          tasks[i] := tasks[i].(ready := true);
          tasks[i] := tasks[i].(nextRun := WrappingAdd16(systemTime, tasks[i].period));
        }
      }
    }

    /**
     * One step of the `task_run` scan: when entry `i` is ready, invoke it (the
     * returned id) and clear its ready flag.
     */
    method InvokeAt(i: nat) returns (fired: Option<ActionId>)
      requires Valid() && i < taskCount
      modifies tasks
      ensures tasks[i] == old(tasks[i]).(ready := false)
      ensures forall j :: 0 <= j < tasks.Length && j != i ==> tasks[j] == old(tasks[j])
      ensures Captured(Some(old(tasks[i]))) == if fired.Some? then [fired.value] else []
    {
      fired := None;
      if tasks[i].ready {
        fired := Some(tasks[i].action);
        tasks[i] := tasks[i].(ready := false);
      }
    }

    /**
     * `task_run`: invoke each ready registered entry in index order and clear
     * its ready flag, whatever its period. It invokes the same actions the Rust
     * dispatcher would capture from the same table.
     */
    method Run() returns (invoked: seq<ActionId>)
      requires Valid()
      modifies tasks
      ensures Valid()
      ensures invoked == ReadyActions(old(View()))
      ensures forall j :: 0 <= j < taskCount ==> tasks[j] == old(tasks[j]).(ready := false)
      ensures forall j :: taskCount <= j < TaskCapacity ==> tasks[j] == old(tasks[j])
    {
      ghost var slots := View();
      invoked := [];
      for i := 0 to taskCount
        invariant invoked == ReadyActions(slots[..i])
        invariant forall j :: 0 <= j < i ==> tasks[j] == old(tasks[j]).(ready := false)
        invariant forall j :: i <= j < TaskCapacity ==> tasks[j] == old(tasks[j])
      {
        ReadyActionsSnoc(slots, i);
        assert slots[i] == Some(tasks[i]);
        var fired := InvokeAt(i);
        if fired.Some? {
          invoked := invoked + [fired.value];
        }
      }
      ReadyActionsIgnoresEmptyTail(slots, taskCount);
    }
  }
}
