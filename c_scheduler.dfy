/**
 * The C scheduler of AVR_Firmware01/lib/scheduler/scheduler.c.
 *
 * The same rules as the Rust scheduler, kept in a dense array: entries
 * `0 .. task_count - 1` are registered tasks and entries from `task_count` on
 * are never read or written. Unlike the Rust variant, `scheduler_run` calls
 * each ready task inside its scan, so capture and execution are one loop.
 * The interrupt handler and each call are atomic here (the C code runs
 * `scheduler_run` with interrupts enabled; interleaving is not modelled).
 */
module CScheduler {
  import opened Wrappers
  import opened Machine
  import opened Scheduler

  /**
   * The dense table read as the optional slots of the Rust variant: entry `i`
   * is a registered task exactly when `i < count`.
   */
  function Slots(tasks: seq<Task>, count: nat): (r: seq<Option<Task>>)
    requires count <= |tasks|
    ensures |r| == |tasks|
    ensures forall i :: 0 <= i < |tasks| ==> (r[i].Some? <==> i < count)
  {
    seq(|tasks|, i requires 0 <= i < |tasks| => if i < count then Some(tasks[i]) else None)
  }

  /**
   * `task_add` writes index `task_count`, which is the first empty slot of the
   * slot view, so it registers exactly as the Rust `task_add` does; on a full
   * table both are no-ops.
   */
  lemma AddAgrees(tasks: seq<Task>, count: nat, t: Task)
    requires count <= |tasks|
    ensures count < |tasks| ==> Slots(tasks[count := t], count + 1) == AddTask(Slots(tasks, count), t)
    ensures count == |tasks| ==> AddTask(Slots(tasks, count), t) == Slots(tasks, count)
  {
    if count < |tasks| {
      FirstFreeIs(Slots(tasks, count), count);
      assert Slots(tasks[count := t], count + 1) == Slots(tasks, count)[count := Some(t)];
    }
  }

  /** Static arrays, counter and clock of scheduler.c. */
  class DenseTable {
    var tasks: array<Task>
    var taskCount: nat
    var systemTime: uint16

    ghost predicate Valid()
      reads this
    {
      tasks.Length == TaskCapacity && taskCount <= TaskCapacity
    }

    /** The zero-initialised statics. */
    constructor ()
      ensures Valid() && fresh(tasks)
      ensures taskCount == 0 && systemTime == 0
    {
      tasks := new Task[TaskCapacity](_ => Task(0, 0, 0, false));
      taskCount := 0;
      systemTime := 0;
    }

    /** The registered tasks as optional slots. */
    ghost function View(): seq<Option<Task>>
      reads this, tasks
      requires Valid()
    {
      Slots(tasks[..], taskCount)
    }

    /**
     * `task_add`: when `task_count < 10`, write entry `task_count` with
     * `next_run = period` and `ready = (period == 0)`, then increment the count.
     */
    method TaskAdd(action: ActionId, period: uint16)
      requires Valid()
      modifies this, tasks
      ensures Valid() && tasks == old(tasks) && systemTime == old(systemTime)
      ensures old(taskCount) < TaskCapacity ==>
        taskCount == old(taskCount) + 1 &&
        tasks[..] == old(tasks[..])[old(taskCount) := NewTask(action, period)]
      ensures old(taskCount) == TaskCapacity ==> taskCount == old(taskCount) && tasks[..] == old(tasks[..])
      ensures View() == AddTask(old(View()), NewTask(action, period))
    {
      AddAgrees(tasks[..], taskCount, NewTask(action, period));
      if taskCount < TaskCapacity {
        tasks[taskCount] := Task(action, period, period, false);
        if period == 0 {
          tasks[taskCount] := tasks[taskCount].(ready := true);
        }
        taskCount := taskCount + 1;
      }
    }

    /**
     * `ISR(TIMER0_COMPA_vect)`: one tick of the clock, then the same due test
     * and update as the Rust handler, applied to the registered entries only.
     */
    method Isr()
      requires Valid()
      modifies this, tasks
      ensures Valid() && tasks == old(tasks) && taskCount == old(taskCount)
      ensures systemTime == WrappingAdd16(old(systemTime), 1)
      ensures forall j :: 0 <= j < taskCount ==> tasks[j] == TickTask(old(tasks[j]), systemTime)
      ensures forall j :: taskCount <= j < TaskCapacity ==> tasks[j] == old(tasks[j])
      ensures View() == TickAll(old(View()), systemTime)
    {
      systemTime := WrappingAdd16(systemTime, 1);
      for i := 0 to taskCount
        invariant Valid() && tasks == old(tasks) && taskCount == old(taskCount)
        invariant systemTime == WrappingAdd16(old(systemTime), 1)
        invariant forall j :: 0 <= j < i ==> tasks[j] == TickTask(old(tasks[j]), systemTime)
        invariant forall j :: i <= j < TaskCapacity ==> tasks[j] == old(tasks[j])
      {
        if tasks[i].period > 0 && systemTime >= tasks[i].nextRun {
          tasks[i] := tasks[i].(ready := true);
          tasks[i] := tasks[i].(nextRun := WrappingAdd16(systemTime, tasks[i].period));
        }
      }
    }

    /**
     * One step of the `scheduler_run` scan: when entry `i` is ready, invoke it
     * (the returned id) and clear its ready flag if it is periodic.
     */
    method InvokeAt(i: nat) returns (fired: Option<ActionId>)
      requires Valid() && i < taskCount
      modifies tasks
      ensures Some(tasks[i]) == CaptureSlot(Some(old(tasks[i])))
      ensures forall j :: 0 <= j < tasks.Length && j != i ==> tasks[j] == old(tasks[j])
      ensures Captured(Some(old(tasks[i]))) == if fired.Some? then [fired.value] else []
    {
      fired := None;
      if tasks[i].ready {
        fired := Some(tasks[i].action);
        if tasks[i].period > 0 {
          tasks[i] := tasks[i].(ready := false);
        }
      }
    }

    /**
     * `scheduler_run`: invoke each ready registered task in index order (the
     * returned ids), clearing the ready flag of periodic ones after the call.
     * It invokes exactly what the Rust dispatcher captures from the same table.
     */
    method Run() returns (invoked: seq<ActionId>)
      requires Valid()
      modifies tasks
      ensures Valid()
      ensures invoked == ReadyActions(old(View()))
      ensures forall j :: 0 <= j < taskCount ==> Some(tasks[j]) == CaptureSlot(Some(old(tasks[j])))
      ensures forall j :: taskCount <= j < TaskCapacity ==> tasks[j] == old(tasks[j])
      ensures View() == CaptureAll(old(View()))
    {
      ghost var slots := View();
      invoked := [];
      for i := 0 to taskCount
        invariant invoked == ReadyActions(slots[..i])
        invariant forall j :: 0 <= j < i ==> Some(tasks[j]) == CaptureSlot(Some(old(tasks[j])))
        invariant forall j :: i <= j < TaskCapacity ==> tasks[j] == old(tasks[j])
      {
        ReadyActionsSnoc(slots, i);
        assert slots[i] == Some(tasks[i]);
        var fired := InvokeAt(i);
        if fired.Some? {
          invoked := invoked + [fired.value];
        }
      }
      ReadyActionsIgnoresEmptyTail(slots, taskCount);
    }
  }
}
