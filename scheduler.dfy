/**
 * The cooperative task scheduler of AVR_Firmware02/src/scheduler.rs.
 *
 * Shared state: a table of ten optional task slots and a 16-bit tick counter,
 * both only touched inside `interrupt::free` critical sections. Each critical
 * section (registration, the TIMER0_COMPA tick handler, the capture phase of
 * the dispatcher, the clock read) is one atomic method of `TaskTable`. Task
 * bodies are function pointers; here they are opaque action ids, and the
 * dispatcher returns the ids it would invoke, in invocation order.
 */
module Scheduler {
  import opened Wrappers
  import opened Machine

  /** Number of task slots (`[Option<Task>; 10]`). */
  const TaskCapacity := 10

  /** Identity of a task's function pointer; what the function does is not modelled. */
  type ActionId = nat

  /** `struct Task`: period 0 marks a background task that is always eligible. */
  datatype Task = Task(action: ActionId, period: uint16, nextRun: uint16, ready: bool)

  /** `Task::new`. */
  function NewTask(action: ActionId, period: uint16): Task
  {
    Task(action, period, period, period == 0)
  }

  /**
   * The table invariant: a period-0 task stays ready (the promise of the
   * comments at scheduler.rs:43, 175 and 240).
   */
  predicate BackgroundReady(t: Task)
  {
    t.period == 0 ==> t.ready
  }

  predicate SlotInvariant(slot: Option<Task>)
  {
    slot.Some? ==> BackgroundReady(slot.value)
  }

  predicate TableInvariant(slots: seq<Option<Task>>)
  {
    forall i :: 0 <= i < |slots| ==> SlotInvariant(slots[i])
  }

  // ---------------------------------------------------------------------------
  // Registration (`task_add`)
  // ---------------------------------------------------------------------------

  /** Index of the first empty slot, or None when every slot is occupied. */
  function FirstFree(slots: seq<Option<Task>>): (r: Option<nat>)
    ensures r.Some? ==> r.value < |slots| && slots[r.value].None?
    ensures r.Some? ==> forall j :: 0 <= j < r.value ==> slots[j].Some?
    ensures r.None? ==> forall j :: 0 <= j < |slots| ==> slots[j].Some?
  {
    if slots == [] then None
    else if slots[0].None? then Some(0)
    else match FirstFree(slots[1..])
      case None => None
      case Some(i) => Some(i + 1)
  }

  /** The first-free index is determined by its contract: an empty slot with only occupied slots before it. */
  lemma FirstFreeIs(slots: seq<Option<Task>>, i: nat)
    requires i < |slots| && slots[i].None?
    requires forall j :: 0 <= j < i ==> slots[j].Some?
    ensures FirstFree(slots) == Some(i)
  {
  }

  /** The table after registering `t`: it lands in the first empty slot, if any. */
  function AddTask(slots: seq<Option<Task>>, t: Task): seq<Option<Task>>
  {
    match FirstFree(slots)
    case None => slots
    case Some(i) => slots[i := Some(t)]
  }

  /**
   * Registration fills exactly one slot, the lowest empty one, and keeps every
   * registered task; on a full table it changes nothing.
   */
  lemma AddTaskEffect(slots: seq<Option<Task>>, t: Task)
    ensures |AddTask(slots, t)| == |slots|
    ensures forall j :: 0 <= j < |slots| && slots[j].Some? ==> AddTask(slots, t)[j] == slots[j]
    ensures (forall j :: 0 <= j < |slots| ==> slots[j].Some?) ==> AddTask(slots, t) == slots
    ensures forall j :: 0 <= j < |slots| && slots[j].None? ==>
              AddTask(slots, t)[j] == (if (forall k :: 0 <= k < j ==> slots[k].Some?) then Some(t) else None)
  {
    match FirstFree(slots)
    case None =>
    case Some(i) =>
      forall j | 0 <= j < |slots| && slots[j].None?
        ensures AddTask(slots, t)[j] == (if (forall k :: 0 <= k < j ==> slots[k].Some?) then Some(t) else None)
      {
        if j > i {
          assert !(forall k :: 0 <= k < j ==> slots[k].Some?) by { assert slots[i].None?; }
        }
      }
  }

  /** A freshly registered task satisfies the table invariant. */
  lemma NewTaskInvariant(action: ActionId, period: uint16)
    ensures BackgroundReady(NewTask(action, period))
    ensures NewTask(action, period).ready <==> period == 0
  {
  }

  lemma {:induction false} AddTaskKeepsInvariant(slots: seq<Option<Task>>, action: ActionId, period: uint16)
    requires TableInvariant(slots)
    ensures TableInvariant(AddTask(slots, NewTask(action, period)))
  {
    var t := NewTask(action, period);
    forall j | 0 <= j < |slots| ensures SlotInvariant(AddTask(slots, t)[j]) {
      AddTaskEffect(slots, t);
      assert SlotInvariant(slots[j]);
    }
  }

  // ---------------------------------------------------------------------------
  // The tick handler (`TIMER0_COMPA`)
  // ---------------------------------------------------------------------------

  /** The due test exactly as written: a plain unsigned comparison, not a wrap-aware one. */
  predicate Due(t: Task, now: uint16)
  {
    t.period > 0 && now >= t.nextRun
  }

  /** What one tick at time `now` does to a registered task. */
  function TickTask(t: Task, now: uint16): Task
  {
    if Due(t, now) then t.(ready := true, nextRun := WrappingAdd16(now, t.period)) else t
  }

  function TickSlot(slot: Option<Task>, now: uint16): Option<Task>
  {
    match slot
    case None => None
    case Some(t) => Some(TickTask(t, now))
  }

  /** The whole table after the scan of one tick at time `now`. */
  function TickAll(slots: seq<Option<Task>>, now: uint16): (r: seq<Option<Task>>)
    ensures |r| == |slots|
  {
    seq(|slots|, i requires 0 <= i < |slots| => TickSlot(slots[i], now))
  }

  /**
   * A tick only sets ready flags and advances next_run of due periodic tasks:
   * it never clears a ready flag, never changes an action or a period, never
   * fills or empties a slot, and leaves every task that is not due unchanged.
   */
  lemma TickEffect(slots: seq<Option<Task>>, now: uint16, i: nat)
    requires i < |slots|
    ensures TickAll(slots, now)[i].Some? <==> slots[i].Some?
    ensures slots[i].Some? ==>
      var t, t' := slots[i].value, TickAll(slots, now)[i].value;
      t'.action == t.action && t'.period == t.period &&
      (t.ready ==> t'.ready) &&
      (if t.period > 0 && now >= t.nextRun
       then t'.ready && t'.nextRun == (now + t.period) % 0x1_0000
       else t' == t)
  {
  }

  lemma TickKeepsInvariant(slots: seq<Option<Task>>, now: uint16)
    requires TableInvariant(slots)
    ensures TableInvariant(TickAll(slots, now))
  {
    forall i | 0 <= i < |slots| ensures SlotInvariant(TickAll(slots, now)[i]) {
      assert SlotInvariant(slots[i]);
    }
  }

  /** A new task is due exactly from the tick at which the clock reaches its period. */
  lemma NewTaskDue(action: ActionId, period: uint16, now: uint16)
    ensures Due(NewTask(action, period), now) <==> period > 0 && now >= period
  {
  }

  /** The task after `k` further ticks at `from + 1`, ..., `from + k`, before the clock wraps. */
  function TicksFrom(t: Task, from: uint16, k: nat): Task
    requires from + k < Modulus16
  {
    if k == 0 then t else TickTask(TicksFrom(t, from, k - 1), from + k)
  }

  /**
   * The consequence of the plain `>=` test. Once `now + period` has wrapped past
   * 65535, next_run lies below the clock, so the task is due again on the very
   * next tick, and on every tick after that until the clock itself wraps: it
   * fires at each tick `from + j` (next_run is recomputed from that tick)
   * instead of once per period.
   */
  lemma {:induction false} WrappedTaskFiresEveryTick(t: Task, from: uint16, k: nat)
    requires t.period > 0 && t.nextRun <= from + 1
    requires from + 1 + t.period >= Modulus16
    requires from + k < Modulus16
    ensures forall j :: 1 <= j <= k ==>
      var tj := TicksFrom(t, from, j);
      tj.ready && tj.nextRun == from + j + t.period - Modulus16
  {
    if k > 0 {
      WrappedTaskFiresEveryTick(t, from, k - 1);
      var prev := TicksFrom(t, from, k - 1);
      assert prev.period == t.period && prev.nextRun <= from + k by {
        if k > 1 {
          assert prev.nextRun == from + (k - 1) + t.period - Modulus16;
        }
        TicksFromKeepsPeriod(t, from, k - 1);
      }
      assert Due(prev, from + k);
    }
  }

  lemma {:induction false} TicksFromKeepsPeriod(t: Task, from: uint16, k: nat)
    requires from + k < Modulus16
    ensures TicksFrom(t, from, k).period == t.period
    ensures TicksFrom(t, from, k).action == t.action
  {
    if k > 0 {
      TicksFromKeepsPeriod(t, from, k - 1);
    }
  }

  // ---------------------------------------------------------------------------
  // The dispatcher (`scheduler_run`)
  // ---------------------------------------------------------------------------

  /** The action a slot contributes to the capture: its action if it holds a ready task. */
  function Captured(slot: Option<Task>): seq<ActionId>
  {
    if slot.Some? && slot.value.ready then [slot.value.action] else []
  }

  /** Actions of the ready slots, in slot order: the capture list of `scheduler_run`. */
  function ReadyActions(slots: seq<Option<Task>>): (ids: seq<ActionId>)
    ensures |ids| <= |slots|
  {
    if slots == [] then []
    else ReadyActions(slots[..|slots| - 1]) + Captured(slots[|slots| - 1])
  }

  /** The ready flag after capture: cleared for periodic tasks only. */
  function CaptureSlot(slot: Option<Task>): Option<Task>
  {
    match slot
    case None => None
    case Some(t) => if t.ready && t.period > 0 then Some(t.(ready := false)) else Some(t)
  }

  function CaptureAll(slots: seq<Option<Task>>): (r: seq<Option<Task>>)
    ensures |r| == |slots|
  {
    seq(|slots|, i requires 0 <= i < |slots| => CaptureSlot(slots[i]))
  }

  /**
   * After the capture phase every periodic task is not ready, every background
   * task keeps its ready flag, and actions, periods and next_run are unchanged.
   */
  lemma CaptureEffect(slots: seq<Option<Task>>, i: nat)
    requires i < |slots|
    ensures CaptureAll(slots)[i].Some? <==> slots[i].Some?
    ensures slots[i].Some? ==>
      var t, t' := slots[i].value, CaptureAll(slots)[i].value;
      t'.action == t.action && t'.period == t.period && t'.nextRun == t.nextRun &&
      (t.period > 0 ==> !t'.ready) && (t.period == 0 ==> t'.ready == t.ready)
  {
  }

  lemma CaptureKeepsInvariant(slots: seq<Option<Task>>)
    requires TableInvariant(slots)
    ensures TableInvariant(CaptureAll(slots))
  {
    forall i | 0 <= i < |slots| ensures SlotInvariant(CaptureAll(slots)[i]) {
      assert SlotInvariant(slots[i]);
    }
  }

  /** Scanning one more slot extends the capture list by that slot's contribution. */
  lemma ReadyActionsSnoc(slots: seq<Option<Task>>, i: nat)
    requires i < |slots|
    ensures ReadyActions(slots[..i + 1]) == ReadyActions(slots[..i]) + Captured(slots[i])
  {
    assert slots[..i + 1][..i] == slots[..i];
  }

  /** The capture list of a concatenation is the concatenation of the capture lists. */
  lemma {:induction false} ReadyActionsAppend(a: seq<Option<Task>>, b: seq<Option<Task>>)
    ensures ReadyActions(a + b) == ReadyActions(a) + ReadyActions(b)
    decreases |b|
  {
    if b == [] {
      assert a + b == a;
    } else {
      var b' := b[..|b| - 1];
      assert (a + b)[..|a + b| - 1] == a + b';
      ReadyActionsAppend(a, b');
    }
  }

  /**
   * A task is captured exactly when it is ready: the action of slot `i` appears
   * in the capture list, at the position given by the number of ready slots
   * before it, exactly when that slot holds a ready task.
   */
  lemma {:induction false} ReadyActionsAt(slots: seq<Option<Task>>, i: nat)
    requires i < |slots|
    requires slots[i].Some? && slots[i].value.ready
    ensures |ReadyActions(slots[..i])| < |ReadyActions(slots)|
    ensures ReadyActions(slots)[|ReadyActions(slots[..i])|] == slots[i].value.action
  {
    assert slots == slots[..i] + ([slots[i]] + slots[i + 1..]);
    ReadyActionsAppend(slots[..i], [slots[i]] + slots[i + 1..]);
    ReadyActionsAppend([slots[i]], slots[i + 1..]);
    assert ReadyActions([slots[i]]) == [slots[i].value.action] by {
      assert [slots[i]][..0] == [];
    }
  }

  /** A table with no ready task yields an empty capture list. */
  lemma {:induction false} NothingReadyNothingCaptured(slots: seq<Option<Task>>)
    requires forall i :: 0 <= i < |slots| ==> slots[i].None? || !slots[i].value.ready
    ensures ReadyActions(slots) == []
  {
    if slots != [] {
      NothingReadyNothingCaptured(slots[..|slots| - 1]);
    }
  }

  /** Empty slots after position `c` contribute nothing to the capture list. */
  lemma {:induction false} ReadyActionsIgnoresEmptyTail(slots: seq<Option<Task>>, c: nat)
    requires c <= |slots|
    requires forall j :: c <= j < |slots| ==> slots[j].None?
    ensures ReadyActions(slots[..c]) == ReadyActions(slots)
  {
    assert slots == slots[..c] + slots[c..];
    ReadyActionsAppend(slots[..c], slots[c..]);
    NothingReadyNothingCaptured(slots[c..]);
  }

  /**
   * No double dispatch: once captured, a periodic task is not captured again
   * until a tick makes it ready; only background tasks are captured again.
   */
  lemma {:induction false} RecaptureOnlyBackground(slots: seq<Option<Task>>, i: nat)
    requires i < |slots| && slots[i].Some?
    ensures CaptureAll(slots)[i].value.ready ==> slots[i].value.period == 0
  {
    CaptureEffect(slots, i);
  }

  /**
   * A registered background task is captured on every dispatch, whatever
   * ticks, registrations and captures happen in between, because each of
   * them preserves the table invariant.
   */
  lemma {:induction false} BackgroundAlwaysCaptured(slots: seq<Option<Task>>, i: nat)
    requires TableInvariant(slots)
    requires i < |slots| && slots[i].Some? && slots[i].value.period == 0
    ensures slots[i].value.action in ReadyActions(slots)
  {
    assert SlotInvariant(slots[i]);
    ReadyActionsAt(slots, i);
  }

  // ---------------------------------------------------------------------------
  // Delay (`delay`)
  // ---------------------------------------------------------------------------

  /** The exit condition of `delay(ms)`'s busy-wait, given its start snapshot. */
  predicate DelayDone(start: uint16, now: uint16, ms: uint16)
  {
    WrappingSub16(now, start) >= ms
  }

  /**
   * Wrap-safe delay: when the clock has advanced `k` ticks since the start
   * snapshot (fewer than a full turn of the 16-bit counter), the delay is over
   * exactly when `k >= ms`, even if the clock wrapped in between; `delay(0)`
   * returns at the first poll.
   */
  lemma DelayExact(start: uint16, k: uint16, ms: uint16)
    ensures DelayDone(start, WrappingAdd16(start, k), ms) <==> k >= ms
    ensures DelayDone(start, WrappingAdd16(start, k), 0)
  {
    SubUndoesAdd(start, k);
  }

  /**
   * The busy-wait of `delay(ms)` over the clock values its polls observe:
   * `samples[0]` is the start snapshot, and the loop re-reads the clock
   * (`samples[1]`, `samples[2]`, ...) until the elapsed time reaches `ms`.
   * Returns the index of the poll that ends the wait, or None when the
   * samples run out first.
   */
  method DelayPolls(ms: uint16, samples: seq<uint16>) returns (exit: Option<nat>)
    requires |samples| > 0
    ensures exit.Some? ==> 1 <= exit.value < |samples| && DelayDone(samples[0], samples[exit.value], ms)
    ensures exit.Some? ==> forall j :: 1 <= j < exit.value ==> !DelayDone(samples[0], samples[j], ms)
    ensures exit.None? ==> forall j :: 1 <= j < |samples| ==> !DelayDone(samples[0], samples[j], ms)
  {
    var start := samples[0];
    var i := 1;
    while i < |samples| && WrappingSub16(samples[i], start) < ms
      invariant 1 <= i <= |samples|
      invariant forall j :: 1 <= j < i ==> !DelayDone(start, samples[j], ms)
    {
      i := i + 1;
    }
    exit := if i < |samples| then Some(i) else None;
  }

  // ---------------------------------------------------------------------------
  // The shared state
  // ---------------------------------------------------------------------------

  /** `TASKS` and `SYSTEM_TIME`, guarded together by the critical section. */
  class TaskTable {
    var tasks: array<Option<Task>>
    var time: uint16

    /** Ten slots, every registered background task ready. */
    ghost predicate Valid()
      reads this, tasks
    {
      tasks.Length == TaskCapacity && TableInvariant(tasks[..])
    }

    /** The statics as initialised: every slot empty, the clock at 0. */
    constructor ()
      ensures Valid() && fresh(tasks)
      ensures tasks[..] == seq(TaskCapacity, _ => None) && time == 0
    {
      tasks := new Option<Task>[TaskCapacity](_ => None);
      time := 0;
    }

    /** `task_add`: store `Task::new(action, period)` in the first empty slot, if any. */
    method TaskAdd(action: ActionId, period: uint16)
      requires Valid()
      modifies tasks
      ensures Valid()
      ensures tasks[..] == AddTask(old(tasks[..]), NewTask(action, period))
    {
      AddTaskKeepsInvariant(tasks[..], action, period);
      for i := 0 to tasks.Length
        invariant forall j :: 0 <= j < i ==> tasks[j].Some?
        invariant tasks[..] == old(tasks[..])
      {
        if tasks[i].None? {
          tasks[i] := Some(NewTask(action, period));
          return;
        }
      }
    }

    /** `TIMER0_COMPA`: advance the clock with wraparound, then mark due periodic tasks ready. */
    method Tick()
      requires Valid()
      modifies this, tasks
      ensures Valid() && tasks == old(tasks)
      ensures time == WrappingAdd16(old(time), 1)
      ensures tasks[..] == TickAll(old(tasks[..]), time)
    {
      time := WrappingAdd16(time, 1);
      var now := time;
      TickKeepsInvariant(tasks[..], now);
      for i := 0 to tasks.Length
        invariant tasks.Length == TaskCapacity && tasks == old(tasks) && time == now
        invariant forall j :: 0 <= j < i ==> tasks[j] == TickSlot(old(tasks[j]), now)
        invariant forall j :: i <= j < tasks.Length ==> tasks[j] == old(tasks[j])
      {
        match tasks[i]
        case None =>
        case Some(t) =>
          if t.period > 0 && now >= t.nextRun {
            tasks[i] := Some(t.(ready := true, nextRun := WrappingAdd16(now, t.period)));
          }
      }
    }

    /** `get_system_time`: an atomic snapshot of the clock. */
    method GetSystemTime() returns (now: uint16)
      ensures now == time
    {
      now := time;
    }

    /**
     * The body of the capture loop for slot `i`: a ready task yields its
     * action, and loses its ready flag when it is periodic.
     */
    method CaptureAt(i: nat) returns (captured: Option<ActionId>)
      requires i < tasks.Length
      modifies tasks
      ensures tasks[..] == old(tasks[..])[i := CaptureSlot(old(tasks[i]))]
      ensures captured.Some? <==> Captured(old(tasks[i])) != []
      ensures captured.Some? ==> Captured(old(tasks[i])) == [captured.value]
    {
      captured := None;
      match tasks[i]
      case None =>
      case Some(t) =>
        if t.ready {
          captured := Some(t.action);
          if t.period > 0 {
            tasks[i] := Some(t.(ready := false));
          }
        }
    }

    /**
     * The capture phase of `scheduler_run`, inside the critical section: copy
     * the action of every ready slot into a fresh 10-entry `ready_tasks` array
     * in slot order, and clear the ready flag of periodic tasks. The count
     * never exceeds 10, so every write to `ready_tasks[count]` is in bounds.
     */
    method Capture() returns (readyTasks: array<Option<ActionId>>, count: nat)
      requires Valid()
      modifies tasks
      ensures Valid() && fresh(readyTasks) && readyTasks.Length == TaskCapacity
      ensures tasks[..] == CaptureAll(old(tasks[..]))
      ensures count == |ReadyActions(old(tasks[..]))| <= TaskCapacity
      ensures forall k :: 0 <= k < count ==> readyTasks[k] == Some(ReadyActions(old(tasks[..]))[k])
    {
      ghost var slots := tasks[..];
      CaptureKeepsInvariant(slots);
      readyTasks := new Option<ActionId>[TaskCapacity](_ => None);
      count := 0;
      for i := 0 to tasks.Length
        invariant count == |ReadyActions(slots[..i])| && count <= i
        invariant forall k :: 0 <= k < count ==> readyTasks[k] == Some(ReadyActions(slots[..i])[k])
        invariant forall j :: 0 <= j < i ==> tasks[j] == CaptureSlot(slots[j])
        invariant forall j :: i <= j < tasks.Length ==> tasks[j] == slots[j]
      {
        ReadyActionsSnoc(slots, i);
        var captured := CaptureAt(i);
        if captured.Some? {
          readyTasks[count] := captured;
          count := count + 1;
        }
      }
      assert slots[..tasks.Length] == slots;
      assert tasks[..] == CaptureAll(slots);
    }

    /**
     * `scheduler_run`: the capture phase, then, outside the critical section,
     * the captured actions in capture order are what the dispatcher invokes.
     * Because the table invariant holds, every registered background task is
     * among them on every dispatch.
     */
    method Run() returns (invoked: seq<ActionId>)
      requires Valid()
      modifies tasks
      ensures Valid()
      ensures tasks[..] == CaptureAll(old(tasks[..]))
      ensures invoked == ReadyActions(old(tasks[..]))
      ensures forall j :: 0 <= j < TaskCapacity && old(tasks[j]).Some? && old(tasks[j]).value.period == 0 ==>
                old(tasks[j]).value.action in invoked
    {
      forall j | 0 <= j < TaskCapacity && tasks[j].Some? && tasks[j].value.period == 0
        ensures tasks[j].value.action in ReadyActions(tasks[..])
      {
        BackgroundAlwaysCaptured(tasks[..], j);
      }
      var readyTasks, count := Capture();
      invoked := [];
      for i := 0 to count
        invariant invoked == ReadyActions(old(tasks[..]))[..i]
      {
        match readyTasks[i]
        case Some(action) =>
          invoked := invoked + [action];
        case None =>
      }
    }
  }
}
