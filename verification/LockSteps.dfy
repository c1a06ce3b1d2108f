// The lock controller as tasks of the firmware see it: every access to the
// shared context, to the actuator pin and to the auto-lock timer is one step, and
// the steps of any number of tasks interleave freely.
//
// Assumptions at the boundary: timer commands succeed and take effect at once, the
// period converts to at least one tick, and the clock never goes backwards.

module LockTypes {
  import opened Wrappers

  datatype Door = LOCKED | UNLOCKED | AUTHENTICATING

  datatype Reason = BUTTON | TIMEOUT | MQTT | VOICE | REBOOT | LOCKDOWN | SERIAL

  // What leaves the device. The lock controller itself only ever adds LockEvents.
  datatype Message =
    | LockEvent(door: Door, reason: Reason)
    | Status(text: string)
    | Disconnected
    | Restarted
    | Halted

  type Ticks = n: int | 0 < n witness 1

  // xTimerCreate has run or not; a created one-shot timer is dormant or due at a deadline.
  datatype Timer = Absent | Created(period: Ticks, deadline: Option<nat>)

  predicate Running(timer: Timer) {
    timer.Created? && timer.deadline.Some?
  }

  function Stop(timer: Timer): Timer {
    if timer.Created? then timer.(deadline := None) else timer
  }

  function Start(timer: Timer, clock: nat): Timer
    requires timer.Created?
  {
    timer.(deadline := Some(clock + timer.period))
  }

  function CountEvents(published: seq<Message>, door: Door): nat {
    if published == [] then 0
    else CountEvents(published[..|published| - 1], door)
         + (if published[|published| - 1].LockEvent? && published[|published| - 1].door == door then 1 else 0)
  }

  // The shared context, the pin and the timer as one uninterrupted call leaves them.
  datatype View = View(
    door: Door,
    actuator: bool,
    timer: Timer,
    published: seq<Message>,
    clock: nat,
    timeout: Ticks,
    unlockedAt: nat)

  predicate InStep(v: View) {
    (v.actuator <==> v.door == UNLOCKED) && (Running(v.timer) <==> v.door == UNLOCKED)
  }

  // A door that is not open yet opens and says so; open or not, the timer restarts.
  function AfterUnlock(v: View, reason: Reason): View {
    Restart(if v.door == UNLOCKED then v
            else v.(door := UNLOCKED, actuator := true, published := v.published + [LockEvent(UNLOCKED, reason)]))
  }

  function Restart(v: View): View {
    v.(timer := Start(if v.timer.Absent? then Created(v.timeout, None) else v.timer, v.clock), unlockedAt := v.clock)
  }

  // A door that is not closed yet closes and says so; closed or not, the timer stops.
  function AfterLock(v: View, reason: Reason): View {
    var stopped := v.(timer := Stop(v.timer));
    if v.door == LOCKED then stopped
    else stopped.(door := LOCKED, actuator := false, published := v.published + [LockEvent(LOCKED, reason)])
  }

  function AfterToggle(v: View, reason: Reason): View {
    if v.door == LOCKED then AfterUnlock(v, reason) else AfterLock(v, reason)
  }

  // Opening and then closing a door leaves it closed, with the pin low and the timer off;
  // closing and then opening it leaves it open, with the pin high and the timer running.
  lemma OpenAndClose(v: View, r: Reason, q: Reason)
    ensures var w := AfterLock(AfterUnlock(v, r), q);
      && w.door == LOCKED && !w.actuator && !Running(w.timer)
      && w.published == v.published + (if v.door == UNLOCKED then [] else [LockEvent(UNLOCKED, r)]) + [LockEvent(LOCKED, q)]
    ensures var w := AfterUnlock(AfterLock(v, r), q);
      w.door == UNLOCKED && w.actuator && w.timer.Created? && w.timer.deadline == Some(v.clock + w.timer.period)
  {
  }

  lemma CountAppend(published: seq<Message>, m: Message, door: Door)
    ensures CountEvents(published + [m], door)
         == CountEvents(published, door) + (if m.LockEvent? && m.door == door then 1 else 0)
  {
    assert (published + [m])[..|published|] == published;
  }
}

module LockSteps {
  import opened Wrappers
  import opened LockTypes

  // Where a task stands: the statement it executes next.
  datatype Pc =
    | Idle
    | ToggleRead
    | UnlockTake | UnlockTest | UnlockWrite | UnlockRaise | UnlockPublish | UnlockTimer | UnlockStart | UnlockGive
    | LockTake | LockTest | LockStopEarly | LockGiveEarly
    | LockWrite | LockGive | LockLower | LockStop | LockPublish

  datatype Task = Task(pc: Pc, reason: Reason)

  datatype Call = Unlock | Lock | Toggle

  // Task 0 is the timer service, which runs the expiry callback and nothing else.
  // `unlockedAt` is a history variable: the time of the last timer start.
  datatype State = State(
    tasks: seq<Task>,
    mutex: Option<nat>,
    door: Door,
    actuator: bool,
    timer: Timer,
    published: seq<Message>,
    clock: nat,
    timeout: Ticks,
    unlockedAt: nat)

  datatype Event =
    | Begin(task: nat, call: Call, reason: Reason)
    | Run(task: nat)
    | Expire
    | Tick
    | Configure(timeout: Ticks)

  function Init(n: nat, timeout: Ticks): State {
    State(seq(n + 1, _ => Task(Idle, TIMEOUT)), None, LOCKED, false, Absent, [], 0, timeout, 0)
  }

  predicate Critical(pc: Pc) {
    || pc.UnlockTest? || pc.UnlockWrite? || OwesStart(pc) || pc.UnlockGive?
    || pc.LockTest? || pc.LockStopEarly? || pc.LockGiveEarly? || pc.LockWrite? || pc.LockGive?
  }

  // Locks that have written LOCKED and still owe the pin, the timer or the broker something.
  predicate OwesLow(pc: Pc) { pc.LockGive? || pc.LockLower? }
  predicate OwesStop(pc: Pc) { OwesLow(pc) || pc.LockStop? }
  predicate LockUnpublished(pc: Pc) { OwesStop(pc) || pc.LockPublish? }

  // Unlocks that have written UNLOCKED and still owe the broker or the timer something.
  predicate UnlockUnpublished(pc: Pc) { pc.UnlockRaise? || pc.UnlockPublish? }
  predicate OwesStart(pc: Pc) { UnlockUnpublished(pc) || pc.UnlockTimer? || pc.UnlockStart? }

  predicate Raising(pc: Pc) { pc == UnlockRaise }

  // The expiry callback before it has written LOCKED.
  predicate CallbackInFlight(s: State) {
    |s.tasks| > 0 && var pc := s.tasks[0].pc; pc.LockTake? || pc.LockTest? || pc.LockWrite?
  }

  predicate Due(s: State) { Running(s.timer) && s.timer.deadline.value <= s.clock }

  predicate Quiescent(s: State) { forall t :: 0 <= t < |s.tasks| ==> s.tasks[t].pc == Idle }

  predicate Enabled(s: State, e: Event) {
    match e
    case Begin(t, _, _) => 0 < t < |s.tasks| && s.tasks[t].pc == Idle
    case Run(t) =>
      && t < |s.tasks| && s.tasks[t].pc != Idle
      && (s.tasks[t].pc.UnlockTake? || s.tasks[t].pc.LockTake? ==> s.mutex == None)
    case Expire => 0 < |s.tasks| && s.tasks[0].pc == Idle && Due(s)
    case Tick => true
    case Configure(_) => true
  }

  // Control flow of unlock_door, lock_door and toggle_door: the statement after `pc`.
  function NextPc(s: State, pc: Pc): Pc {
    match pc
    case Idle => Idle
    case ToggleRead => if s.door == LOCKED then UnlockTake else LockTake
    case UnlockTake => UnlockTest
    case UnlockTest => if s.door != UNLOCKED then UnlockWrite else UnlockTimer
    case UnlockWrite => UnlockRaise
    case UnlockRaise => UnlockPublish
    case UnlockPublish => UnlockTimer
    case UnlockTimer => UnlockStart
    case UnlockStart => UnlockGive
    case UnlockGive => Idle
    case LockTake => LockTest
    case LockTest => if s.door == LOCKED then LockStopEarly else LockWrite
    case LockStopEarly => LockGiveEarly
    case LockGiveEarly => Idle
    case LockWrite => LockGive
    case LockGive => LockLower
    case LockLower => LockStop
    case LockStop => LockPublish
    case LockPublish => Idle
  }

  // What the statement at `pc` of task `t` does to the shared state.
  function Effect(s: State, t: nat, pc: Pc, reason: Reason): State {
    match pc
    case UnlockTake => s.(mutex := Some(t))
    case UnlockWrite => s.(door := UNLOCKED)
    case UnlockRaise => s.(actuator := true)
    case UnlockPublish => s.(published := s.published + [LockEvent(UNLOCKED, reason)])
    case UnlockTimer => s.(timer := if s.timer.Absent? then Created(s.timeout, None) else Stop(s.timer))
    case UnlockStart =>
      s.(timer := if s.timer.Created? then Start(s.timer, s.clock) else s.timer, unlockedAt := s.clock)
    case UnlockGive => s.(mutex := None)
    case LockTake => s.(mutex := Some(t))
    case LockStopEarly => s.(timer := Stop(s.timer))
    case LockGiveEarly => s.(mutex := None)
    case LockWrite => s.(door := LOCKED)
    case LockGive => s.(mutex := None)
    case LockLower => s.(actuator := false)
    case LockStop => s.(timer := Stop(s.timer))
    case LockPublish => s.(published := s.published + [LockEvent(LOCKED, reason)])
    case _ => s
  }

  function Apply(s: State, e: Event): State
    requires Enabled(s, e)
  {
    match e
    case Begin(t, call, reason) =>
      s.(tasks := s.tasks[t := Task(match call case Unlock => UnlockTake case Lock => LockTake case Toggle => ToggleRead,
                                    reason)])
    case Run(t) => RunTask(s, t)
    case Expire => s.(timer := Stop(s.timer), tasks := s.tasks[0 := Task(LockTake, TIMEOUT)])
    case Tick => s.(clock := s.clock + 1)
    case Configure(timeout) => s.(timeout := timeout)
  }

  function RunTask(s: State, t: nat): State
    requires Enabled(s, Run(t))
  {
    var Task(pc, reason) := s.tasks[t];
    Effect(s, t, pc, reason).(tasks := s.tasks[t := Task(NextPc(s, pc), reason)])
  }

  // Runs: `es` can be executed from `s`, and where it leads.
  predicate CanRun(s: State, es: seq<Event>)
    decreases |es|, 0
  {
    es == [] || (CanRun(s, es[..|es| - 1]) && Enabled(After(s, es[..|es| - 1]), es[|es| - 1]))
  }

  function After(s: State, es: seq<Event>): State
    requires CanRun(s, es)
    decreases |es|, 1
  {
    if es == [] then s else Apply(After(s, es[..|es| - 1]), es[|es| - 1])
  }

  // How many tasks stand at a statement of the given kind.
  function Count(tasks: seq<Task>, p: Pc -> bool): nat {
    if tasks == [] then 0 else Count(tasks[..|tasks| - 1], p) + (if p(tasks[|tasks| - 1].pc) then 1 else 0)
  }

  lemma {:induction false} CountUpdate(tasks: seq<Task>, t: nat, task: Task, p: Pc -> bool)
    requires t < |tasks|
    ensures Count(tasks[t := task], p)
         == Count(tasks, p) - (if p(tasks[t].pc) then 1 else 0) + (if p(task.pc) then 1 else 0)
  {
    var last := |tasks| - 1;
    if t == last {
      assert tasks[t := task][..last] == tasks[..last];
    } else {
      assert tasks[t := task][..last] == tasks[..last][t := task];
      CountUpdate(tasks[..last], t, task, p);
    }
  }

  lemma {:induction false} CountZero(tasks: seq<Task>, p: Pc -> bool)
    requires forall t :: 0 <= t < |tasks| ==> !p(tasks[t].pc)
    ensures Count(tasks, p) == 0
  {
    if tasks != [] { CountZero(tasks[..|tasks| - 1], p); }
  }

  // Statements left in the longest way through a call.
  function Remaining(pc: Pc): nat {
    match pc
    case Idle => 0
    case ToggleRead => 9
    case UnlockTake => 8 case UnlockTest => 7 case UnlockWrite => 6 case UnlockRaise => 5 case UnlockPublish => 4
    case UnlockTimer => 3 case UnlockStart => 2 case UnlockGive => 1
    case LockTake => 7 case LockTest => 6 case LockWrite => 5 case LockGive => 4 case LockLower => 3 case LockStop => 2
    case LockPublish => 1
    case LockStopEarly => 2 case LockGiveEarly => 1
  }

  function Shared(s: State): View {
    View(s.door, s.actuator, s.timer, s.published, s.clock, s.timeout, s.unlockedAt)
  }

  // ---- Mutual exclusion and what each statement knows about the door ----

  predicate Knows(pc: Pc, s: State) {
    && (pc == UnlockWrite || pc == LockStopEarly || pc == LockGiveEarly || pc == LockGive ==> s.door == LOCKED)
    && (OwesStart(pc) || pc == UnlockGive || pc == LockWrite ==> s.door == UNLOCKED)
    && (pc == UnlockStart || pc == UnlockGive ==> s.timer.Created?)
  }

  predicate Exclusion(s: State) {
    && |s.tasks| > 0
    && s.door != AUTHENTICATING
    && (s.mutex.Some? ==> s.mutex.value < |s.tasks|)
    && (forall t :: 0 <= t < |s.tasks| ==> (Critical(s.tasks[t].pc) <==> s.mutex == Some(t)))
    && (forall t :: 0 <= t < |s.tasks| ==> Knows(s.tasks[t].pc, s))
  }

  ghost predicate Somewhere(s: State, p: Pc -> bool) {
    exists t :: 0 <= t < |s.tasks| && p(s.tasks[t].pc)
  }

  // A high actuator means an open door, or a lock on its way to lowering the pin; a
  // running timer means an open door, or a lock on its way to stopping it.
  ghost predicate NeverOpenByMistake(s: State) { NeverHighByMistake(s) && NeverRunningByMistake(s) }

  ghost predicate NeverHighByMistake(s: State) {
    s.actuator ==> s.door == UNLOCKED || Somewhere(s, OwesLow)
  }

  ghost predicate NeverRunningByMistake(s: State) {
    Running(s.timer) ==> s.door == UNLOCKED || Somewhere(s, OwesStop)
  }

  predicate Balanced(s: State) {
    CountEvents(s.published, UNLOCKED) + Count(s.tasks, UnlockUnpublished)
    == CountEvents(s.published, LOCKED) + Count(s.tasks, LockUnpublished) + (if s.door == UNLOCKED then 1 else 0)
  }

  ghost predicate Safe(s: State) {
    Exclusion(s) && NeverOpenByMistake(s) && Balanced(s)
  }

  // What one statement does to its own task and to the shared state.
  lemma RunEffect(s: State, t: nat)
    requires Exclusion(s) && Enabled(s, Run(t))
    ensures var s' := RunTask(s, t); var pc' := s'.tasks[t].pc;
      && s'.tasks == s.tasks[t := s.tasks[t].(pc := pc')]
      && s'.mutex == (if Critical(pc') then Some(t) else if Critical(s.tasks[t].pc) then None else s.mutex)
      && (!Critical(s.tasks[t].pc) ==> s'.door == s.door)
      && (s.timer.Created? ==> s'.timer.Created?)
      && s'.door != AUTHENTICATING
      && Knows(pc', s')
      && Remaining(pc') < Remaining(s.tasks[t].pc) <= 9
  {
    assert Knows(s.tasks[t].pc, s);
    assert Critical(s.tasks[t].pc) <==> s.mutex == Some(t);
  }

  lemma StepExclusion(s: State, e: Event)
    requires Exclusion(s) && Enabled(s, e)
    ensures Exclusion(Apply(s, e))
  {
    var s' := Apply(s, e);
    if e.Run? { RunEffect(s, e.task); }
    forall t | 0 <= t < |s'.tasks|
      ensures (Critical(s'.tasks[t].pc) <==> s'.mutex == Some(t)) && Knows(s'.tasks[t].pc, s')
    {
      assert Critical(s.tasks[t].pc) <==> s.mutex == Some(t);
      assert Knows(s.tasks[t].pc, s);
    }
  }

  lemma Elsewhere(s: State, e: Event, p: Pc -> bool, t: nat)
    requires Enabled(s, e) && t < |s.tasks| && p(s.tasks[t].pc)
    requires e == Run(t) || (e.Begin? && e.task == t) || (e.Expire? && t == 0) ==> p(Apply(s, e).tasks[t].pc)
    ensures Somewhere(Apply(s, e), p)
  {
    assert p(Apply(s, e).tasks[t].pc);
  }

  lemma StepNeverHigh(s: State, e: Event)
    requires NeverHighByMistake(s) && Enabled(s, e) && s.door != AUTHENTICATING
    requires e.Run? ==> Knows(s.tasks[e.task].pc, s)
    ensures NeverHighByMistake(Apply(s, e))
  {
    var s' := Apply(s, e);
    if s'.actuator && s'.door != UNLOCKED {
      if e.Run? && s.tasks[e.task].pc == LockWrite {
        assert OwesLow(s'.tasks[e.task].pc);
      } else {
        var t :| 0 <= t < |s.tasks| && OwesLow(s.tasks[t].pc);
        Elsewhere(s, e, OwesLow, t);
      }
    }
  }

  lemma StepNeverRunning(s: State, e: Event)
    requires NeverRunningByMistake(s) && Enabled(s, e) && s.door != AUTHENTICATING
    requires e.Run? ==> Knows(s.tasks[e.task].pc, s)
    ensures NeverRunningByMistake(Apply(s, e))
  {
    var s' := Apply(s, e);
    if Running(s'.timer) && s'.door != UNLOCKED {
      if e.Run? && s.tasks[e.task].pc == LockWrite {
        assert OwesStop(s'.tasks[e.task].pc);
      } else {
        var t :| 0 <= t < |s.tasks| && OwesStop(s.tasks[t].pc);
        Elsewhere(s, e, OwesStop, t);
      }
    }
  }

  lemma StepNeverOpenByMistake(s: State, e: Event)
    requires Exclusion(s) && NeverOpenByMistake(s) && Enabled(s, e)
    ensures NeverOpenByMistake(Apply(s, e))
  {
    StepNeverHigh(s, e);
    StepNeverRunning(s, e);
  }

  function Weight(b: bool): int { if b then 1 else 0 }

  // UNLOCKED publications minus LOCKED ones, less one for an open door.
  function Surplus(s: State): int {
    CountEvents(s.published, UNLOCKED) - CountEvents(s.published, LOCKED) - Weight(s.door == UNLOCKED)
  }

  lemma EffectPublished(s: State, t: nat, pc: Pc, reason: Reason, door: Door)
    requires door == UNLOCKED || door == LOCKED
    ensures CountEvents(Effect(s, t, pc, reason).published, door) == CountEvents(s.published, door)
         + Weight(if door == UNLOCKED then pc == UnlockPublish else pc == LockPublish)
  {
    if pc == UnlockPublish {
      CountAppend(s.published, LockEvent(UNLOCKED, reason), door);
    } else if pc == LockPublish {
      CountAppend(s.published, LockEvent(LOCKED, reason), door);
    }
  }

  // A write to the state puts a publication in debt, and the publication settles it.
  lemma EffectDebt(s: State, t: nat, pc: Pc, reason: Reason)
    requires Knows(pc, s)
    ensures Weight(Effect(s, t, pc, reason).door == UNLOCKED) - Weight(s.door == UNLOCKED)
         == Weight(pc == UnlockPublish) + Weight(UnlockUnpublished(NextPc(s, pc))) - Weight(UnlockUnpublished(pc))
            - Weight(pc == LockPublish) - Weight(LockUnpublished(NextPc(s, pc))) + Weight(LockUnpublished(pc))
  {
  }

  lemma EffectSurplus(s: State, t: nat, pc: Pc, reason: Reason)
    requires Knows(pc, s)
    ensures Surplus(Effect(s, t, pc, reason))
            + Weight(UnlockUnpublished(NextPc(s, pc))) - Weight(LockUnpublished(NextPc(s, pc)))
         == Surplus(s) + Weight(UnlockUnpublished(pc)) - Weight(LockUnpublished(pc))
  {
    EffectPublished(s, t, pc, reason, UNLOCKED);
    EffectPublished(s, t, pc, reason, LOCKED);
    EffectDebt(s, t, pc, reason);
  }

  // Moving one task from `pc` to `pc'` keeps the balance if the surplus makes up for it.
  lemma MoveBalanced(s: State, s': State, t: nat)
    requires Balanced(s) && t < |s.tasks| && |s'.tasks| == |s.tasks| && s'.tasks == s.tasks[t := s'.tasks[t]]
    requires var pc, pc' := s.tasks[t].pc, s'.tasks[t].pc;
      Surplus(s') + Weight(UnlockUnpublished(pc')) - Weight(LockUnpublished(pc'))
      == Surplus(s) + Weight(UnlockUnpublished(pc)) - Weight(LockUnpublished(pc))
    ensures Balanced(s')
  {
    CountUpdate(s.tasks, t, s'.tasks[t], UnlockUnpublished);
    CountUpdate(s.tasks, t, s'.tasks[t], LockUnpublished);
  }

  lemma RunBalanced(s: State, t: nat)
    requires Balanced(s) && Enabled(s, Run(t)) && Knows(s.tasks[t].pc, s)
    ensures Balanced(RunTask(s, t))
  {
    EffectSurplus(s, t, s.tasks[t].pc, s.tasks[t].reason);
    MoveBalanced(s, RunTask(s, t), t);
  }

  // A call or an expiry begins.
  lemma StartBalanced(s: State, s': State, t: nat)
    requires Balanced(s) && t < |s.tasks| && |s'.tasks| == |s.tasks| && s'.tasks == s.tasks[t := s'.tasks[t]]
    requires s'.published == s.published && s'.door == s.door
    requires !UnlockUnpublished(s.tasks[t].pc) && !LockUnpublished(s.tasks[t].pc)
    requires !UnlockUnpublished(s'.tasks[t].pc) && !LockUnpublished(s'.tasks[t].pc)
    ensures Balanced(s')
  {
    MoveBalanced(s, s', t);
  }

  lemma StepBalanced(s: State, e: Event)
    requires Exclusion(s) && Balanced(s) && Enabled(s, e)
    ensures Balanced(Apply(s, e))
  {
    match e
    case Run(t) => RunBalanced(s, t);
    case Begin(t, _, _) => StartBalanced(s, Apply(s, e), t);
    case Expire => StartBalanced(s, Apply(s, e), 0);
    case _ =>
  }

  // Every interleaving of every number of tasks is safe.
  lemma {:induction false} AlwaysSafe(n: nat, timeout: Ticks, es: seq<Event>)
    requires CanRun(Init(n, timeout), es)
    ensures Safe(After(Init(n, timeout), es))
  {
    var s0 := Init(n, timeout);
    if es == [] {
      CountZero(s0.tasks, UnlockUnpublished);
      CountZero(s0.tasks, LockUnpublished);
    } else {
      var es' := es[..|es| - 1];
      AlwaysSafe(n, timeout, es');
      StepExclusion(After(s0, es'), es[|es| - 1]);
      StepNeverOpenByMistake(After(s0, es'), es[|es| - 1]);
      StepBalanced(After(s0, es'), es[|es| - 1]);
    }
  }

  // With no call in progress, the two kinds of publication differ by exactly the state.
  lemma QuiescentPublications(s: State)
    requires Balanced(s) && Quiescent(s)
    ensures CountEvents(s.published, UNLOCKED)
         == CountEvents(s.published, LOCKED) + (if s.door == UNLOCKED then 1 else 0)
  {
    CountZero(s.tasks, UnlockUnpublished);
    CountZero(s.tasks, LockUnpublished);
  }

  // ---- No deadlock, and every call is short ----

  // Some task can always move while a call is in progress, and moving shortens its call.
  lemma DeadlockFree(s: State)
    requires Exclusion(s) && !Quiescent(s)
    ensures exists t: nat :: Enabled(s, Run(t)) && Remaining(RunTask(s, t).tasks[t].pc) < Remaining(s.tasks[t].pc) <= 9
  {
    var u :| 0 <= u < |s.tasks| && s.tasks[u].pc != Idle;
    var t := if s.mutex.Some? then s.mutex.value else u;
    assert Enabled(s, Run(t));
    RunEffect(s, t);
  }

  // ---- The strong invariant, and exactly which step can break it ----

  // The actuator follows an open door except while an unlock is about to raise it, and
  // the timer covers an open door except while an unlock is about to start it or the
  // expiry callback is about to close the door.
  ghost predicate PinCovered(s: State) {
    s.door == UNLOCKED && !Somewhere(s, Raising) ==> s.actuator
  }

  ghost predicate TimerCovered(s: State) {
    s.door == UNLOCKED && !Somewhere(s, OwesStart) && !CallbackInFlight(s) ==> Running(s.timer)
  }

  ghost predicate Covered(s: State) { PinCovered(s) && TimerCovered(s) }

  // A lock that released the mutex earlier now undoes what a later unlock did.
  ghost predicate LateLow(s: State, e: Event) {
    && e.Run? && e.task < |s.tasks| && s.door == UNLOCKED
    && s.tasks[e.task].pc.LockLower? && !Somewhere(s, Raising)
  }

  ghost predicate LateStop(s: State, e: Event) {
    && e.Run? && e.task < |s.tasks| && s.door == UNLOCKED
    && s.tasks[e.task].pc.LockStop? && !Somewhere(s, OwesStart) && !CallbackInFlight(s)
  }

  ghost predicate LateUndo(s: State, e: Event) { LateLow(s, e) || LateStop(s, e) }

  ghost predicate Strong(s: State) {
    Exclusion(s) && NeverOpenByMistake(s) && Covered(s)
  }

  lemma HolderStands(s: State, p: Pc -> bool)
    requires Exclusion(s)
    requires forall pc :: p(pc) ==> Critical(pc)
    ensures Somewhere(s, p) <==> s.mutex.Some? && p(s.tasks[s.mutex.value].pc)
  {
  }

  predicate HolderIs(s: State, p: Pc -> bool) {
    s.mutex.Some? && s.mutex.value < |s.tasks| && p(s.tasks[s.mutex.value].pc)
  }

  // What exclusion says about a moving task.
  predicate Moves(s: State, t: nat) {
    Enabled(s, Run(t)) && Knows(s.tasks[t].pc, s) && (Critical(s.tasks[t].pc) <==> s.mutex == Some(t))
  }

  lemma RunPin(s: State, t: nat)
    requires Moves(s, t)
    requires s.door == UNLOCKED && !HolderIs(s, Raising) ==> s.actuator
    ensures var s' := RunTask(s, t);
      (s'.door == UNLOCKED && !HolderIs(s', Raising) ==> s'.actuator)
      <==> !(s.door == UNLOCKED && s.tasks[t].pc.LockLower? && !HolderIs(s, Raising))
  {
  }

  lemma RunTimer(s: State, t: nat)
    requires Moves(s, t)
    requires s.door == UNLOCKED && !HolderIs(s, OwesStart) && !CallbackInFlight(s) ==> Running(s.timer)
    ensures var s' := RunTask(s, t);
      (s'.door == UNLOCKED && !HolderIs(s', OwesStart) && !CallbackInFlight(s') ==> Running(s'.timer))
      <==> !(s.door == UNLOCKED && s.tasks[t].pc.LockStop? && !HolderIs(s, OwesStart) && !CallbackInFlight(s))
  {
  }

  lemma StepPinCovered(s: State, e: Event)
    requires Exclusion(s) && PinCovered(s) && Enabled(s, e)
    ensures PinCovered(Apply(s, e)) <==> !LateLow(s, e)
  {
    StepExclusion(s, e);
    HolderStands(s, Raising);
    HolderStands(Apply(s, e), Raising);
    if e.Run? { RunPin(s, e.task); }
  }

  lemma StepTimerCovered(s: State, e: Event)
    requires Exclusion(s) && TimerCovered(s) && Enabled(s, e)
    ensures TimerCovered(Apply(s, e)) <==> !LateStop(s, e)
  {
    StepExclusion(s, e);
    HolderStands(s, OwesStart);
    HolderStands(Apply(s, e), OwesStart);
    if e.Run? { RunTimer(s, e.task); }
  }

  lemma StrongUntilLateUndo(s: State, e: Event)
    requires Strong(s) && Enabled(s, e)
    ensures Strong(Apply(s, e)) <==> !LateUndo(s, e)
  {
    StepExclusion(s, e);
    StepNeverOpenByMistake(s, e);
    StepPinCovered(s, e);
    StepTimerCovered(s, e);
  }

  ghost predicate FreeOfLateUndo(s: State, es: seq<Event>)
    requires CanRun(s, es)
  {
    es == [] || (&& FreeOfLateUndo(s, es[..|es| - 1])
                 && !LateUndo(After(s, es[..|es| - 1]), es[|es| - 1]))
  }

  lemma {:induction false} StrongRuns(n: nat, timeout: Ticks, es: seq<Event>)
    requires CanRun(Init(n, timeout), es) && FreeOfLateUndo(Init(n, timeout), es)
    ensures Strong(After(Init(n, timeout), es))
    ensures Quiescent(After(Init(n, timeout), es)) ==> InStep(Shared(After(Init(n, timeout), es)))
  {
    if es != [] {
      StrongRuns(n, timeout, es[..|es| - 1]);
      StrongUntilLateUndo(After(Init(n, timeout), es[..|es| - 1]), es[|es| - 1]);
    }
  }

  // ---- Serialised calls ----

  // A call or an expiry starts only when no other call is in progress.
  predicate SerialStep(s: State, e: Event) {
    e.Begin? || e.Expire? ==> Quiescent(s)
  }

  predicate SerialRun(s: State, es: seq<Event>)
    requires CanRun(s, es)
  {
    es == [] || (SerialRun(s, es[..|es| - 1]) && SerialStep(After(s, es[..|es| - 1]), es[|es| - 1]))
  }

  predicate OneAtATime(s: State) {
    && Exclusion(s)
    && (forall t, u :: 0 <= t < u < |s.tasks| ==> s.tasks[t].pc == Idle || s.tasks[u].pc == Idle)
    && (forall t :: 0 <= t < |s.tasks| && LockUnpublished(s.tasks[t].pc) ==> s.door == LOCKED)
  }

  lemma RunOneAtATime(s: State, t: nat)
    requires OneAtATime(s) && Enabled(s, Run(t))
    ensures OneAtATime(RunTask(s, t)) && !LateUndo(s, Run(t))
  {
    StepExclusion(s, Run(t));
    RunEffect(s, t);
    assert LockUnpublished(s.tasks[t].pc) ==> s.door == LOCKED;
  }

  lemma StepOneAtATime(s: State, e: Event)
    requires OneAtATime(s) && Enabled(s, e) && SerialStep(s, e)
    ensures OneAtATime(Apply(s, e)) && !LateUndo(s, e)
  {
    if e.Run? {
      RunOneAtATime(s, e.task);
    } else {
      StepExclusion(s, e);
    }
  }

  lemma {:induction false} SerialRuns(n: nat, timeout: Ticks, es: seq<Event>)
    requires CanRun(Init(n, timeout), es) && SerialRun(Init(n, timeout), es)
    ensures OneAtATime(After(Init(n, timeout), es)) && Strong(After(Init(n, timeout), es))
    ensures Quiescent(After(Init(n, timeout), es)) ==> InStep(Shared(After(Init(n, timeout), es)))
  {
    if es != [] {
      var s := After(Init(n, timeout), es[..|es| - 1]);
      SerialRuns(n, timeout, es[..|es| - 1]);
      StepOneAtATime(s, es[|es| - 1]);
      StrongUntilLateUndo(s, es[|es| - 1]);
    }
  }

  // ---- Time ----

  // The timer service gets to a due expiry before the clock moves on. Nothing else is
  // asked of the clock: it may move in the middle of any call.
  predicate TimelyStep(s: State, e: Event) { e.Tick? ==> !Due(s) }

  predicate TimelyRun(s: State, es: seq<Event>)
    requires CanRun(s, es)
  {
    es == [] || (TimelyRun(s, es[..|es| - 1]) && TimelyStep(After(s, es[..|es| - 1]), es[|es| - 1]))
  }

  predicate OnTime(s: State) {
    Running(s.timer) ==> s.timer.deadline.value == s.unlockedAt + s.timer.period && s.clock <= s.timer.deadline.value
  }

  lemma StepOnTime(s: State, e: Event)
    requires OnTime(s) && Enabled(s, e)
    ensures OnTime(Apply(s, e)) <==> TimelyStep(s, e)
  {
  }

  lemma {:induction false} TimelyRuns(n: nat, timeout: Ticks, es: seq<Event>)
    requires CanRun(Init(n, timeout), es) && TimelyRun(Init(n, timeout), es)
    ensures OnTime(After(Init(n, timeout), es))
  {
    if es != [] {
      var s, e := After(Init(n, timeout), es[..|es| - 1]), es[|es| - 1];
      TimelyRuns(n, timeout, es[..|es| - 1]);
      StepOnTime(s, e);
    }
  }

  // An open door is within one period of the last timer start, unless an unlock is still
  // to start the timer or the expiry callback is about to close the door.
  ghost predicate OpenInTime(s: State) {
    s.door == UNLOCKED && !Somewhere(s, OwesStart) && !CallbackInFlight(s)
    ==> s.timer.Created? && s.clock <= s.unlockedAt + s.timer.period
  }

  // Auto-lock in every timed interleaving without an overtaken lock, at every moment.
  lemma AutoLockInterleaved(n: nat, timeout: Ticks, es: seq<Event>)
    requires CanRun(Init(n, timeout), es) && TimelyRun(Init(n, timeout), es) && FreeOfLateUndo(Init(n, timeout), es)
    ensures OpenInTime(After(Init(n, timeout), es))
  {
    TimelyRuns(n, timeout, es);
    StrongRuns(n, timeout, es);
  }

  // Auto-lock when calls are serialised: at every moment, and without exception when no
  // call is in progress.
  lemma AutoLock(n: nat, timeout: Ticks, es: seq<Event>)
    requires CanRun(Init(n, timeout), es) && TimelyRun(Init(n, timeout), es) && SerialRun(Init(n, timeout), es)
    ensures var s := After(Init(n, timeout), es);
      && OpenInTime(s)
      && (Quiescent(s) ==>
            && InStep(Shared(s))
            && (s.door == UNLOCKED ==> s.timer.Created? && s.clock <= s.unlockedAt + s.timer.period))
  {
    TimelyRuns(n, timeout, es);
    SerialRuns(n, timeout, es);
  }

  lemma StepPeriod(s: State, e: Event)
    requires Enabled(s, e)
    ensures s.timer.Created? ==> Apply(s, e).timer.Created? && Apply(s, e).timer.period == s.timer.period
    ensures s.timer.Absent? && Apply(s, e).timer.Created? ==> Apply(s, e).timer.period == s.timeout
  {
  }

  // The period is read once, when the first unlock of the boot creates the timer.
  lemma {:induction false} PeriodFixed(s: State, es: seq<Event>, k: nat)
    requires CanRun(s, es) && k < |es| && CanRun(s, es[..k]) && CanRun(s, es[..k + 1])
    requires After(s, es[..k]).timer.Absent? && After(s, es[..k + 1]).timer.Created?
    ensures After(s, es).timer.Created? && After(s, es).timer.period == After(s, es[..k]).timeout
  {
    var es' := es[..|es| - 1];
    StepPeriod(After(s, es'), es[|es| - 1]);
    if k + 1 == |es| {
      assert es[..k + 1] == es;
    } else {
      assert es'[..k] == es[..k] && es'[..k + 1] == es[..k + 1];
      PeriodFixed(s, es', k);
    }
  }

  // ---- One task running alone refines the uninterrupted call ----

  ghost function Alone(s: State, t: nat): (after: State)
    requires Exclusion(s) && t < |s.tasks| && (s.mutex == None || s.mutex == Some(t))
    ensures Exclusion(after)
    decreases Remaining(s.tasks[t].pc)
  {
    if s.tasks[t].pc == Idle then s
    else
      RunEffect(s, t);
      StepExclusion(s, Run(t));
      Alone(RunTask(s, t), t)
  }

  // `after` is `s` with task `t` done and the shared state replaced by `v`.
  ghost predicate Done(s: State, t: nat, after: State, v: View)
    requires t < |s.tasks|
  {
    && after.mutex == None && Shared(after) == v
    && |after.tasks| == |s.tasks| && after.tasks[t].pc == Idle
    && forall u :: 0 <= u < |s.tasks| && u != t ==> after.tasks[u] == s.tasks[u]
  }

  // What is left of the uninterrupted operation at each statement.
  function Rest(v: View, pc: Pc, reason: Reason): View {
    match pc
    case ToggleRead => AfterToggle(v, reason)
    case UnlockTake => AfterUnlock(v, reason)
    case UnlockTest => AfterUnlock(v, reason)
    case UnlockWrite => Restart(v.(door := UNLOCKED, actuator := true,
                                   published := v.published + [LockEvent(UNLOCKED, reason)]))
    case UnlockRaise => Restart(v.(actuator := true, published := v.published + [LockEvent(UNLOCKED, reason)]))
    case UnlockPublish => Restart(v.(published := v.published + [LockEvent(UNLOCKED, reason)]))
    case UnlockTimer => Restart(v)
    case UnlockStart => Restart(v)
    case LockTake => AfterLock(v, reason)
    case LockTest => AfterLock(v, reason)
    case LockStopEarly => v.(timer := Stop(v.timer))
    case LockWrite => v.(door := LOCKED, actuator := false, timer := Stop(v.timer),
                         published := v.published + [LockEvent(LOCKED, reason)])
    case LockGive => v.(actuator := false, timer := Stop(v.timer),
                        published := v.published + [LockEvent(LOCKED, reason)])
    case LockLower => v.(actuator := false, timer := Stop(v.timer),
                         published := v.published + [LockEvent(LOCKED, reason)])
    case LockStop => v.(timer := Stop(v.timer), published := v.published + [LockEvent(LOCKED, reason)])
    case LockPublish => v.(published := v.published + [LockEvent(LOCKED, reason)])
    case _ => v
  }

  predicate Locking(pc: Pc) {
    pc.LockTake? || pc.LockTest? || pc.LockStopEarly? || pc.LockGiveEarly? || pc.LockWrite? || LockUnpublished(pc)
  }

  lemma EffectRestLocking(s: State, t: nat, pc: Pc, reason: Reason)
    requires Knows(pc, s) && Locking(pc)
    ensures Rest(Shared(Effect(s, t, pc, reason)), NextPc(s, pc), reason) == Rest(Shared(s), pc, reason)
  {
  }

  predicate Early(pc: Pc) { pc.ToggleRead? || pc.UnlockTake? || pc.UnlockTest? || pc.UnlockWrite? || pc.UnlockRaise? || pc.UnlockPublish? }

  lemma EffectRestEarly(s: State, t: nat, pc: Pc, reason: Reason)
    requires Knows(pc, s) && Early(pc)
    ensures Rest(Shared(Effect(s, t, pc, reason)), NextPc(s, pc), reason) == Rest(Shared(s), pc, reason)
  {
  }

  lemma EffectRestTimer(s: State, t: nat, reason: Reason)
    requires Knows(UnlockTimer, s)
    ensures Rest(Shared(Effect(s, t, UnlockTimer, reason)), UnlockStart, reason) == Rest(Shared(s), UnlockTimer, reason)
  {
  }

  lemma EffectRestStart(s: State, t: nat, reason: Reason)
    requires Knows(UnlockStart, s)
    ensures Rest(Shared(Effect(s, t, UnlockStart, reason)), UnlockGive, reason) == Rest(Shared(s), UnlockStart, reason)
  {
  }

  lemma EffectRestUnlocking(s: State, t: nat, pc: Pc, reason: Reason)
    requires Knows(pc, s) && !Locking(pc) && !Early(pc)
    ensures Rest(Shared(Effect(s, t, pc, reason)), NextPc(s, pc), reason) == Rest(Shared(s), pc, reason)
  {
    if pc.UnlockTimer? {
      EffectRestTimer(s, t, reason);
    } else if pc.UnlockStart? {
      EffectRestStart(s, t, reason);
    }
  }

  lemma EffectRest(s: State, t: nat, pc: Pc, reason: Reason)
    requires Knows(pc, s)
    ensures Rest(Shared(Effect(s, t, pc, reason)), NextPc(s, pc), reason) == Rest(Shared(s), pc, reason)
  {
    if Locking(pc) {
      EffectRestLocking(s, t, pc, reason);
    } else if Early(pc) {
      EffectRestEarly(s, t, pc, reason);
    } else {
      EffectRestUnlocking(s, t, pc, reason);
    }
  }

  lemma RestStep(s: State, t: nat)
    requires Exclusion(s) && Enabled(s, Run(t))
    ensures Rest(Shared(RunTask(s, t)), NextPc(s, s.tasks[t].pc), s.tasks[t].reason)
         == Rest(Shared(s), s.tasks[t].pc, s.tasks[t].reason)
  {
    EffectRest(s, t, s.tasks[t].pc, s.tasks[t].reason);
  }

  lemma {:induction false} RestAlone(s: State, t: nat)
    requires Exclusion(s) && t < |s.tasks| && (s.mutex == None || s.mutex == Some(t))
    ensures Done(s, t, Alone(s, t), Rest(Shared(s), s.tasks[t].pc, s.tasks[t].reason))
    decreases Remaining(s.tasks[t].pc)
  {
    assert Critical(s.tasks[t].pc) <==> s.mutex == Some(t);
    if s.tasks[t].pc != Idle {
      RunEffect(s, t);
      StepExclusion(s, Run(t));
      RestStep(s, t);
      RestAlone(RunTask(s, t), t);
    }
  }

  function Result(v: View, call: Call, reason: Reason): View {
    match call
    case Unlock => AfterUnlock(v, reason)
    case Lock => AfterLock(v, reason)
    case Toggle => AfterToggle(v, reason)
  }

  // A call that nobody interrupts has exactly the effect of the uninterrupted operation.
  lemma CallAlone(s: State, t: nat, call: Call, reason: Reason)
    requires Exclusion(s) && s.mutex == None && Enabled(s, Begin(t, call, reason))
    ensures var s1 := Apply(s, Begin(t, call, reason));
      && Exclusion(s1) && Done(s1, t, Alone(s1, t), Result(Shared(s), call, reason))
  {
    StepExclusion(s, Begin(t, call, reason));
    RestAlone(Apply(s, Begin(t, call, reason)), t);
  }

  lemma ExpiryAlone(s: State)
    requires Exclusion(s) && s.mutex == None && Enabled(s, Expire)
    ensures var s1 := Apply(s, Expire);
      && Exclusion(s1) && Done(s1, 0, Alone(s1, 0), AfterLock(Shared(s), TIMEOUT))
  {
    StepExclusion(s, Expire);
    RestAlone(Apply(s, Expire), 0);
  }

  // ---- What a late undo leaves behind ----

  // Open, with nothing left that could close it.
  predicate Stranded(s: State) {
    && s.door == UNLOCKED && !Running(s.timer)
    && forall t :: 0 <= t < |s.tasks| ==> s.tasks[t].pc == Idle || s.tasks[t].pc == LockPublish
  }

  lemma {:induction false} StrandedForever(s: State, es: seq<Event>)
    requires CanRun(s, es) && Stranded(s)
    requires forall i :: 0 <= i < |es| ==> !es[i].Begin?
    ensures Stranded(After(s, es))
  {
    if es != [] { StrandedForever(s, es[..|es| - 1]); }
  }

  // From any state in which a lock still owes the pin or the timer its write while a
  // later unlock has completed, letting that lock finish strands the door.
  lemma LateUndoStrands(s: State, t: nat)
    requires Exclusion(s) && t < |s.tasks| && s.door == UNLOCKED
    requires s.tasks[t].pc == LockLower || s.tasks[t].pc == LockStop
    requires forall u :: 0 <= u < |s.tasks| && u != t ==> s.tasks[u].pc == Idle
    ensures s.mutex == None && Stranded(Alone(s, t))
    ensures s.tasks[t].pc == LockLower ==> !Alone(s, t).actuator
  {
    assert !Critical(s.tasks[t].pc) && s.mutex != Some(t);
    RestAlone(s, t);
  }

  lemma Extend(s0: State, es: seq<Event>, e: Event)
    requires CanRun(s0, es) && Enabled(After(s0, es), e)
    ensures CanRun(s0, es + [e]) && After(s0, es + [e]) == Apply(After(s0, es), e)
  {
    assert (es + [e])[..|es|] == es;
  }

  // A run that has come to `s` can go on until task `t` has finished its call.
  lemma ExtendAlone(s0: State, es: seq<Event>, s: State, t: nat) returns (es': seq<Event>)
    requires CanRun(s0, es) && After(s0, es) == s
    requires Exclusion(s) && t < |s.tasks| && (s.mutex == None || s.mutex == Some(t))
    ensures CanRun(s0, es') && After(s0, es') == Alone(s, t)
    decreases Remaining(s.tasks[t].pc)
  {
    if s.tasks[t].pc == Idle {
      es' := es;
    } else {
      RunEffect(s, t);
      StepExclusion(s, Run(t));
      Extend(s0, es, Run(t));
      es' := ExtendAlone(s0, es + [Run(t)], RunTask(s, t), t);
    }
  }

  function LockPath(k: nat): Pc {
    match k case 0 => LockTake case 1 => LockTest case 2 => LockWrite case 3 => LockGive case _ => LockLower
  }

  // Task `t` has come `k` statements into a lock of the open door of `s`.
  predicate OnLockPath(s: State, s': State, t: nat, k: nat) {
    && t < |s.tasks| && s'.timer == s.timer && s'.actuator == s.actuator
    && s'.tasks == s.tasks[t := Task(LockPath(k), BUTTON)]
    && s'.mutex == (if 1 <= k <= 3 then Some(t) else None)
    && s'.door == (if k < 3 then UNLOCKED else LOCKED)
  }

  lemma LockPathStep(s: State, s': State, t: nat, k: nat)
    requires OnLockPath(s, s', t, k) && k < 4
    ensures Enabled(s', Run(t)) && OnLockPath(s, RunTask(s', t), t, k + 1)
  {
  }

  // A lock of the open door, run up to the point where it has just released the mutex.
  lemma StartLock(s0: State, es: seq<Event>, t: nat) returns (es': seq<Event>)
    requires CanRun(s0, es) && Enabled(After(s0, es), Begin(t, Lock, BUTTON))
    requires var s := After(s0, es); Exclusion(s) && s.mutex == None && s.door == UNLOCKED
    ensures CanRun(s0, es') && Exclusion(After(s0, es')) && OnLockPath(After(s0, es), After(s0, es'), t, 4)
  {
    var s := After(s0, es);
    StepExclusion(s, Begin(t, Lock, BUTTON));
    Extend(s0, es, Begin(t, Lock, BUTTON));
    es' := es + [Begin(t, Lock, BUTTON)];
    var s' := Apply(s, Begin(t, Lock, BUTTON));
    var k := 0;
    while k < 4
      invariant k <= 4 && CanRun(s0, es') && After(s0, es') == s' && Exclusion(s') && OnLockPath(s, s', t, k)
    {
      LockPathStep(s, s', t, k);
      StepExclusion(s', Run(t));
      Extend(s0, es', Run(t));
      es', s', k := es' + [Run(t)], RunTask(s', t), k + 1;
    }
  }

  // A whole call by task `t` that nobody interrupts.
  lemma RunCall(s0: State, es: seq<Event>, t: nat, call: Call, reason: Reason) returns (es': seq<Event>)
    requires CanRun(s0, es) && Exclusion(After(s0, es)) && After(s0, es).mutex == None
    requires Enabled(After(s0, es), Begin(t, call, reason))
    ensures CanRun(s0, es') && Exclusion(After(s0, es'))
    ensures Done(After(s0, es), t, After(s0, es'), Result(Shared(After(s0, es)), call, reason))
  {
    Extend(s0, es, Begin(t, call, reason));
    CallAlone(After(s0, es), t, call, reason);
    es' := ExtendAlone(s0, es + [Begin(t, call, reason)], Apply(After(s0, es), Begin(t, call, reason)), t);
  }

  // Task 1 has closed an open door and still owes the timer its stop, the pin too or not.
  predicate HalfLocked(s: State, beforePin: bool) {
    && Exclusion(s) && s.mutex == None && s.door == LOCKED && s.actuator == beforePin
    && |s.tasks| == 3 && s.tasks[0].pc == Idle && s.tasks[2].pc == Idle
    && s.tasks[1].pc == (if beforePin then LockLower else LockStop)
  }

  lemma ReachHalfLocked(timeout: Ticks, beforePin: bool) returns (es: seq<Event>)
    ensures CanRun(Init(2, timeout), es) && HalfLocked(After(Init(2, timeout), es), beforePin)
  {
    var s0 := Init(2, timeout);
    es := RunCall(s0, [], 1, Unlock, BUTTON);
    var s1 := After(s0, es);
    assert s1.actuator && s1.door == UNLOCKED;
    es := StartLock(s0, es, 1);
    var s2 := After(s0, es);
    assert s2.tasks[0] == s1.tasks[0] && s2.tasks[2] == s1.tasks[2];
    if !beforePin {
      StepExclusion(s2, Run(1));
      Extend(s0, es, Run(1));
      es := es + [Run(1)];
    }
  }

  lemma UnlockHalfLocked(s: State, beforePin: bool, after: State)
    requires HalfLocked(s, beforePin) && Exclusion(after)
    requires Done(s, 2, after, AfterUnlock(Shared(s), MQTT))
    ensures Stranded(Alone(after, 1)) && Quiescent(Alone(after, 1)) && Alone(after, 1).actuator == !beforePin
  {
    assert after.tasks[0] == s.tasks[0] && after.tasks[1] == s.tasks[1];
    LateUndoStrands(after, 1);
    RestAlone(after, 1);
  }

  // Serialisation is needed: two tasks beside the timer suffice to leave the door open for
  // good, with the pin low if the unlock fits before the pin write of the lock and high if
  // it fits only before its timer stop.
  lemma StrandingIsReachable(timeout: Ticks, beforePin: bool) returns (es: seq<Event>)
    ensures CanRun(Init(2, timeout), es)
    ensures var s := After(Init(2, timeout), es); Quiescent(s) && Stranded(s) && s.actuator == !beforePin
  {
    var s0 := Init(2, timeout);
    es := ReachHalfLocked(timeout, beforePin);
    var s := After(s0, es);
    es := RunCall(s0, es, 2, Unlock, MQTT);
    UnlockHalfLocked(s, beforePin, After(s0, es));
    es := ExtendAlone(s0, es, After(s0, es), 1);
  }
}
