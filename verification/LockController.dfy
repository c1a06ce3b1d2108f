// The lock controller as a caller sees it when calls do not overlap: one context object
// whose operations each run to completion. LockSteps.CallAlone and LockSteps.ExpiryAlone
// tie the same specification to the interleaved statements. `published` records the calls
// of mqtt_publish_lock_event; `outbox` records what leaves the device.
module LockController {
  import opened Wrappers
  import opened LockTypes

  class LockContext {
    var state: Door
    var actuator: bool
    var timer: Timer
    var published: seq<Message>
    var outbox: seq<Message>
    var mqttClient: bool
    var clock: nat
    var lockTimeout: Ticks
    ghost var unlockedAt: nat

    ghost function Snapshot(): View
      reads this
    {
      View(state, actuator, timer, published, clock, lockTimeout, unlockedAt)
    }

    // lock_init
    constructor (lockTimeout: Ticks)
      ensures Snapshot() == View(LOCKED, false, Absent, [], 0, lockTimeout, 0) && InStep(Snapshot())
      ensures !mqttClient && outbox == []
    {
      state, actuator, timer := LOCKED, false, Absent;
      published, outbox, mqttClient := [], [], false;
      clock, unlockedAt := 0, 0;
      this.lockTimeout := lockTimeout;
    }

    // What the publications since then let out.
    twostate predicate SentAlong()
      reads this
    {
      && mqttClient == old(mqttClient)
      && |published| >= |old(published)|
      && outbox == old(outbox) + (if mqttClient then published[|old(published)|..] else [])
    }

    method PublishLockEvent(door: Door, reason: Reason)
      modifies this`published, this`outbox
      ensures published == old(published) + [LockEvent(door, reason)] && SentAlong()
    {
      published := published + [LockEvent(door, reason)];
      if mqttClient {
        outbox := outbox + [LockEvent(door, reason)];
      }
    }

    method PublishStatus(text: string)
      modifies this`outbox
      ensures outbox == old(outbox) + (if mqttClient then [Status(text)] else [])
    {
      if mqttClient {
        outbox := outbox + [Status(text)];
      }
    }

    method UnlockDoor(reason: Reason)
      modifies this
      ensures Snapshot() == AfterUnlock(old(Snapshot()), reason)
      ensures state == UNLOCKED && actuator == (old(state) != UNLOCKED || old(actuator))
      ensures timer == Created(if old(timer).Created? then old(timer).period else lockTimeout,
                               Some(clock + (if old(timer).Created? then old(timer).period else lockTimeout)))
      ensures published == old(published) + (if old(state) != UNLOCKED then [LockEvent(UNLOCKED, reason)] else [])
      ensures clock == old(clock) && lockTimeout == old(lockTimeout) && unlockedAt == clock
      ensures SentAlong()
      ensures old(InStep(Snapshot())) ==> InStep(Snapshot())
    {
      if state != UNLOCKED {
        state := UNLOCKED;
        actuator := true;
        PublishLockEvent(UNLOCKED, reason);
      }
      if timer.Absent? {
        timer := Created(lockTimeout, None);
      } else {
        timer := timer.(deadline := None);
      }
      timer := timer.(deadline := Some(clock + timer.period));
      unlockedAt := clock;
    }

    method LockDoor(reason: Reason)
      modifies this
      ensures Snapshot() == AfterLock(old(Snapshot()), reason)
      ensures state == LOCKED && actuator == (old(state) == LOCKED && old(actuator))
      ensures timer == if old(timer).Created? then Created(old(timer).period, None) else Absent
      ensures published == old(published) + (if old(state) != LOCKED then [LockEvent(LOCKED, reason)] else [])
      ensures clock == old(clock) && lockTimeout == old(lockTimeout) && unlockedAt == old(unlockedAt)
      ensures SentAlong()
      ensures old(InStep(Snapshot())) ==> InStep(Snapshot())
    {
      if state == LOCKED {
        if timer.Created? {
          timer := timer.(deadline := None);
        }
        return;
      }
      state := LOCKED;
      actuator := false;
      if timer.Created? {
        timer := timer.(deadline := None);
      }
      PublishLockEvent(LOCKED, reason);
    }

    method ToggleDoor(reason: Reason)
      modifies this
      ensures Snapshot() == AfterToggle(old(Snapshot()), reason)
      ensures state == if old(state) == LOCKED then UNLOCKED else LOCKED
      ensures published == old(published) + [LockEvent(state, reason)]
      ensures old(InStep(Snapshot())) ==> InStep(Snapshot())
      ensures SentAlong()
    {
      if state == LOCKED {
        UnlockDoor(reason);
      } else {
        LockDoor(reason);
      }
    }

    // The expiry of the one-shot timer, followed by lock_timeout_callback.
    method Expire()
      requires Running(timer) && timer.deadline.value <= clock
      modifies this
      ensures Snapshot() == AfterLock(old(Snapshot()), TIMEOUT)
      ensures state == LOCKED && timer == Created(old(timer).period, None)
      ensures published == old(published) + (if old(state) != LOCKED then [LockEvent(LOCKED, TIMEOUT)] else [])
      ensures SentAlong()
    {
      timer := timer.(deadline := None);
      LockDoor(TIMEOUT);
    }

    method Cleanup(last: Message)
      modifies this`mqttClient, this`outbox
      ensures !mqttClient
      ensures outbox == old(outbox) + (if old(mqttClient) then [Disconnected] else []) + [last]
    {
      if mqttClient {
        outbox := outbox + [Disconnected];
        mqttClient := false;
      }
      outbox := outbox + [last];
    }

    // With a client the farewell leaves, then the lock event if the door was open, then the
    // disconnect; the restart comes last in any case.
    method CleanupRestart()
      modifies this
      ensures old(mqttClient) ==>
        outbox == old(outbox) + [Status("RESTARTING")] + (if old(state) != LOCKED then [LockEvent(LOCKED, REBOOT)] else [])
                  + [Disconnected, Restarted]
      ensures !old(mqttClient) ==> outbox == old(outbox) + [Restarted]
      ensures published == old(published) + (if old(state) != LOCKED then [LockEvent(LOCKED, REBOOT)] else [])
      ensures Snapshot() == AfterLock(old(Snapshot()), REBOOT) && !mqttClient
      ensures state == LOCKED && !Running(timer) && (old(InStep(Snapshot())) ==> !actuator)
    {
      PublishStatus("RESTARTING");
      LockDoor(REBOOT);
      Cleanup(Restarted);
    }

    method CleanupHalt()
      modifies this
      ensures old(mqttClient) ==>
        outbox == old(outbox) + [Status("LOCKING_DOWN")] + (if old(state) != LOCKED then [LockEvent(LOCKED, LOCKDOWN)] else [])
                  + [Disconnected, Halted]
      ensures !old(mqttClient) ==> outbox == old(outbox) + [Halted]
      ensures published == old(published) + (if old(state) != LOCKED then [LockEvent(LOCKED, LOCKDOWN)] else [])
      ensures Snapshot() == AfterLock(old(Snapshot()), LOCKDOWN) && !mqttClient
      ensures state == LOCKED && !Running(timer) && (old(InStep(Snapshot())) ==> !actuator)
    {
      PublishStatus("LOCKING_DOWN");
      LockDoor(LOCKDOWN);
      Cleanup(Halted);
    }
  }
}
