// Commands of the serial console: what a finished line makes the device do.
module ConsoleCommands {
  import opened Wrappers
  import opened CStrings
  import opened ConfigStore
  import opened LockController
  import opened LockTypes
  import MqttCommands
  import PairingBoots
  import SerialLine

  // The configuration after a line, by what the line says.
  predicate Told(before: State, command: string, io: Io, erase: Erase, after: State) {
    if "update_config " <= command then
      match SerialLine.Scan(command[14..])
      case Some((key, value)) => after == Update(before, key, value, io)
      case None => after == before
    else if Spells(command, "FLASH", "flash") then after == EraseStore(before, erase)
    else if Spells(command, "PAIR", "pair") then
      after == Update(Publish(before, ENTERING_PAIRING_MODE), "pairing_mode", "1", io)
    else after == before
  }

  method RunOnDevice(device: Device, command: string, io: Io, erase: Erase)
    requires var decoded := SerialLine.Decode(command);
      decoded.UpdateConfig? && SettingOf(decoded.key).Some? && Copies(device.View(), SettingOf(decoded.key).value, decoded.value, io)
      ==> Fits(SettingOf(decoded.key).value, decoded.value)
    modifies device
    ensures Told(old(device.View()), command, io, erase, device.View())
  {
    SerialLine.ConsoleWords(command);
    match SerialLine.Decode(command)
    case UpdateConfig(key, value) => device.UpdateConfig(key, value, io);
    case Pair =>
      PairingBoots.PairingKey();
      device.MqttPublishStatus(ENTERING_PAIRING_MODE);
      device.UpdateConfig("pairing_mode", "1", io);
    case Flash => device.EraseNvs(erase);
    case _ =>
  }

  method RunOnLock(lock: LockContext, action: SerialLine.Action)
    modifies lock
    ensures LockAfter(lock, action)
  {
    match action {
      case Unlock => lock.UnlockDoor(SERIAL);
      case Lock => lock.LockDoor(SERIAL);
      case Reboot => lock.CleanupRestart();
      case Lockdown => lock.CleanupHalt();
      case Pair => lock.CleanupRestart();
      case _ =>
    }
  }

  twostate predicate LockAfter(lock: LockContext, action: SerialLine.Action)
    reads lock
  {
    match action
    case Unlock => lock.Snapshot() == AfterUnlock(old(lock.Snapshot()), SERIAL) && lock.SentAlong()
    case Lock => lock.Snapshot() == AfterLock(old(lock.Snapshot()), SERIAL) && lock.SentAlong()
    case Reboot => MqttCommands.Restarts(lock)
    case Pair => MqttCommands.Restarts(lock)
    case Lockdown => MqttCommands.Halts(lock)
    case _ => MqttCommands.Untouched(lock)
  }

  // run_command on any line at all, by the words it holds.
  method RunCommand(command: string, device: Device, lock: LockContext, io: Io, erase: Erase)
    returns (action: SerialLine.Action, audio: Option<MqttCommands.AudioCommand>)
    requires var decoded := SerialLine.Decode(command);
      decoded.UpdateConfig? && SettingOf(decoded.key).Some? && Copies(device.View(), SettingOf(decoded.key).value, decoded.value, io)
      ==> Fits(SettingOf(decoded.key).value, decoded.value)
    modifies device, lock
    ensures action == SerialLine.Decode(command)
    ensures Told(old(device.View()), command, io, erase, device.View())
    ensures if Spells(command, "UNLOCK", "unlock") then
              lock.Snapshot() == AfterUnlock(old(lock.Snapshot()), SERIAL) && lock.state == UNLOCKED && lock.SentAlong()
            else if Spells(command, "LOCK", "lock") then
              lock.Snapshot() == AfterLock(old(lock.Snapshot()), SERIAL) && lock.state == LOCKED && lock.SentAlong()
            else if Spells(command, "LOCKDOWN", "lockdown") then MqttCommands.Halts(lock)
            else if Spells(command, "REBOOT", "reboot") || Spells(command, "PAIR", "pair") then MqttCommands.Restarts(lock)
            else MqttCommands.Untouched(lock)
    ensures audio == if Spells(command, "RECORD", "record") then Some(MqttCommands.START)
                     else if Spells(command, "STOP", "stop") then Some(MqttCommands.STOP) else None
  {
    SerialLine.ConsoleWords(command);
    action := SerialLine.Decode(command);
    RunOnDevice(device, command, io, erase);
    RunOnLock(lock, action);
    audio := if action.Record? then Some(MqttCommands.START) else if action.Stop? then Some(MqttCommands.STOP) else None;
  }
}
