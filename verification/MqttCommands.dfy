// Commands from the broker: what a decoded map makes the device do, and what becomes of
// the messages the back end sends.
//
// A map is what the CBOR library finds in it: a field is None when it is absent or not a
// text string.
module MqttCommands {
  import opened Wrappers
  import opened CStrings
  import opened ConfigStore
  import opened ConfigUpdate
  import opened LockController
  import opened LockTypes
  import PairingBoots

  datatype CborMap = CborMap(command: Option<string>, key: Option<string>, value: Option<string>)

  datatype Action =
    | Unlock | Lock | Ping | Record | Stop | Flash | Reboot | Lockdown | Pair
    | Configure(key: string, value: string)
    | BadFormat
    | Nothing

  // Text copied into a buffer that must also hold its terminator, as a C reader sees it.
  function Copied(field: Option<string>, size: nat): Option<string> {
    if field.Some? && |field.value| < size then Some(AsRead(field.value)) else None
  }

  // The comparisons of strcasecmp, in their order.
  function ActionOf(word: string, m: CborMap): Action {
    if word == "unlock" then Unlock
    else if word == "lock" then Lock
    else if word == "ping" then Ping
    else if word == "record" then Record
    else if word == "stop" then Stop
    else if word == "flash" then Flash
    else if word == "reboot" then Reboot
    else if word == "lockdown" then Lockdown
    else if word == "update_config" then DecodeUpdate(m)
    else if word == "pair" then Pair
    else Nothing
  }

  function Decode(m: CborMap): Action {
    match Copied(m.command, 32)
    case None => Nothing
    case Some(command) => ActionOf(Lower(command), m)
  }

  function DecodeUpdate(m: CborMap): Action {
    var key, value := Copied(m.key, 32), Copied(m.value, 256);
    if key.Some? && value.Some? then Configure(key.value, value.value) else BadFormat
  }

  function DeviceAfter(device: State, action: Action, io: Io, erase: Erase): State {
    match action
    case Configure(key, value) => PairingBoots.ApplyOp(device, PairingBoots.Set(key, value, io))
    case BadFormat => Publish(device, INVALID_UPDATE_CONFIG_FORMAT)
    case Ping => Publish(device, PONG)
    case Pair => PairingBoots.ApplyOp(device, PairingBoots.RelayedPair(io))
    case Flash => EraseStore(device, erase)
    case _ => device
  }

  // ---- The words ----

  // A text field that fits its buffer and reads as a word, in whatever case.
  predicate Reads(field: Option<string>, upper: string, lower: string) {
    field.Some? && |field.value| < 32
    && exists n :: 0 <= n <= |field.value| && ReadsTo(field.value, n) && Spells(field.value[..n], upper, lower)
  }

  lemma ReadsIs(m: CborMap, upper: string, lower: string)
    requires IsWord(upper, lower)
    ensures Reads(m.command, upper, lower) <==> Copied(m.command, 32).Some? && Lower(Copied(m.command, 32).value) == lower
  {
    if Copied(m.command, 32).Some? {
      var text := m.command.value;
      var n := AsReadReads(text);
      SameIffSpells(text[..n], upper, lower);
      forall k | 0 <= k <= |text| && ReadsTo(text, k) ensures text[..k] == text[..n] {
        AsReadIs(text, k);
      }
    }
  }

  lemma ActionWords(word: string, m: CborMap)
    ensures ActionOf(word, m) == Unlock <==> word == "unlock"
    ensures ActionOf(word, m) == Lock <==> word == "lock"
    ensures ActionOf(word, m) == Ping <==> word == "ping"
    ensures ActionOf(word, m) == Record <==> word == "record"
    ensures ActionOf(word, m) == Stop <==> word == "stop"
    ensures ActionOf(word, m) == Flash <==> word == "flash"
    ensures ActionOf(word, m) == Reboot <==> word == "reboot"
    ensures ActionOf(word, m) == Lockdown <==> word == "lockdown"
    ensures ActionOf(word, m) == Pair <==> word == "pair"
    ensures ActionOf(word, m).Configure? || ActionOf(word, m).BadFormat? <==> word == "update_config"
  {
  }

  lemma AllActionWords(m: CborMap)
    ensures forall word :: ActionOf(word, m) == Unlock <==> word == "unlock"
    ensures forall word :: ActionOf(word, m) == Lock <==> word == "lock"
    ensures forall word :: ActionOf(word, m) == Ping <==> word == "ping"
    ensures forall word :: ActionOf(word, m) == Record <==> word == "record"
    ensures forall word :: ActionOf(word, m) == Stop <==> word == "stop"
    ensures forall word :: ActionOf(word, m) == Flash <==> word == "flash"
    ensures forall word :: ActionOf(word, m) == Reboot <==> word == "reboot"
    ensures forall word :: ActionOf(word, m) == Lockdown <==> word == "lockdown"
    ensures forall word :: ActionOf(word, m) == Pair <==> word == "pair"
  {
    forall word
      ensures ActionOf(word, m) == Unlock <==> word == "unlock"
      ensures ActionOf(word, m) == Lock <==> word == "lock"
      ensures ActionOf(word, m) == Ping <==> word == "ping"
      ensures ActionOf(word, m) == Record <==> word == "record"
      ensures ActionOf(word, m) == Stop <==> word == "stop"
      ensures ActionOf(word, m) == Flash <==> word == "flash"
      ensures ActionOf(word, m) == Reboot <==> word == "reboot"
      ensures ActionOf(word, m) == Lockdown <==> word == "lockdown"
      ensures ActionOf(word, m) == Pair <==> word == "pair"
    {
      ActionWords(word, m);
    }
  }

  lemma WordIs(m: CborMap, upper: string, lower: string, action: Action)
    requires IsWord(upper, lower) && action != Nothing
    requires forall word :: ActionOf(word, m) == action <==> word == lower
    ensures Reads(m.command, upper, lower) <==> Decode(m) == action
  {
    ReadsIs(m, upper, lower);
  }

  lemma DoorWords(m: CborMap)
    ensures Reads(m.command, "UNLOCK", "unlock") <==> Decode(m) == Unlock
    ensures Reads(m.command, "LOCK", "lock") <==> Decode(m) == Lock
    ensures Reads(m.command, "LOCKDOWN", "lockdown") <==> Decode(m) == Lockdown
  {
    AllActionWords(m);
    WordIs(m, "UNLOCK", "unlock", Unlock);
    WordIs(m, "LOCK", "lock", Lock);
    WordIs(m, "LOCKDOWN", "lockdown", Lockdown);
  }

  lemma BootWords(m: CborMap)
    ensures Reads(m.command, "REBOOT", "reboot") <==> Decode(m) == Reboot
    ensures Reads(m.command, "PAIR", "pair") <==> Decode(m) == Pair
    ensures Reads(m.command, "FLASH", "flash") <==> Decode(m) == Flash
  {
    AllActionWords(m);
    WordIs(m, "REBOOT", "reboot", Reboot);
    WordIs(m, "PAIR", "pair", Pair);
    WordIs(m, "FLASH", "flash", Flash);
  }

  lemma SmallWords(m: CborMap)
    ensures Reads(m.command, "PING", "ping") <==> Decode(m) == Ping
    ensures Reads(m.command, "RECORD", "record") <==> Decode(m) == Record
    ensures Reads(m.command, "STOP", "stop") <==> Decode(m) == Stop
  {
    AllActionWords(m);
    WordIs(m, "PING", "ping", Ping);
    WordIs(m, "RECORD", "record", Record);
    WordIs(m, "STOP", "stop", Stop);
  }

  lemma UpdateWords(m: CborMap)
    ensures Reads(m.command, "UPDATE_CONFIG", "update_config") <==> Decode(m).Configure? || Decode(m).BadFormat?
  {
    ReadsIs(m, "UPDATE_CONFIG", "update_config");
    if Copied(m.command, 32).Some? { ActionWords(Lower(Copied(m.command, 32).value), m); }
  }

  // Every word decodes to its own action, and to no other.
  lemma Words(m: CborMap)
    ensures Reads(m.command, "UNLOCK", "unlock") <==> Decode(m) == Unlock
    ensures Reads(m.command, "LOCK", "lock") <==> Decode(m) == Lock
    ensures Reads(m.command, "PING", "ping") <==> Decode(m) == Ping
    ensures Reads(m.command, "RECORD", "record") <==> Decode(m) == Record
    ensures Reads(m.command, "STOP", "stop") <==> Decode(m) == Stop
    ensures Reads(m.command, "FLASH", "flash") <==> Decode(m) == Flash
    ensures Reads(m.command, "REBOOT", "reboot") <==> Decode(m) == Reboot
    ensures Reads(m.command, "LOCKDOWN", "lockdown") <==> Decode(m) == Lockdown
    ensures Reads(m.command, "PAIR", "pair") <==> Decode(m) == Pair
    ensures Reads(m.command, "UPDATE_CONFIG", "update_config") <==> Decode(m).Configure? || Decode(m).BadFormat?
  {
    DoorWords(m);
    BootWords(m);
    SmallWords(m);
    UpdateWords(m);
  }

  // ---- Doing it ----

  predicate EndsBoot(action: Action) { action.Reboot? || action.Lockdown? || action.Pair? }

  // What a command does to the lock: one uninterrupted call, or the end of the boot, which
  // sends its farewell.
  twostate predicate LockAfter(lock: LockContext, action: Action)
    reads lock
  {
    match action
    case Unlock => lock.Snapshot() == AfterUnlock(old(lock.Snapshot()), MQTT) && lock.SentAlong()
    case Lock => lock.Snapshot() == AfterLock(old(lock.Snapshot()), MQTT) && lock.SentAlong()
    case Reboot => Restarts(lock)
    case Pair => Restarts(lock)
    case Lockdown => Halts(lock)
    case _ => Untouched(lock)
  }

  predicate Ends(outbox: seq<Message>, last: Message) { outbox != [] && outbox[|outbox| - 1] == last }

  twostate predicate Restarts(lock: LockContext)
    reads lock
  {
    lock.Snapshot() == AfterLock(old(lock.Snapshot()), REBOOT) && Ends(lock.outbox, Restarted) && !lock.mqttClient
  }

  twostate predicate Halts(lock: LockContext)
    reads lock
  {
    lock.Snapshot() == AfterLock(old(lock.Snapshot()), LOCKDOWN) && Ends(lock.outbox, Halted) && !lock.mqttClient
  }

  twostate predicate Untouched(lock: LockContext)
    reads lock
  {
    lock.Snapshot() == old(lock.Snapshot()) && lock.outbox == old(lock.outbox) && lock.mqttClient == old(lock.mqttClient)
  }

  method PerformOnLock(lock: LockContext, action: Action)
    modifies lock
    ensures LockAfter(lock, action)
  {
    match action {
      case Unlock => lock.UnlockDoor(MQTT);
      case Lock => lock.LockDoor(MQTT);
      case Reboot => lock.CleanupRestart();
      case Lockdown => lock.CleanupHalt();
      case Pair => lock.CleanupRestart();
      case _ =>
    }
  }

  method PerformPair(device: Device, io: Io)
    modifies device
    ensures device.View() == PairingBoots.ApplyOp(old(device.View()), PairingBoots.RelayedPair(io))
  {
    PairingBoots.PairingKey();
    device.UpdateConfig("pairing_mode", "1", io);
    device.MqttPublishStatus(ENTERING_PAIRING_MODE);
  }

  method PerformOnDevice(device: Device, action: Action, io: Io, erase: Erase)
    requires action.Configure? && SettingOf(action.key).Some? && Copies(device.View(), SettingOf(action.key).value, action.value, io)
      ==> Fits(SettingOf(action.key).value, action.value)
    modifies device
    ensures device.View() == DeviceAfter(old(device.View()), action, io, erase)
  {
    match action {
      case Configure(key, value) => device.UpdateConfig(key, value, io);
      case BadFormat => device.MqttPublishStatus(INVALID_UPDATE_CONFIG_FORMAT);
      case Ping => device.MqttPublishStatus(PONG);
      case Pair => PerformPair(device, io);
      case Flash => device.EraseNvs(erase);
      case _ =>
    }
  }

  // What the command queues for the recorder.
  datatype AudioCommand = START | STOP

  function AudioOf(action: Action): Option<AudioCommand> {
    if action.Record? then Some(START) else if action.Stop? then Some(STOP) else None
  }

  // Key and value of an update, as the device reads them, if both fit their buffers.
  predicate Carries(m: CborMap, key: string, value: string) {
    && m.key.Some? && |m.key.value| < 32 && m.value.Some? && |m.value.value| < 256
    && |key| <= |m.key.value| && ReadsTo(m.key.value, |key|) && key == m.key.value[..|key|]
    && |value| <= |m.value.value| && ReadsTo(m.value.value, |value|) && value == m.value.value[..|value|]
  }

  lemma Carried(m: CborMap)
    ensures DecodeUpdate(m).Configure? <==> m.key.Some? && |m.key.value| < 32 && m.value.Some? && |m.value.value| < 256
    ensures DecodeUpdate(m).Configure? ==> Carries(m, DecodeUpdate(m).key, DecodeUpdate(m).value)
    ensures DecodeUpdate(m).Configure? || DecodeUpdate(m).BadFormat?
  {
    if m.key.Some? && m.value.Some? {
      var i := AsReadReads(m.key.value);
      var j := AsReadReads(m.value.value);
    }
  }

  // The device after a map, by what the map says: an update writes what it carries, or is
  // refused when it lacks a field that fits.
  ghost predicate Told(before: State, m: CborMap, io: Io, erase: Erase, after: State) {
    if Reads(m.command, "PING", "ping") then after == Publish(before, PONG)
    else if Reads(m.command, "FLASH", "flash") then after == EraseStore(before, erase)
    else if Reads(m.command, "PAIR", "pair") then
      after == Publish(Update(before, "pairing_mode", "1", io), ENTERING_PAIRING_MODE)
    else if Reads(m.command, "UPDATE_CONFIG", "update_config") then
      if m.key.Some? && |m.key.value| < 32 && m.value.Some? && |m.value.value| < 256 then
        exists key: string, value: string :: Carries(m, key, value) && after == Update(before, key, value, io)
      else after == Publish(before, INVALID_UPDATE_CONFIG_FORMAT)
    else after == before
  }

  lemma DeviceIsTold(before: State, m: CborMap, io: Io, erase: Erase)
    ensures Told(before, m, io, erase, DeviceAfter(before, Decode(m), io, erase))
  {
    Words(m);
    if Reads(m.command, "UPDATE_CONFIG", "update_config") {
      UpdateIsDecoded(m);
      Carried(m);
    }
  }

  lemma UpdateIsDecoded(m: CborMap)
    requires Reads(m.command, "UPDATE_CONFIG", "update_config")
    ensures Decode(m) == DecodeUpdate(m)
  {
    ReadsIs(m, "UPDATE_CONFIG", "update_config");
    ActionWords("update_config", m);
  }

  // process_cbor_command on any map at all, by the words it holds.
  method ProcessCborCommand(m: CborMap, device: Device, lock: LockContext, io: Io, erase: Erase)
    returns (action: Action, audio: Option<AudioCommand>)
    requires var decoded := Decode(m);
      decoded.Configure? && SettingOf(decoded.key).Some? && Copies(device.View(), SettingOf(decoded.key).value, decoded.value, io)
      ==> Fits(SettingOf(decoded.key).value, decoded.value)
    modifies device, lock
    ensures action == Decode(m)
    ensures device.View() == DeviceAfter(old(device.View()), action, io, erase)
    ensures Told(old(device.View()), m, io, erase, device.View())
    ensures LockAfter(lock, action)
    ensures if Reads(m.command, "UNLOCK", "unlock") then
              lock.Snapshot() == AfterUnlock(old(lock.Snapshot()), MQTT) && lock.state == UNLOCKED && lock.SentAlong()
            else if Reads(m.command, "LOCK", "lock") then
              lock.Snapshot() == AfterLock(old(lock.Snapshot()), MQTT) && lock.state == LOCKED && lock.SentAlong()
            else if Reads(m.command, "LOCKDOWN", "lockdown") then Halts(lock)
            else if Reads(m.command, "REBOOT", "reboot") || Reads(m.command, "PAIR", "pair") then Restarts(lock)
            else Untouched(lock)
    ensures audio == if Reads(m.command, "RECORD", "record") then Some(START)
                     else if Reads(m.command, "STOP", "stop") then Some(STOP) else None
  {
    Words(m);
    DeviceIsTold(device.View(), m, io, erase);
    action := Decode(m);
    PerformOnDevice(device, action, io, erase);
    PerformOnLock(lock, action);
    audio := AudioOf(action);
  }

  // ---- What the back end sends ----

  function UpdateMessage(item: Item): CborMap { CborMap(Some("update_config"), Some(item.key), Some(item.value)) }

  function ControlMessage(command: string): CborMap { CborMap(Some(command), None, None) }

  lemma UpdateWord()
    ensures AsRead("update_config") == "update_config" && Lower("update_config") == "update_config"
  {
    AsReadPlain("update_config");
    SameIffSpells("update_config", "UPDATE_CONFIG", "update_config");
  }

  // The device does with an update message what the end-to-end protocol says it does.
  lemma UpdateMessageIsHandled(device: State, item: Item, io: Io, erase: Erase)
    ensures DeviceAfter(device, Decode(UpdateMessage(item)), io, erase) == Handle(device, item, io)
  {
    var m := UpdateMessage(item);
    UpdateWord();
    ActionWords("update_config", m);
    assert Decode(m) == ActionOf("update_config", m) == DecodeUpdate(m);
  }

  lemma PairKeepsCache(device: State, io: Io)
    ensures Update(device, "pairing_mode", "1", io).config == device.config
  {
    PairingBoots.PairingKey();
  }

  lemma OthersKeepCache(device: State, action: Action, io: Io, erase: Erase)
    requires !action.Configure?
    ensures var after := DeviceAfter(device, action, io, erase);
      after.config == device.config && (after.store != device.store ==> action.Pair? || action.Flash?)
  {
    if action.Pair? { PairKeepsCache(device, io); }
  }

  lemma ControlWords(command: string)
    ensures !Decode(ControlMessage(command)).Configure?
  {
  }

  // Whatever command string an authorised client has the back end relay: the cached
  // configuration stays, and only PAIR and FLASH reach the store.
  lemma RelayedCommands(device: State, command: string, io: Io, erase: Erase)
    ensures var after := DeviceAfter(device, Decode(ControlMessage(command)), io, erase);
      && after.config == device.config
      && (after.store != device.store ==> Reads(Some(command), "PAIR", "pair") || Reads(Some(command), "FLASH", "flash"))
  {
    Words(ControlMessage(command));
    ControlWords(command);
    OthersKeepCache(device, Decode(ControlMessage(command)), io, erase);
  }
}
