// The persistent configuration: a RAM copy of every setting over the flash store (NVS).
//
// A write to the store may fail, and so may its commit; reads of the open handle see every
// write at once, while only committed writes are sure to survive a power cycle.
module ConfigStore {
  import opened Wrappers
  import opened CStrings

  datatype Setting =
    | DeviceId | WifiSsid | WifiPass | BackendUrl | BackendBearer | MqttBroker | MqttPass
    | HbEnable | HbInterval | AudioTimeout | LockTimeout | PairingTimeout
    | UserId | PairingMode | VoiceEnable | VadRms

  datatype Kind = TextOf(capacity: nat) | FlagKind | NumberKind

  datatype Value = Text(text: string) | Flag(on: bool) | Number(n: int)

  datatype NvsValue = Str(text: string) | U8(byte: int) | I32(word: int)

  type Nvs = map<string, NvsValue>

  // config_t
  datatype Config = Config(
    wifiSsid: string,
    wifiPassword: string,
    deviceId: string,
    backendUrl: string,
    backendBearerToken: string,
    mqttBrokerUrl: string,
    mqttBrokerPassword: string,
    mqttHeartbeatEnable: bool,
    mqttHeartbeatIntervalSec: int,
    audioRecordTimeoutSec: int,
    lockTimeoutMs: int,
    pairingTimeoutSec: int,
    userId: string,
    pairingMode: bool,
    voiceDetectionEnable: bool,
    vadRmsThreshold: int)

  // The values fixed when the firmware is built.
  datatype Provisioned = Provisioned(
    deviceId: string,
    wifiSsid: string,
    wifiPassword: string,
    backendUrl: string,
    mqttBrokerUrl: string,
    heartbeatEnable: bool,
    heartbeatIntervalSec: int,
    audioRecordTimeoutSec: int,
    lockTimeoutMs: int,
    pairingTimeoutSec: int)

  function KindOf(s: Setting): Kind {
    match s
    case DeviceId => TextOf(64)
    case WifiSsid => TextOf(32)
    case WifiPass => TextOf(64)
    case BackendUrl => TextOf(256)
    case BackendBearer => TextOf(256)
    case MqttBroker => TextOf(256)
    case MqttPass => TextOf(256)
    case UserId => TextOf(256)
    case HbEnable => FlagKind
    case PairingMode => FlagKind
    case VoiceEnable => FlagKind
    case _ => NumberKind
  }

  // The NVS slot a setting is loaded from.
  function Slot(s: Setting): string {
    match s
    case DeviceId => "device_id"
    case WifiSsid => "wifi_ssid"
    case WifiPass => "wifi_pass"
    case BackendUrl => "backend_url"
    case BackendBearer => "backend_bearer"
    case MqttBroker => "mqtt_broker"
    case MqttPass => "mqtt_pass"
    case HbEnable => "mqtt_hb_enable"
    case HbInterval => "hb_interval"
    case AudioTimeout => "audio_timeout"
    case LockTimeout => "lock_timeout"
    case PairingTimeout => "pairing_timeout"
    case UserId => "user_id"
    case PairingMode => "pairing_mode"
    case VoiceEnable => "voice_en"
    case VadRms => "vad_rms"
  }

  function Default(d: Provisioned, s: Setting): Value {
    match s
    case DeviceId => Text(d.deviceId)
    case WifiSsid => Text(d.wifiSsid)
    case WifiPass => Text(d.wifiPassword)
    case BackendUrl => Text(d.backendUrl)
    case BackendBearer => Text("")
    case MqttBroker => Text(d.mqttBrokerUrl)
    case MqttPass => Text("")
    case HbEnable => Flag(d.heartbeatEnable)
    case HbInterval => Number(d.heartbeatIntervalSec)
    case AudioTimeout => Number(d.audioRecordTimeoutSec)
    case LockTimeout => Number(d.lockTimeoutMs)
    case PairingTimeout => Number(d.pairingTimeoutSec)
    case UserId => Text("")
    case PairingMode => Flag(false)
    case VoiceEnable => Flag(true)
    case VadRms => Number(1000)
  }

  // The RAM field of a setting.
  function Get(c: Config, s: Setting): Value {
    match s
    case DeviceId => Text(c.deviceId)
    case WifiSsid => Text(c.wifiSsid)
    case WifiPass => Text(c.wifiPassword)
    case BackendUrl => Text(c.backendUrl)
    case BackendBearer => Text(c.backendBearerToken)
    case MqttBroker => Text(c.mqttBrokerUrl)
    case MqttPass => Text(c.mqttBrokerPassword)
    case HbEnable => Flag(c.mqttHeartbeatEnable)
    case HbInterval => Number(c.mqttHeartbeatIntervalSec)
    case AudioTimeout => Number(c.audioRecordTimeoutSec)
    case LockTimeout => Number(c.lockTimeoutMs)
    case PairingTimeout => Number(c.pairingTimeoutSec)
    case UserId => Text(c.userId)
    case PairingMode => Flag(c.pairingMode)
    case VoiceEnable => Flag(c.voiceDetectionEnable)
    case VadRms => Number(c.vadRmsThreshold)
  }

  predicate HasKind(v: Value, k: Kind) {
    match k
    case TextOf(_) => v.Text?
    case FlagKind => v.Flag?
    case NumberKind => v.Number?
  }

  function ReadStr(store: Nvs, slot: string, capacity: nat): Option<string> {
    if slot in store && store[slot].Str? && |store[slot].text| < capacity then Some(store[slot].text) else None
  }

  function ReadU8(store: Nvs, slot: string): Option<int> {
    if slot in store && store[slot].U8? then Some(store[slot].byte) else None
  }

  function ReadI32(store: Nvs, slot: string): Option<int> {
    if slot in store && store[slot].I32? then Some(store[slot].word) else None
  }

  // What a load reads for a setting.
  function Read(store: Nvs, d: Provisioned, s: Setting): Value {
    match KindOf(s)
    case TextOf(capacity) =>
      (match ReadStr(store, Slot(s), capacity) case Some(t) => Text(t) case None => Default(d, s))
    case FlagKind =>
      (match ReadU8(store, Slot(s)) case Some(b) => Flag(b != 0) case None => Default(d, s))
    case NumberKind =>
      (match ReadI32(store, Slot(s)) case Some(n) => Number(n) case None => Default(d, s))
  }

  function Encode(v: Value): NvsValue {
    match v
    case Text(t) => Str(t)
    case Flag(on) => U8(if on then 1 else 0)
    case Number(n) => I32(n)
  }

  // What a textual value means for a setting.
  function Parse(s: Setting, value: string): Value {
    match KindOf(s)
    case TextOf(_) => Text(value)
    case FlagKind => Flag(Atoi(value) != 0)
    case NumberKind => Number(Atoi(value))
  }

  predicate Is(key: string, name: string) { SameIgnoringCase(key, name) }

  function SettingOf(key: string): (s: Option<Setting>)
    ensures s != Some(DeviceId)
  {
    if Is(key, "wifi_ssid") then Some(WifiSsid)
    else if Is(key, "wifi_pass") then Some(WifiPass)
    else if Is(key, "backend_url") then Some(BackendUrl)
    else if Is(key, "backend_bearer") then Some(BackendBearer)
    else if Is(key, "mqtt_broker") then Some(MqttBroker)
    else if Is(key, "mqtt_pass") then Some(MqttPass)
    else if Is(key, "mqtt_hb_enable") then Some(HbEnable)
    else if Is(key, "mqtt_hb_interval") then Some(HbInterval)
    else if Is(key, "audio_timeout") then Some(AudioTimeout)
    else if Is(key, "lock_timeout") then Some(LockTimeout)
    else if Is(key, "pairing_timeout") then Some(PairingTimeout)
    else if Is(key, "user_id") then Some(UserId)
    else if Is(key, "pairing_mode") then Some(PairingMode)
    else if Is(key, "voice_detection_enable") then Some(VoiceEnable)
    else if Is(key, "vad_rms_threshold") || Is(key, "vad_rms") then Some(VadRms)
    else None
  }

  // The settings written under the spelling of the caller.
  predicate StoredAsSpelled(s: Setting) { KindOf(s).TextOf? && s != UserId }

  function WriteSlot(s: Setting, key: string): string { if StoredAsSpelled(s) then key else Slot(s) }

  // A string fits its field with its terminator and holds no NUL of its own.
  predicate Fits(s: Setting, value: string) {
    match KindOf(s)
    case TextOf(capacity) => |value| < capacity && NUL !in value
    case _ => true
  }

  // The update gets as far as the copy into the RAM field.
  predicate Copies(st: State, s: Setting, value: string, io: Io) {
    io.opens && io.writes && Get(st.config, s) != Parse(s, value)
  }

  datatype Status =
    | CONFIG_UPDATED | COMMIT_CONFIG_FAILED | UPDATE_CONFIG_FAILED
    | NVM_OPEN_FAILED | INVALID_CONFIG_KEY | INVALID_UPDATE_CONFIG_FORMAT
    | PONG | ENTERING_PAIRING_MODE
    | NVS_ERASED | NVS_ERASE_FAILED_NO_SUCH | NVS_ERASE_FAILED_UNKNOWN_ERROR

  datatype State = State(config: Config, store: Nvs, committed: Nvs, mqttUp: bool, sent: seq<Status>)

  // Which of the NVS calls of one update succeed.
  datatype Io = Io(opens: bool, writes: bool, commits: bool)

  const FINE: Io := Io(true, true, true)

  function Publish(st: State, status: Status): State {
    if st.mqttUp then st.(sent := st.sent + [status]) else st
  }

  function Put(c: Config, s: Setting, v: Value): Config
    requires HasKind(v, KindOf(s))
  {
    match s
    case DeviceId => c.(deviceId := v.text)
    case WifiSsid => c.(wifiSsid := v.text)
    case WifiPass => c.(wifiPassword := v.text)
    case BackendUrl => c.(backendUrl := v.text)
    case BackendBearer => c.(backendBearerToken := v.text)
    case MqttBroker => c.(mqttBrokerUrl := v.text)
    case MqttPass => c.(mqttBrokerPassword := v.text)
    case HbEnable => c.(mqttHeartbeatEnable := v.on)
    case HbInterval => c.(mqttHeartbeatIntervalSec := v.n)
    case AudioTimeout => c.(audioRecordTimeoutSec := v.n)
    case LockTimeout => c.(lockTimeoutMs := v.n)
    case PairingTimeout => c.(pairingTimeoutSec := v.n)
    case UserId => c.(userId := v.text)
    case PairingMode => c.(pairingMode := v.on)
    case VoiceEnable => c.(voiceDetectionEnable := v.on)
    case VadRms => c.(vadRmsThreshold := v.n)
  }

  // Setting `s` to `v`: only the RAM copy of the pairing mode is left alone.
  function Assign(st: State, s: Setting, slot: string, v: Value, commit: bool): State
    requires HasKind(v, KindOf(s))
  {
    var store := st.store[slot := Encode(v)];
    Publish(
      st.(config := if s == PairingMode then st.config else Put(st.config, s, v),
          store := store,
          committed := if commit then store else st.committed),
      if commit then CONFIG_UPDATED else COMMIT_CONFIG_FAILED)
  }

  function Update(st: State, key: string, value: string, io: Io): State {
    match SettingOf(key)
    case None => Publish(st, INVALID_CONFIG_KEY)
    case Some(s) => UpdateSetting(st, s, WriteSlot(s, key), Parse(s, value), io)
  }

  function UpdateSetting(st: State, s: Setting, slot: string, v: Value, io: Io): State
    requires HasKind(v, KindOf(s))
  {
    if !io.opens then Publish(st, NVM_OPEN_FAILED)
    else if Get(st.config, s) == v then Publish(st, CONFIG_UPDATED)
    else if !io.writes then Publish(st, UPDATE_CONFIG_FAILED)
    else Assign(st, s, slot, v, io.commits)
  }

  // What nvs_flash_erase makes of the flash.
  datatype Erase = Erased | NoSuch | OtherError(left: Nvs)

  // FLASH: the store is empty and the configuration in RAM stays.
  function EraseStore(st: State, erase: Erase): State {
    match erase
    case Erased => Publish(st.(store := map[], committed := map[]), NVS_ERASED)
    case NoSuch => Publish(st, NVS_ERASE_FAILED_NO_SUCH)
    case OtherError(left) => Publish(st.(store := left, committed := left), NVS_ERASE_FAILED_UNKNOWN_ERROR)
  }

  // ---- Cache agreement ----

  // RAM equals what a fresh load of the open store would read.
  ghost predicate Agrees(st: State, d: Provisioned) {
    forall s: Setting :: s != PairingMode ==> Get(st.config, s) == Read(st.store, d, s)
  }

  lemma SlotsDiffer(s: Setting, t: Setting)
    requires s != t
    ensures Slot(s) != Slot(t)
  {
  }

  lemma PutFrame(c: Config, s: Setting, v: Value, t: Setting)
    requires HasKind(v, KindOf(s))
    ensures Get(Put(c, s, v), t) == if t == s then v else Get(c, t)
  {
  }

  // A string key spelled unlike its slot is written where no load will look for it.
  predicate Misspelled(st: State, key: string, value: string, io: Io) {
    && SettingOf(key).Some? && io.opens && io.writes
    && var s := SettingOf(key).value;
       StoredAsSpelled(s) && key != Slot(s) && Get(st.config, s) != Text(value)
  }

  lemma ReadFrame(store: Nvs, d: Provisioned, slot: string, v: NvsValue, t: Setting)
    requires slot != Slot(t)
    ensures Read(store[slot := v], d, t) == Read(store, d, t)
  {
  }

  lemma ReadBack(store: Nvs, d: Provisioned, s: Setting, value: string)
    requires Fits(s, value)
    ensures Read(store[Slot(s) := Encode(Parse(s, value))], d, s) == Parse(s, value)
  {
  }

  lemma AssignStore(store: Nvs, d: Provisioned, s: Setting, value: string, t: Setting)
    requires s != DeviceId && Fits(s, value)
    ensures Read(store[Slot(s) := Encode(Parse(s, value))], d, t) == if t == s then Parse(s, value) else Read(store, d, t)
  {
    if t == s {
      ReadBack(store, d, s, value);
    } else {
      SlotsDiffer(s, t);
      ReadFrame(store, d, Slot(s), Encode(Parse(s, value)), t);
    }
  }

  // What one successful assignment changes: one setting in RAM, one slot in the store.
  lemma AssignFrame(st: State, d: Provisioned, key: string, value: string, s: Setting, io: Io, t: Setting)
    requires SettingOf(key) == Some(s) && Fits(s, value) && (StoredAsSpelled(s) ==> key == Slot(s))
    requires io.opens && io.writes && Get(st.config, s) != Parse(s, value)
    ensures var st' := Update(st, key, value, io);
      && Get(st'.config, t) == (if t == s && s != PairingMode then Parse(s, value) else Get(st.config, t))
      && Read(st'.store, d, t) == (if t == s then Parse(s, value) else Read(st.store, d, t))
  {
    PutFrame(st.config, s, Parse(s, value), t);
    AssignStore(st.store, d, s, value, t);
    var st' := Update(st, key, value, io);
    assert st' == Assign(st, s, Slot(s), Parse(s, value), io.commits);
  }

  // Agreement survives an update if and only if the key is not misspelled, whichever of
  // the NVS calls fail.
  lemma UpdateKeepsAgreement(st: State, d: Provisioned, key: string, value: string, io: Io)
    requires Agrees(st, d) && (SettingOf(key).Some? ==> Fits(SettingOf(key).value, value))
    ensures Agrees(Update(st, key, value, io), d) <==> !Misspelled(st, key, value, io)
  {
    var st' := Update(st, key, value, io);
    if SettingOf(key).Some? && io.opens && io.writes && Get(st.config, SettingOf(key).value) != Parse(SettingOf(key).value, value) {
      var s := SettingOf(key).value;
      if Misspelled(st, key, value, io) {
        ReadFrame(st.store, d, key, Encode(Parse(s, value)), s);
        PutFrame(st.config, s, Parse(s, value), s);
        assert Get(st'.config, s) != Read(st'.store, d, s);
      } else {
        forall t: Setting | t != PairingMode ensures Get(st'.config, t) == Read(st'.store, d, t) {
          AssignFrame(st, d, key, value, s, io, t);
        }
      }
    }
  }

  datatype Request = Request(key: string, value: string, io: Io)

  // Lower-case string keys, and values that fit.
  predicate Proper(r: Request) {
    match SettingOf(r.key)
    case None => true
    case Some(s) => Fits(s, r.value) && (StoredAsSpelled(s) ==> r.key == Slot(s))
  }

  function UpdateAll(st: State, rs: seq<Request>): State {
    if rs == [] then st
    else var r := rs[|rs| - 1]; Update(UpdateAll(st, rs[..|rs| - 1]), r.key, r.value, r.io)
  }

  predicate Durable(st: State) { st.committed == st.store }

  // Over any sequence of updates RAM never drifts from the store, and the store never
  // drifts from what survives a power cycle unless a commit fails after its write.
  lemma {:induction false} CacheAgreement(st: State, d: Provisioned, rs: seq<Request>)
    requires Agrees(st, d) && forall i :: 0 <= i < |rs| ==> Proper(rs[i])
    ensures Agrees(UpdateAll(st, rs), d)
    ensures Durable(st) && (forall i :: 0 <= i < |rs| ==> rs[i].io.writes ==> rs[i].io.commits) ==> Durable(UpdateAll(st, rs))
  {
    if rs != [] {
      var r := rs[|rs| - 1];
      CacheAgreement(st, d, rs[..|rs| - 1]);
      UpdateKeepsAgreement(UpdateAll(st, rs[..|rs| - 1]), d, r.key, r.value, r.io);
    }
  }

  // ---- Power cycles ----

  function Lookup(store: Nvs, slot: string): Option<NvsValue> {
    if slot in store then Some(store[slot]) else None
  }

  // After a power cycle each slot holds its committed value or its last written one.
  ghost predicate Survives(st: State, store: Nvs) {
    forall slot: string :: Lookup(store, slot) == Lookup(st.store, slot) || Lookup(store, slot) == Lookup(st.committed, slot)
  }

  // The next boot reads exactly the settings that were in force.
  lemma NextBootAgrees(st: State, d: Provisioned, store: Nvs)
    requires Agrees(st, d) && Durable(st) && Survives(st, store)
    ensures forall s: Setting :: s != PairingMode ==> Read(store, d, s) == Get(st.config, s)
  {
    forall s: Setting | s != PairingMode ensures Read(store, d, s) == Get(st.config, s) {
      assert Lookup(store, Slot(s)) == Lookup(st.store, Slot(s));
    }
  }

  predicate Acknowledged(st: State, st': State) {
    st'.sent == st.sent + [CONFIG_UPDATED]
  }

  // An acknowledged update is in RAM and in the open store; it is also committed if
  // nothing was left uncommitted before it.
  lemma AcknowledgedHolds(st: State, d: Provisioned, key: string, value: string, io: Io)
    requires Agrees(st, d) && Proper(Request(key, value, io))
    requires SettingOf(key).Some? && SettingOf(key).value != PairingMode
    requires Acknowledged(st, Update(st, key, value, io))
    ensures var st', s := Update(st, key, value, io), SettingOf(key).value;
      && Get(st'.config, s) == Parse(s, value) == Read(st'.store, d, s)
      && (Durable(st) ==> Durable(st'))
  {
    var st', s := Update(st, key, value, io), SettingOf(key).value;
    UpdateKeepsAgreement(st, d, key, value, io);
    assert st'.sent[|st.sent|] == CONFIG_UPDATED;
    if Get(st.config, s) != Parse(s, value) { AssignFrame(st, d, key, value, s, io, s); }
  }

  // Without that condition an acknowledgement promises nothing about the flash: after a
  // failed commit, asking again is acknowledged without a new write.
  lemma RetryIsNotCommitted(st: State, key: string, value: string, io: Io)
    requires SettingOf(key).Some? && st.mqttUp && io.opens
    requires var s := SettingOf(key).value; s != PairingMode && Get(st.config, s) != Parse(s, value)
    ensures var st1 := Update(st, key, value, Io(true, true, false)); var st2 := Update(st1, key, value, io);
      && st1.sent == st.sent + [COMMIT_CONFIG_FAILED] && Acknowledged(st1, st2)
      && st2.committed == st.committed
      && Lookup(st2.store, WriteSlot(SettingOf(key).value, key)) == Some(Encode(Parse(SettingOf(key).value, value)))
  {
    var s := SettingOf(key).value;
    PutFrame(st.config, s, Parse(s, value), s);
  }

  // What a load may do: every setting takes its stored value or its default, defaults may
  // be written back, and no later load can tell.
  ghost predicate Loaded(before: State, d: Provisioned, opens: bool, commits: bool, after: State) {
    && (forall s: Setting :: Get(after.config, s) == if opens then Read(before.store, d, s) else Default(d, s))
    && (forall s: Setting :: Read(after.store, d, s) == Read(before.store, d, s))
    && after.committed == (if opens && commits then after.store else before.committed)
    && after.mqttUp == before.mqttUp && after.sent == before.sent
  }

  lemma LoadAgrees(before: State, d: Provisioned, commits: bool, after: State)
    requires Loaded(before, d, true, commits, after)
    ensures Agrees(after, d)
  {
  }

  // ---- The firmware's own code ----

  predicate ProvisionedFits(d: Provisioned) {
    && |d.deviceId| < 64 && |d.wifiSsid| < 32 && |d.wifiPassword| < 64
    && |d.backendUrl| < 256 && |d.mqttBrokerUrl| < 256
  }

  const IDENTITY: set<Setting> := {DeviceId, WifiSsid, WifiPass}
  const NETWORK: set<Setting> := {DeviceId, WifiSsid, WifiPass, BackendUrl, BackendBearer, MqttBroker, MqttPass}
  const HEARTBEAT: set<Setting> := {HbEnable, HbInterval}
  const TIMING: set<Setting> := {HbEnable, HbInterval, AudioTimeout, LockTimeout, PairingTimeout}
  const USER: set<Setting> := {UserId, PairingMode, VoiceEnable, VadRms}

  lemma AllSettings()
    ensures forall s: Setting :: s in NETWORK + TIMING + USER
  {
    forall s: Setting ensures s in NETWORK + TIMING + USER {
      match s
      case DeviceId => case WifiSsid => case WifiPass => case BackendUrl => case BackendBearer => case MqttBroker =>
      case MqttPass => case HbEnable => case HbInterval => case AudioTimeout => case LockTimeout =>
      case PairingTimeout => case UserId => case PairingMode => case VoiceEnable => case VadRms =>
    }
  }

  lemma HasDefault(d: Provisioned, s: Setting)
    ensures HasKind(Default(d, s), KindOf(s))
  {
  }

  // What a load leaves in RAM for a setting.
  function Expected(store: Nvs, d: Provisioned, opens: bool, s: Setting): Value {
    if opens then Read(store, d, s) else Default(d, s)
  }

  ghost predicate Holds(c: Config, done: set<Setting>, store: Nvs, d: Provisioned, opens: bool) {
    forall s: Setting :: s in done ==> Get(c, s) == Expected(store, d, opens, s)
  }

  ghost predicate SameReads(a: Nvs, b: Nvs, d: Provisioned) { forall s: Setting :: Read(a, d, s) == Read(b, d, s) }

  lemma HoldsMore(c: Config, done: set<Setting>, store: Nvs, d: Provisioned, opens: bool, s: Setting, v: Value)
    requires Holds(c, done, store, d, opens) && HasKind(v, KindOf(s)) && v == Expected(store, d, opens, s)
    ensures Holds(Put(c, s, v), done + {s}, store, d, opens)
  {
    forall t: Setting | t in done + {s} ensures Get(Put(c, s, v), t) == Expected(store, d, opens, t) {
      PutFrame(c, s, v, t);
    }
  }

  // Writing a default into a slot that could not be read changes no later load.
  lemma DefaultReadsBack(store: Nvs, d: Provisioned, s: Setting)
    requires ProvisionedFits(d) && Read(store, d, s) == Default(d, s)
    ensures SameReads(store[Slot(s) := Encode(Default(d, s))], store, d)
  {
    forall t: Setting | t != s
      ensures Read(store[Slot(s) := Encode(Default(d, s))], d, t) == Read(store, d, t)
    {
      SlotsDiffer(s, t);
    }
  }

  // What a load finds in the slot of a setting: an entry of its type that fits.
  function Find(store: Nvs, s: Setting): Option<Value> {
    match KindOf(s)
    case TextOf(capacity) =>
      (match ReadStr(store, Slot(s), capacity) case Some(t) => Some(Text(t)) case None => None)
    case FlagKind => (match ReadU8(store, Slot(s)) case Some(b) => Some(Flag(b != 0)) case None => None)
    case NumberKind => (match ReadI32(store, Slot(s)) case Some(n) => Some(Number(n)) case None => None)
  }

  // The entry of a slot after the load of its setting: the default where nothing was found
  // and the write succeeded, and otherwise what it was.
  function Entry(store: Nvs, d: Provisioned, opens: bool, writes: set<Setting>, s: Setting): Option<NvsValue> {
    if opens && s in writes && Find(store, s).None? then Some(Encode(Default(d, s))) else Lookup(store, Slot(s))
  }

  ghost predicate StoredSoFar(store: Nvs, done: set<Setting>, store0: Nvs, d: Provisioned, opens: bool, writes: set<Setting>) {
    && (forall s: Setting :: s in done ==> Lookup(store, Slot(s)) == Entry(store0, d, opens, writes, s))
    && (forall slot: string :: (forall s: Setting :: s in done ==> slot != Slot(s)) ==> Lookup(store, slot) == Lookup(store0, slot))
  }

  lemma StoresMore(store: Nvs, done: set<Setting>, store0: Nvs, d: Provisioned, opens: bool, writes: set<Setting>, s: Setting,
                   store': Nvs)
    requires StoredSoFar(store, done, store0, d, opens, writes) && ProvisionedFits(d)
    requires store' == if opens && s in writes && Find(store, s).None? then store[Slot(s) := Encode(Default(d, s))] else store
    ensures StoredSoFar(store', done + {s}, store0, d, opens, writes)
  {
    forall t: Setting | t != s ensures Slot(t) != Slot(s) {
      SlotsDiffer(s, t);
    }
    if Lookup(store, Slot(s)) == Lookup(store0, Slot(s)) {
      FindByEntry(store, store0, s);
    } else {
      DefaultIsFound(store, d, s);
    }
  }

  lemma DefaultIsFound(store: Nvs, d: Provisioned, s: Setting)
    requires ProvisionedFits(d) && Lookup(store, Slot(s)) == Some(Encode(Default(d, s)))
    ensures Find(store, s).Some?
  {
  }

  lemma FindByEntry(a: Nvs, b: Nvs, s: Setting)
    requires Lookup(a, Slot(s)) == Lookup(b, Slot(s))
    ensures Find(a, s) == Find(b, s)
  {
  }

  class Device {
    var config: Config
    var store: Nvs
    var committed: Nvs
    var mqttUp: bool
    var sent: seq<Status>

    ghost function View(): State
      reads this
    {
      State(config, store, committed, mqttUp, sent)
    }

    constructor (config: Config, store: Nvs)
      ensures View() == State(config, store, store, false, [])
    {
      this.config, this.store, this.committed := config, store, store;
      mqttUp, sent := false, [];
    }

    // ---- Loading ----

    // Loaded settings hold what the store had, and the store still reads the same for
    // every setting.
    ghost predicate LoadedSoFar(done: set<Setting>, store0: Nvs, d: Provisioned, opens: bool, writes: set<Setting>)
      reads this
    {
      && Holds(config, done, store0, d, opens) && SameReads(store, store0, d)
      && StoredSoFar(store, done, store0, d, opens, writes)
    }

    // The read of one slot, by the type of its setting.
    method TryRead(s: Setting, ghost d: Provisioned) returns (found: Option<Value>)
      ensures found.Some? ==> HasKind(found.value, KindOf(s)) && Read(store, d, s) == found.value
      ensures found.None? ==> Read(store, d, s) == Default(d, s)
      ensures found == Find(store, s)
    {
      match KindOf(s)
      case TextOf(capacity) =>
        var text := ReadStr(store, Slot(s), capacity);
        found := if text.Some? then Some(Text(text.value)) else None;
      case FlagKind =>
        var byte := ReadU8(store, Slot(s));
        found := if byte.Some? then Some(Flag(byte.value != 0)) else None;
      case NumberKind =>
        var word := ReadI32(store, Slot(s));
        found := if word.Some? then Some(Number(word.value)) else None;
    }

    // One block of load_config_from_nvs: read the slot, or take the default and try to
    // write it back; a failed write back is ignored.
    method LoadSetting(s: Setting, d: Provisioned, opens: bool, writes: set<Setting>, ghost done: set<Setting>, ghost store0: Nvs)
      requires ProvisionedFits(d) && LoadedSoFar(done, store0, d, opens, writes)
      modifies this`config, this`store
      ensures LoadedSoFar(done + {s}, store0, d, opens, writes)
    {
      ghost var config0, store1 := config, store;
      var found: Option<Value> := None;
      if opens {
        found := TryRead(s, d);
      }
      if found.Some? {
        config := Put(config, s, found.value);
        HoldsMore(config0, done, store0, d, opens, s, found.value);
      } else {
        HasDefault(d, s);
        config := Put(config, s, Default(d, s));
        HoldsMore(config0, done, store0, d, opens, s, Default(d, s));
        if opens && s in writes {
          DefaultReadsBack(store, d, s);
          store := store[Slot(s) := Encode(Default(d, s))];
        }
      }
      StoresMore(store1, done, store0, d, opens, writes, s, store);
    }

    method LoadConfigFromNvs(d: Provisioned, opens: bool, writes: set<Setting>, commits: bool)
      requires ProvisionedFits(d)
      modifies this`config, this`store, this`committed
      ensures Loaded(old(View()), d, opens, commits, View())
      ensures forall s: Setting ::
        Lookup(store, Slot(s)) == if opens && s in writes && Find(old(store), s).None? then Some(Encode(Default(d, s)))
                                  else Lookup(old(store), Slot(s))
      ensures forall slot: string :: (forall s: Setting :: slot != Slot(s)) ==> Lookup(store, slot) == Lookup(old(store), slot)
    {
      ghost var store0 := store;
      LoadIdentity(d, opens, writes, store0);
      LoadServers(d, opens, writes, store0);
      LoadHeartbeat(d, opens, writes, store0);
      LoadTimeouts(d, opens, writes, store0);
      LoadUser(d, opens, writes, store0);
      if opens && commits {
        committed := store;
      }
      AllSettings();
    }

    method LoadIdentity(d: Provisioned, opens: bool, writes: set<Setting>, ghost store0: Nvs)
      requires ProvisionedFits(d) && store == store0
      modifies this`config, this`store
      ensures LoadedSoFar(IDENTITY, store0, d, opens, writes)
    {
      ghost var done: set<Setting> := {};
      LoadSetting(DeviceId, d, opens, writes, done, store0);
      done := done + {DeviceId};
      LoadSetting(WifiSsid, d, opens, writes, done, store0);
      done := done + {WifiSsid};
      LoadSetting(WifiPass, d, opens, writes, done, store0);
      done := done + {WifiPass};
      assert done == IDENTITY;
    }

    method LoadServers(d: Provisioned, opens: bool, writes: set<Setting>, ghost store0: Nvs)
      requires ProvisionedFits(d) && LoadedSoFar(IDENTITY, store0, d, opens, writes)
      modifies this`config, this`store
      ensures LoadedSoFar(NETWORK, store0, d, opens, writes)
    {
      ghost var done := IDENTITY;
      LoadSetting(BackendUrl, d, opens, writes, done, store0);
      done := done + {BackendUrl};
      LoadSetting(BackendBearer, d, opens, writes, done, store0);
      done := done + {BackendBearer};
      LoadSetting(MqttBroker, d, opens, writes, done, store0);
      done := done + {MqttBroker};
      LoadSetting(MqttPass, d, opens, writes, done, store0);
      done := done + {MqttPass};
      assert done == NETWORK;
    }

    method LoadHeartbeat(d: Provisioned, opens: bool, writes: set<Setting>, ghost store0: Nvs)
      requires ProvisionedFits(d) && LoadedSoFar(NETWORK, store0, d, opens, writes)
      modifies this`config, this`store
      ensures LoadedSoFar(NETWORK + HEARTBEAT, store0, d, opens, writes)
    {
      ghost var done := NETWORK;
      LoadSetting(HbEnable, d, opens, writes, done, store0);
      done := done + {HbEnable};
      LoadSetting(HbInterval, d, opens, writes, done, store0);
      done := done + {HbInterval};
      assert done == NETWORK + HEARTBEAT;
    }

    method LoadTimeouts(d: Provisioned, opens: bool, writes: set<Setting>, ghost store0: Nvs)
      requires ProvisionedFits(d) && LoadedSoFar(NETWORK + HEARTBEAT, store0, d, opens, writes)
      modifies this`config, this`store
      ensures LoadedSoFar(NETWORK + TIMING, store0, d, opens, writes)
    {
      ghost var done := NETWORK + HEARTBEAT;
      LoadSetting(AudioTimeout, d, opens, writes, done, store0);
      done := done + {AudioTimeout};
      LoadSetting(LockTimeout, d, opens, writes, done, store0);
      done := done + {LockTimeout};
      LoadSetting(PairingTimeout, d, opens, writes, done, store0);
      done := done + {PairingTimeout};
      assert done == NETWORK + TIMING;
    }

    method LoadUser(d: Provisioned, opens: bool, writes: set<Setting>, ghost store0: Nvs)
      requires ProvisionedFits(d) && LoadedSoFar(NETWORK + TIMING, store0, d, opens, writes)
      modifies this`config, this`store
      ensures LoadedSoFar(NETWORK + TIMING + USER, store0, d, opens, writes)
    {
      ghost var done := NETWORK + TIMING;
      LoadSetting(UserId, d, opens, writes, done, store0);
      done := done + {UserId};
      LoadSetting(PairingMode, d, opens, writes, done, store0);
      done := done + {PairingMode};
      LoadSetting(VoiceEnable, d, opens, writes, done, store0);
      done := done + {VoiceEnable};
      LoadSetting(VadRms, d, opens, writes, done, store0);
      done := done + {VadRms};
      assert done == NETWORK + TIMING + USER;
    }

    // ---- Updating ----

    method MqttPublishStatus(status: Status)
      modifies this`sent
      ensures View() == Publish(old(View()), status)
    {
      if mqttUp {
        sent := sent + [status];
      }
    }

    method EraseNvs(erase: Erase)
      modifies this
      ensures View() == EraseStore(old(View()), erase)
    {
      match erase {
        case Erased =>
          store, committed := map[], map[];
          MqttPublishStatus(NVS_ERASED);
        case NoSuch => MqttPublishStatus(NVS_ERASE_FAILED_NO_SUCH);
        case OtherError(left) =>
          store, committed := left, left;
          MqttPublishStatus(NVS_ERASE_FAILED_UNKNOWN_ERROR);
      }
    }

    // The first chain of comparisons: does the value differ from the RAM copy?
    method NeedsUpdate(s: Setting, value: string) returns (needsUpdate: bool)
      requires s != DeviceId
      ensures needsUpdate <==> Get(config, s) != Parse(s, value)
    {
      match s
      case WifiSsid => needsUpdate := config.wifiSsid != value;
      case WifiPass => needsUpdate := config.wifiPassword != value;
      case BackendUrl => needsUpdate := config.backendUrl != value;
      case BackendBearer => needsUpdate := config.backendBearerToken != value;
      case MqttBroker => needsUpdate := config.mqttBrokerUrl != value;
      case MqttPass => needsUpdate := config.mqttBrokerPassword != value;
      case HbEnable => needsUpdate := config.mqttHeartbeatEnable != (Atoi(value) != 0);
      case HbInterval => needsUpdate := config.mqttHeartbeatIntervalSec != Atoi(value);
      case AudioTimeout => needsUpdate := config.audioRecordTimeoutSec != Atoi(value);
      case LockTimeout => needsUpdate := config.lockTimeoutMs != Atoi(value);
      case PairingTimeout => needsUpdate := config.pairingTimeoutSec != Atoi(value);
      case UserId => needsUpdate := config.userId != value;
      case PairingMode => needsUpdate := config.pairingMode != (Atoi(value) != 0);
      case VoiceEnable => needsUpdate := config.voiceDetectionEnable != (Atoi(value) != 0);
      case VadRms => needsUpdate := config.vadRmsThreshold != Atoi(value);
    }

    // The second chain: write the slot, then the RAM copy, except for the pairing mode.
    method WriteSetting(s: Setting, key: string, value: string)
      requires s != DeviceId
      modifies this`config, this`store
      ensures store == old(store)[WriteSlot(s, key) := Encode(Parse(s, value))]
      ensures config == if s == PairingMode then old(config) else Put(old(config), s, Parse(s, value))
    {
      match s {
        case WifiSsid =>
          store, config := store[key := Str(value)], config.(wifiSsid := value);
        case WifiPass =>
          store, config := store[key := Str(value)], config.(wifiPassword := value);
        case BackendUrl =>
          store, config := store[key := Str(value)], config.(backendUrl := value);
        case BackendBearer =>
          store, config := store[key := Str(value)], config.(backendBearerToken := value);
        case MqttBroker =>
          store, config := store[key := Str(value)], config.(mqttBrokerUrl := value);
        case MqttPass =>
          store, config := store[key := Str(value)], config.(mqttBrokerPassword := value);
        case HbEnable =>
          var enableVal := Atoi(value) != 0;
          store := store["mqtt_hb_enable" := U8(if enableVal then 1 else 0)];
          config := config.(mqttHeartbeatEnable := enableVal);
        case HbInterval =>
          store := store["hb_interval" := I32(Atoi(value))];
          config := config.(mqttHeartbeatIntervalSec := Atoi(value));
        case AudioTimeout =>
          store := store["audio_timeout" := I32(Atoi(value))];
          config := config.(audioRecordTimeoutSec := Atoi(value));
        case LockTimeout =>
          store := store["lock_timeout" := I32(Atoi(value))];
          config := config.(lockTimeoutMs := Atoi(value));
        case PairingTimeout =>
          store := store["pairing_timeout" := I32(Atoi(value))];
          config := config.(pairingTimeoutSec := Atoi(value));
        case UserId =>
          store, config := store["user_id" := Str(value)], config.(userId := value);
        case PairingMode =>
          store := store["pairing_mode" := U8(if Atoi(value) != 0 then 1 else 0)];
        case VoiceEnable =>
          var voiceVal := Atoi(value) != 0;
          store := store["voice_en" := U8(if voiceVal then 1 else 0)];
          config := config.(voiceDetectionEnable := voiceVal);
        case VadRms =>
          store := store["vad_rms" := I32(Atoi(value))];
          config := config.(vadRmsThreshold := Atoi(value));
      }
    }

    // update_config. Only a value that is about to be copied into RAM must fit its field.
    method UpdateConfig(key: string, value: string, io: Io)
      requires SettingOf(key).Some? && Copies(View(), SettingOf(key).value, value, io) ==> Fits(SettingOf(key).value, value)
      modifies this
      ensures View() == Update(old(View()), key, value, io)
    {
      var setting := SettingOf(key);
      if setting.Some? {
        var s := setting.value;
        if io.opens {
          var needsUpdate := NeedsUpdate(s, value);
          if needsUpdate {
            if io.writes {
              WriteSetting(s, key, value);
              if io.commits {
                committed := store;
                MqttPublishStatus(CONFIG_UPDATED);
              } else {
                MqttPublishStatus(COMMIT_CONFIG_FAILED);
              }
            } else {
              MqttPublishStatus(UPDATE_CONFIG_FAILED);
            }
          } else {
            MqttPublishStatus(CONFIG_UPDATED);
          }
        } else {
          MqttPublishStatus(NVM_OPEN_FAILED);
        }
      } else {
        MqttPublishStatus(INVALID_CONFIG_KEY);
      }
    }
  }
}
