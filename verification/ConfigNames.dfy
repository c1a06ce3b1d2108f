// The keys of the configuration by name: which field and which NVS slot each stands for,
// in whatever case it is spelled.
module ConfigNames {
  import opened Wrappers
  import opened CStrings
  import opened ConfigStore

  // ---- Loading ----

  function TextAt(store: Nvs, slot: string, size: nat, default: string): string {
    if slot in store && store[slot].Str? && |store[slot].text| < size then store[slot].text else default
  }

  function FlagAt(store: Nvs, slot: string, default: bool): bool {
    if slot in store && store[slot].U8? then store[slot].byte != 0 else default
  }

  function NumberAt(store: Nvs, slot: string, default: int): int {
    if slot in store && store[slot].I32? then store[slot].word else default
  }

  lemma LoadedField(before: State, d: Provisioned, opens: bool, commits: bool, after: State, s: Setting)
    requires Loaded(before, d, opens, commits, after)
    ensures Get(after.config, s) == Read(if opens then before.store else map[], d, s)
  {
  }

  // Every field after a load: what its slot holds, or its default.
  lemma LoadedTexts(before: State, d: Provisioned, opens: bool, commits: bool, after: State)
    requires Loaded(before, d, opens, commits, after)
    ensures var c, store := after.config, if opens then before.store else map[];
      && c.deviceId == TextAt(store, "device_id", 64, d.deviceId)
      && c.wifiSsid == TextAt(store, "wifi_ssid", 32, d.wifiSsid)
      && c.wifiPassword == TextAt(store, "wifi_pass", 64, d.wifiPassword)
      && c.backendUrl == TextAt(store, "backend_url", 256, d.backendUrl)
      && c.backendBearerToken == TextAt(store, "backend_bearer", 256, "")
      && c.mqttBrokerUrl == TextAt(store, "mqtt_broker", 256, d.mqttBrokerUrl)
      && c.mqttBrokerPassword == TextAt(store, "mqtt_pass", 256, "")
      && c.userId == TextAt(store, "user_id", 256, "")
  {
    LoadedField(before, d, opens, commits, after, DeviceId);
    LoadedField(before, d, opens, commits, after, WifiSsid);
    LoadedField(before, d, opens, commits, after, WifiPass);
    LoadedField(before, d, opens, commits, after, BackendUrl);
    LoadedField(before, d, opens, commits, after, BackendBearer);
    LoadedField(before, d, opens, commits, after, MqttBroker);
    LoadedField(before, d, opens, commits, after, MqttPass);
    LoadedField(before, d, opens, commits, after, UserId);
  }

  lemma LoadedFlags(before: State, d: Provisioned, opens: bool, commits: bool, after: State)
    requires Loaded(before, d, opens, commits, after)
    ensures var c, store := after.config, if opens then before.store else map[];
      && c.mqttHeartbeatEnable == FlagAt(store, "mqtt_hb_enable", d.heartbeatEnable)
      && c.pairingMode == FlagAt(store, "pairing_mode", false)
      && c.voiceDetectionEnable == FlagAt(store, "voice_en", true)
  {
    LoadedField(before, d, opens, commits, after, HbEnable);
    LoadedField(before, d, opens, commits, after, PairingMode);
    LoadedField(before, d, opens, commits, after, VoiceEnable);
  }

  lemma LoadedNumbers(before: State, d: Provisioned, opens: bool, commits: bool, after: State)
    requires Loaded(before, d, opens, commits, after)
    ensures var c, store := after.config, if opens then before.store else map[];
      && c.mqttHeartbeatIntervalSec == NumberAt(store, "hb_interval", d.heartbeatIntervalSec)
      && c.audioRecordTimeoutSec == NumberAt(store, "audio_timeout", d.audioRecordTimeoutSec)
      && c.lockTimeoutMs == NumberAt(store, "lock_timeout", d.lockTimeoutMs)
      && c.pairingTimeoutSec == NumberAt(store, "pairing_timeout", d.pairingTimeoutSec)
      && c.vadRmsThreshold == NumberAt(store, "vad_rms", 1000)
  {
    LoadedField(before, d, opens, commits, after, HbInterval);
    LoadedField(before, d, opens, commits, after, AudioTimeout);
    LoadedField(before, d, opens, commits, after, LockTimeout);
    LoadedField(before, d, opens, commits, after, PairingTimeout);
    LoadedField(before, d, opens, commits, after, VadRms);
  }

  // ---- Updating ----

  // The comparisons of the key with each name in turn.
  function Named(name: string): Option<Setting> {
    if name == "wifi_ssid" then Some(WifiSsid)
    else if name == "wifi_pass" then Some(WifiPass)
    else if name == "backend_url" then Some(BackendUrl)
    else if name == "backend_bearer" then Some(BackendBearer)
    else if name == "mqtt_broker" then Some(MqttBroker)
    else if name == "mqtt_pass" then Some(MqttPass)
    else if name == "mqtt_hb_enable" then Some(HbEnable)
    else if name == "mqtt_hb_interval" then Some(HbInterval)
    else if name == "audio_timeout" then Some(AudioTimeout)
    else if name == "lock_timeout" then Some(LockTimeout)
    else if name == "pairing_timeout" then Some(PairingTimeout)
    else if name == "user_id" then Some(UserId)
    else if name == "pairing_mode" then Some(PairingMode)
    else if name == "voice_detection_enable" then Some(VoiceEnable)
    else if name == "vad_rms_threshold" then Some(VadRms)
    else if name == "vad_rms" then Some(VadRms)
    else None
  }

  lemma LowerNames()
    ensures Lower("wifi_ssid") == "wifi_ssid"
    ensures Lower("wifi_pass") == "wifi_pass"
    ensures Lower("backend_url") == "backend_url"
    ensures Lower("backend_bearer") == "backend_bearer"
    ensures Lower("mqtt_broker") == "mqtt_broker"
    ensures Lower("mqtt_pass") == "mqtt_pass"
    ensures Lower("mqtt_hb_enable") == "mqtt_hb_enable"
    ensures Lower("mqtt_hb_interval") == "mqtt_hb_interval"
  {
  }

  lemma LowerOtherNames()
    ensures Lower("audio_timeout") == "audio_timeout"
    ensures Lower("lock_timeout") == "lock_timeout"
    ensures Lower("pairing_timeout") == "pairing_timeout"
    ensures Lower("user_id") == "user_id"
    ensures Lower("pairing_mode") == "pairing_mode"
    ensures Lower("voice_detection_enable") == "voice_detection_enable"
    ensures Lower("vad_rms_threshold") == "vad_rms_threshold"
    ensures Lower("vad_rms") == "vad_rms"
  {
  }

  lemma SettingIsNamed(key: string)
    ensures SettingOf(key) == Named(Lower(key))
  {
    LowerNames();
    LowerOtherNames();
  }

  lemma KeyGives(key: string, name: string, s: Setting)
    requires Lower(key) == name && Named(name) == Some(s)
    ensures SettingOf(key) == Some(s)
  {
    SettingIsNamed(key);
  }

  // What an update does, given the field it would leave, the slot it writes and what, and
  // whether the value is in force already.
  predicate Does(st: State, st': State, config: Config, slot: string, entry: NvsValue, same: bool, io: Io) {
    var writes := io.opens && !same && io.writes;
    && st'.mqttUp == st.mqttUp
    && st'.config == (if writes then config else st.config)
    && st'.store == (if writes then st.store[slot := entry] else st.store)
    && st'.committed == (if writes && io.commits then st'.store else st.committed)
    && st'.sent == st.sent + (if st.mqttUp then [Answer(same, io)] else [])
  }

  function Answer(same: bool, io: Io): Status {
    if !io.opens then NVM_OPEN_FAILED
    else if same then CONFIG_UPDATED
    else if !io.writes then UPDATE_CONFIG_FAILED
    else if !io.commits then COMMIT_CONFIG_FAILED
    else CONFIG_UPDATED
  }

  lemma SettingDoes(st: State, s: Setting, slot: string, v: Value, io: Io)
    requires HasKind(v, KindOf(s))
    ensures Does(st, UpdateSetting(st, s, slot, v, io), if s == PairingMode then st.config else Put(st.config, s, v), slot,
                 Encode(v), Get(st.config, s) == v, io)
  {
  }

  // The same by the name of the key.
  predicate Written(st: State, key: string, value: string, io: Io, config: Config, slot: string, entry: NvsValue, same: bool) {
    Does(st, Update(st, key, value, io), config, slot, entry, same, io)
  }

  lemma UpdateDoes(st: State, key: string, value: string, io: Io, s: Setting, config: Config, slot: string, entry: NvsValue,
                   same: bool)
    requires SettingOf(key) == Some(s) && slot == WriteSlot(s, key) && entry == Encode(Parse(s, value))
    requires config == if s == PairingMode then st.config else Put(st.config, s, Parse(s, value))
    requires same <==> Get(st.config, s) == Parse(s, value)
    ensures Written(st, key, value, io, config, slot, entry, same)
  {
    SettingDoes(st, s, slot, Parse(s, value), io);
  }

  lemma KeyWifiSsid(st: State, key: string, value: string, io: Io)
    requires Lower(key) == "wifi_ssid"
    ensures Written(st, key, value, io, st.config.(wifiSsid := value), key, Str(value), st.config.wifiSsid == value)
  {
    KeyGives(key, "wifi_ssid", WifiSsid);
    UpdateDoes(st, key, value, io, WifiSsid, st.config.(wifiSsid := value), key, Str(value), st.config.wifiSsid == value);
  }

  lemma KeyWifiPass(st: State, key: string, value: string, io: Io)
    requires Lower(key) == "wifi_pass"
    ensures Written(st, key, value, io, st.config.(wifiPassword := value), key, Str(value), st.config.wifiPassword == value)
  {
    KeyGives(key, "wifi_pass", WifiPass);
    UpdateDoes(st, key, value, io, WifiPass, st.config.(wifiPassword := value), key, Str(value), st.config.wifiPassword == value);
  }

  lemma KeyBackendUrl(st: State, key: string, value: string, io: Io)
    requires Lower(key) == "backend_url"
    ensures Written(st, key, value, io, st.config.(backendUrl := value), key, Str(value), st.config.backendUrl == value)
  {
    KeyGives(key, "backend_url", BackendUrl);
    UpdateDoes(st, key, value, io, BackendUrl, st.config.(backendUrl := value), key, Str(value), st.config.backendUrl == value);
  }

  lemma KeyBackendBearer(st: State, key: string, value: string, io: Io)
    requires Lower(key) == "backend_bearer"
    ensures Written(st, key, value, io, st.config.(backendBearerToken := value), key, Str(value), st.config.backendBearerToken == value)
  {
    KeyGives(key, "backend_bearer", BackendBearer);
    UpdateDoes(st, key, value, io, BackendBearer, st.config.(backendBearerToken := value), key, Str(value), st.config.backendBearerToken == value);
  }

  lemma KeyMqttBroker(st: State, key: string, value: string, io: Io)
    requires Lower(key) == "mqtt_broker"
    ensures Written(st, key, value, io, st.config.(mqttBrokerUrl := value), key, Str(value), st.config.mqttBrokerUrl == value)
  {
    KeyGives(key, "mqtt_broker", MqttBroker);
    UpdateDoes(st, key, value, io, MqttBroker, st.config.(mqttBrokerUrl := value), key, Str(value), st.config.mqttBrokerUrl == value);
  }

  lemma KeyMqttPass(st: State, key: string, value: string, io: Io)
    requires Lower(key) == "mqtt_pass"
    ensures Written(st, key, value, io, st.config.(mqttBrokerPassword := value), key, Str(value), st.config.mqttBrokerPassword == value)
  {
    KeyGives(key, "mqtt_pass", MqttPass);
    UpdateDoes(st, key, value, io, MqttPass, st.config.(mqttBrokerPassword := value), key, Str(value), st.config.mqttBrokerPassword == value);
  }

  lemma KeyMqttHbEnable(st: State, key: string, value: string, io: Io)
    requires Lower(key) == "mqtt_hb_enable"
    ensures Written(st, key, value, io, st.config.(mqttHeartbeatEnable := Atoi(value) != 0), "mqtt_hb_enable",
                    U8(if Atoi(value) != 0 then 1 else 0), st.config.mqttHeartbeatEnable == (Atoi(value) != 0))
  {
    KeyGives(key, "mqtt_hb_enable", HbEnable);
    UpdateDoes(st, key, value, io, HbEnable, st.config.(mqttHeartbeatEnable := Atoi(value) != 0), "mqtt_hb_enable",
               U8(if Atoi(value) != 0 then 1 else 0), st.config.mqttHeartbeatEnable == (Atoi(value) != 0));
  }

  lemma KeyMqttHbInterval(st: State, key: string, value: string, io: Io)
    requires Lower(key) == "mqtt_hb_interval"
    ensures Written(st, key, value, io, st.config.(mqttHeartbeatIntervalSec := Atoi(value)), "hb_interval", I32(Atoi(value)), st.config.mqttHeartbeatIntervalSec == Atoi(value))
  {
    KeyGives(key, "mqtt_hb_interval", HbInterval);
    UpdateDoes(st, key, value, io, HbInterval, st.config.(mqttHeartbeatIntervalSec := Atoi(value)), "hb_interval", I32(Atoi(value)), st.config.mqttHeartbeatIntervalSec == Atoi(value));
  }

  lemma KeyAudioTimeout(st: State, key: string, value: string, io: Io)
    requires Lower(key) == "audio_timeout"
    ensures Written(st, key, value, io, st.config.(audioRecordTimeoutSec := Atoi(value)), "audio_timeout", I32(Atoi(value)), st.config.audioRecordTimeoutSec == Atoi(value))
  {
    KeyGives(key, "audio_timeout", AudioTimeout);
    UpdateDoes(st, key, value, io, AudioTimeout, st.config.(audioRecordTimeoutSec := Atoi(value)), "audio_timeout", I32(Atoi(value)), st.config.audioRecordTimeoutSec == Atoi(value));
  }

  lemma KeyLockTimeout(st: State, key: string, value: string, io: Io)
    requires Lower(key) == "lock_timeout"
    ensures Written(st, key, value, io, st.config.(lockTimeoutMs := Atoi(value)), "lock_timeout", I32(Atoi(value)), st.config.lockTimeoutMs == Atoi(value))
  {
    KeyGives(key, "lock_timeout", LockTimeout);
    UpdateDoes(st, key, value, io, LockTimeout, st.config.(lockTimeoutMs := Atoi(value)), "lock_timeout", I32(Atoi(value)), st.config.lockTimeoutMs == Atoi(value));
  }

  lemma KeyPairingTimeout(st: State, key: string, value: string, io: Io)
    requires Lower(key) == "pairing_timeout"
    ensures Written(st, key, value, io, st.config.(pairingTimeoutSec := Atoi(value)), "pairing_timeout", I32(Atoi(value)), st.config.pairingTimeoutSec == Atoi(value))
  {
    KeyGives(key, "pairing_timeout", PairingTimeout);
    UpdateDoes(st, key, value, io, PairingTimeout, st.config.(pairingTimeoutSec := Atoi(value)), "pairing_timeout", I32(Atoi(value)), st.config.pairingTimeoutSec == Atoi(value));
  }

  lemma KeyUserId(st: State, key: string, value: string, io: Io)
    requires Lower(key) == "user_id"
    ensures Written(st, key, value, io, st.config.(userId := value), "user_id", Str(value), st.config.userId == value)
  {
    KeyGives(key, "user_id", UserId);
    UpdateDoes(st, key, value, io, UserId, st.config.(userId := value), "user_id", Str(value), st.config.userId == value);
  }

  lemma KeyPairingMode(st: State, key: string, value: string, io: Io)
    requires Lower(key) == "pairing_mode"
    ensures Written(st, key, value, io, st.config, "pairing_mode", U8(if Atoi(value) != 0 then 1 else 0), st.config.pairingMode == (Atoi(value) != 0))
  {
    KeyGives(key, "pairing_mode", PairingMode);
    UpdateDoes(st, key, value, io, PairingMode, st.config, "pairing_mode", U8(if Atoi(value) != 0 then 1 else 0), st.config.pairingMode == (Atoi(value) != 0));
  }

  lemma KeyVoiceDetectionEnable(st: State, key: string, value: string, io: Io)
    requires Lower(key) == "voice_detection_enable"
    ensures Written(st, key, value, io, st.config.(voiceDetectionEnable := Atoi(value) != 0), "voice_en",
                    U8(if Atoi(value) != 0 then 1 else 0), st.config.voiceDetectionEnable == (Atoi(value) != 0))
  {
    KeyGives(key, "voice_detection_enable", VoiceEnable);
    UpdateDoes(st, key, value, io, VoiceEnable, st.config.(voiceDetectionEnable := Atoi(value) != 0), "voice_en",
               U8(if Atoi(value) != 0 then 1 else 0), st.config.voiceDetectionEnable == (Atoi(value) != 0));
  }

  lemma KeyVadRmsThreshold(st: State, key: string, value: string, io: Io)
    requires Lower(key) == "vad_rms_threshold"
    ensures Written(st, key, value, io, st.config.(vadRmsThreshold := Atoi(value)), "vad_rms", I32(Atoi(value)), st.config.vadRmsThreshold == Atoi(value))
  {
    KeyGives(key, "vad_rms_threshold", VadRms);
    UpdateDoes(st, key, value, io, VadRms, st.config.(vadRmsThreshold := Atoi(value)), "vad_rms", I32(Atoi(value)), st.config.vadRmsThreshold == Atoi(value));
  }

  lemma KeyVadRms(st: State, key: string, value: string, io: Io)
    requires Lower(key) == "vad_rms"
    ensures Written(st, key, value, io, st.config.(vadRmsThreshold := Atoi(value)), "vad_rms", I32(Atoi(value)), st.config.vadRmsThreshold == Atoi(value))
  {
    KeyGives(key, "vad_rms", VadRms);
    UpdateDoes(st, key, value, io, VadRms, st.config.(vadRmsThreshold := Atoi(value)), "vad_rms", I32(Atoi(value)), st.config.vadRmsThreshold == Atoi(value));
  }

  // Any other key changes nothing and is refused.
  lemma OtherKeys(st: State, key: string, value: string, io: Io)
    requires Lower(key) != "wifi_ssid"
    requires Lower(key) != "wifi_pass"
    requires Lower(key) != "backend_url"
    requires Lower(key) != "backend_bearer"
    requires Lower(key) != "mqtt_broker"
    requires Lower(key) != "mqtt_pass"
    requires Lower(key) != "mqtt_hb_enable"
    requires Lower(key) != "mqtt_hb_interval"
    requires Lower(key) != "audio_timeout"
    requires Lower(key) != "lock_timeout"
    requires Lower(key) != "pairing_timeout"
    requires Lower(key) != "user_id"
    requires Lower(key) != "pairing_mode"
    requires Lower(key) != "voice_detection_enable"
    requires Lower(key) != "vad_rms_threshold"
    requires Lower(key) != "vad_rms"
    ensures Update(st, key, value, io) == st.(sent := st.sent + (if st.mqttUp then [INVALID_CONFIG_KEY] else []))
  {
    SettingIsNamed(key);
  }
}
