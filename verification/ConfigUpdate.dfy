// The acknowledged configuration update, end to end: the back end validates a batch, sends
// its device items one at a time over an ordered channel, and waits for the device to
// acknowledge each before the next.
//
// One request is in flight per device. Either channel may lose messages and may hold messages
// of earlier requests, the device may deliver an acknowledgement more than once, and other
// updates of it may publish statuses meanwhile.
module ConfigUpdate {
  import opened Wrappers
  import opened CStrings
  import opened ConfigStore

  // ---- Validation and dispatch in the back end ----

  // asReal is what the platform's float parser makes of the value.
  datatype Item = Item(key: string, value: string, asReal: Option<real>)

  datatype Class =
    | FreeText(setting: Setting)
    | Ranged(setting: Setting, lo: int, hi: int)
    | InviteEnable
    | VoiceThreshold
    | Rejected

  function Classify(key: string): Class {
    if key == "wifi_ssid" then FreeText(WifiSsid)
    else if key == "wifi_pass" then FreeText(WifiPass)
    else if key == "audio_timeout" then Ranged(AudioTimeout, 3, 10)
    else if key == "lock_timeout" then Ranged(LockTimeout, 5000, 300000)
    else if key == "pairing_timeout" then Ranged(PairingTimeout, 60, 600)
    else if key == "voice_detection_enable" then Ranged(VoiceEnable, 0, 1)
    else if key == "voice_invite_enable" then InviteEnable
    else if key == "voice_threshold" then VoiceThreshold
    else if key == "vad_rms_threshold" then Ranged(VadRms, 500, 25000)
    else Rejected
  }

  predicate InRange(value: string, lo: int, hi: int) {
    ParseI32(value).Some? && lo <= ParseI32(value).value <= hi
  }

  predicate Valid(item: Item) {
    match Classify(item.key)
    case FreeText(s) => s == WifiSsid ==> item.value != ""
    case Ranged(_, lo, hi) => InRange(item.value, lo, hi)
    case InviteEnable => InRange(item.value, 0, 1)
    case VoiceThreshold => item.asReal.Some? && 0.20 <= item.asReal.value <= 0.90
    case Rejected => false
  }

  // A number the parser reads, in an interval.
  predicate Between(value: string, lo: int, hi: int) {
    exists n :: lo <= n <= hi && ParseI32(value) == Some(n)
  }

  // The items the API documents, key by key.
  predicate Acceptable(item: Item) {
    || (item.key == "wifi_ssid" && item.value != "")
    || item.key == "wifi_pass"
    || (item.key == "audio_timeout" && Between(item.value, 3, 10))
    || (item.key == "lock_timeout" && Between(item.value, 5_000, 300_000))
    || (item.key == "pairing_timeout" && Between(item.value, 60, 600))
    || (item.key == "voice_detection_enable" && Between(item.value, 0, 1))
    || (item.key == "voice_invite_enable" && Between(item.value, 0, 1))
    || (item.key == "voice_threshold" && item.asReal.Some? && 0.20 <= item.asReal.value <= 0.90)
    || (item.key == "vad_rms_threshold" && Between(item.value, 500, 25_000))
  }

  // Validation lets exactly those through.
  lemma ValidIffAcceptable(item: Item)
    ensures Valid(item) <==> Acceptable(item)
  {
    assert forall lo, hi :: Between(item.value, lo, hi) <==> InRange(item.value, lo, hi) by {
      forall lo, hi ensures Between(item.value, lo, hi) <==> InRange(item.value, lo, hi) {
        if InRange(item.value, lo, hi) { assert ParseI32(item.value) == Some(ParseI32(item.value).value); }
      }
    }
  }

  predicate ForDevice(item: Item) {
    !Classify(item.key).InviteEnable? && !Classify(item.key).VoiceThreshold?
  }

  function DeviceItems(items: seq<Item>): seq<Item> {
    if items == [] then []
    else DeviceItems(items[..|items| - 1]) + (if ForDevice(items[|items| - 1]) then [items[|items| - 1]] else [])
  }

  // The columns of the devices row that the back end keeps for itself.
  datatype VoiceRow = VoiceRow(inviteEnable: Option<bool>, threshold: Option<real>)

  function ApplyItem(row: VoiceRow, item: Item): VoiceRow {
    match Classify(item.key)
    case InviteEnable => row.(inviteEnable := Some(ParseI32(item.value) == Some(1)))
    case VoiceThreshold => row.(threshold := if item.asReal.Some? then item.asReal else row.threshold)
    case _ => row
  }

  function ApplyRow(row: VoiceRow, items: seq<Item>): VoiceRow {
    if items == [] then row else ApplyItem(ApplyRow(row, items[..|items| - 1]), items[|items| - 1])
  }

  // The last value a batch asks for, of each of the two columns.
  function EnableIn(items: seq<Item>): Option<bool> {
    if items == [] then None
    else
      var item := items[|items| - 1];
      if Classify(item.key).InviteEnable? then Some(ParseI32(item.value) == Some(1)) else EnableIn(items[..|items| - 1])
  }

  function ThresholdIn(items: seq<Item>): Option<real> {
    if items == [] then None
    else
      var item := items[|items| - 1];
      if Classify(item.key).VoiceThreshold? && item.asReal.Some? then item.asReal else ThresholdIn(items[..|items| - 1])
  }

  // Item `i` is the last one with its key.
  predicate IsLastOf(items: seq<Item>, i: int, key: string) {
    0 <= i < |items| && items[i].key == key && forall j :: i < j < |items| ==> items[j].key != key
  }

  predicate Names(items: seq<Item>, key: string) { exists i :: 0 <= i < |items| && items[i].key == key }

  function LastOf(items: seq<Item>, key: string): (r: Option<Item>)
    ensures r.None? <==> !Names(items, key)
    ensures r.Some? ==> exists i :: 0 <= i < |items| && IsLastOf(items, i, key) && items[i] == r.value
  {
    if items == [] then None
    else
      var n := |items| - 1;
      if items[n].key == key then
        assert IsLastOf(items, n, key);
        Some(items[n])
      else
        var r := LastOf(items[..n], key);
        LastOfMore(items, key);
        r
  }

  lemma LastOfMore(items: seq<Item>, key: string)
    requires items != [] && items[|items| - 1].key != key
    ensures Names(items, key) <==> Names(items[..|items| - 1], key)
    ensures forall i :: IsLastOf(items[..|items| - 1], i, key) ==> IsLastOf(items, i, key) && items[..|items| - 1][i] == items[i]
  {
    var n := |items| - 1;
    assert forall i :: 0 <= i < n ==> items[..n][i] == items[i];
  }

  // The column takes what the last item for it says, or stays.
  predicate EnableFollows(items: seq<Item>, before: Option<bool>, after: Option<bool>) {
    if Names(items, "voice_invite_enable") then
      exists i :: 0 <= i < |items| && IsLastOf(items, i, "voice_invite_enable") && after == Some(ParseI32(items[i].value) == Some(1))
    else after == before
  }

  predicate ThresholdFollows(items: seq<Item>, before: Option<real>, after: Option<real>) {
    if Names(items, "voice_threshold") then
      exists i :: 0 <= i < |items| && IsLastOf(items, i, "voice_threshold") && after == items[i].asReal
    else after == before
  }

  lemma BackEndKeys(item: Item)
    ensures Classify(item.key).InviteEnable? <==> item.key == "voice_invite_enable"
    ensures Classify(item.key).VoiceThreshold? <==> item.key == "voice_threshold"
    ensures Valid(item) && item.key == "voice_threshold" ==> item.asReal.Some?
  {
  }

  lemma {:induction false} EnableInIs(items: seq<Item>)
    ensures var last := LastOf(items, "voice_invite_enable");
      EnableIn(items) == if last.Some? then Some(ParseI32(last.value.value) == Some(1)) else None
  {
    if items != [] {
      BackEndKeys(items[|items| - 1]);
      EnableInIs(items[..|items| - 1]);
    }
  }

  lemma {:induction false} ThresholdInIs(items: seq<Item>)
    requires forall i :: 0 <= i < |items| ==> Valid(items[i])
    ensures var last := LastOf(items, "voice_threshold");
      && ThresholdIn(items) == (if last.Some? then last.value.asReal else None)
      && (last.Some? ==> last.value.asReal.Some?)
  {
    if items != [] {
      assert Valid(items[|items| - 1]);
      BackEndKeys(items[|items| - 1]);
      ThresholdInIs(items[..|items| - 1]);
    }
  }

  lemma ColumnsFollow(row: VoiceRow, items: seq<Item>)
    requires forall i :: 0 <= i < |items| ==> Valid(items[i])
    ensures var row' := ApplyRow(row, items);
      && EnableFollows(items, row.inviteEnable, row'.inviteEnable)
      && ThresholdFollows(items, row.threshold, row'.threshold)
  {
    ApplyRowIs(row, items);
    EnableInIs(items);
    ThresholdInIs(items);
  }

  function Or<V>(a: Option<V>, b: Option<V>): Option<V> { if a.Some? then a else b }

  // The row after a batch: of each column the last value asked for, or what it was.
  lemma {:induction false} ApplyRowIs(row: VoiceRow, items: seq<Item>)
    ensures ApplyRow(row, items) == VoiceRow(Or(EnableIn(items), row.inviteEnable), Or(ThresholdIn(items), row.threshold))
  {
    if items != [] { ApplyRowIs(row, items[..|items| - 1]); }
  }

  lemma {:induction false} ThresholdInRange(items: seq<Item>)
    requires forall i :: 0 <= i < |items| ==> Valid(items[i])
    ensures ThresholdIn(items).Some? ==> 0.20 <= ThresholdIn(items).value <= 0.90
  {
    if items != [] {
      assert Valid(items[|items| - 1]);
      ThresholdInRange(items[..|items| - 1]);
    }
  }

  lemma BatchStep(row: VoiceRow, items: seq<Item>, i: nat)
    requires i < |items|
    ensures ApplyRow(row, items[..i + 1]) == ApplyItem(ApplyRow(row, items[..i]), items[i])
    ensures DeviceItems(items[..i + 1]) == DeviceItems(items[..i]) + (if ForDevice(items[i]) then [items[i]] else [])
  {
    assert items[..i + 1][..i] == items[..i];
  }

  datatype Verdict = Proceed | Unauthorized | NotFound | BadRequest

  // The split of a valid batch: the back end stores its own items, the rest is to be sent.
  method Separate(row: VoiceRow, items: seq<Item>) returns (row': VoiceRow, deviceItems: seq<Item>)
    requires forall i :: 0 <= i < |items| ==> Valid(items[i])
    ensures row' == ApplyRow(row, items) && deviceItems == DeviceItems(items)
  {
    row', deviceItems := row, [];
    for i := 0 to |items|
      invariant deviceItems == DeviceItems(items[..i]) && row' == ApplyRow(row, items[..i])
    {
      BatchStep(row, items, i);
      var item := items[i];
      assert Valid(item);
      match Classify(item.key)
      case InviteEnable => row' := row'.(inviteEnable := Some(ParseI32(item.value).value == 1));
      case VoiceThreshold => row' := row'.(threshold := Some(item.asReal.value));
      case _ => deviceItems := deviceItems + [item];
    }
    assert items[..|items|] == items;
  }

  // update_config up to the first message: nothing is stored or sent unless the caller
  // owns the device and every item is valid.
  method Prepare(user: Option<string>, device: Option<Option<string>>, row: VoiceRow, items: seq<Item>)
    returns (verdict: Verdict, row': VoiceRow, deviceItems: seq<Item>)
    ensures verdict == Proceed <==>
      user.Some? && device == Some(user) && forall i :: 0 <= i < |items| ==> Acceptable(items[i])
    ensures verdict == Proceed <==>
      user.Some? && device == Some(user) && forall i :: 0 <= i < |items| ==> Valid(items[i])
    ensures user.None? ==> verdict == Unauthorized
    ensures user.Some? && (device.None? || device == Some(None)) ==> verdict == NotFound
    ensures user.Some? && device.Some? && device.value.Some? && device.value != user ==> verdict == Unauthorized
    ensures user.Some? && device == Some(user) && (exists i :: 0 <= i < |items| && !Acceptable(items[i])) ==> verdict == BadRequest
    ensures verdict == Proceed ==> row' == ApplyRow(row, items) && deviceItems == DeviceItems(items)
    ensures verdict == Proceed ==>
      EnableFollows(items, row.inviteEnable, row'.inviteEnable) && ThresholdFollows(items, row.threshold, row'.threshold)
    ensures verdict != Proceed ==> row' == row && deviceItems == []
  {
    row', deviceItems := row, [];
    if user.None? {
      return Unauthorized, row', deviceItems;
    }
    if device.None? || device.value.None? {
      return NotFound, row', deviceItems;
    }
    if user.value != device.value.value {
      return Unauthorized, row', deviceItems;
    }
    for i := 0 to |items|
      invariant forall k :: 0 <= k < i ==> Valid(items[k]) && Acceptable(items[k])
    {
      ValidIffAcceptable(items[i]);
      if !Valid(items[i]) {
        return BadRequest, row', deviceItems;
      }
    }
    ColumnsFollow(row, items);
    row', deviceItems := Separate(row, items);
    verdict := Proceed;
  }

  // What is sent: in order, every item but those of the two columns.
  lemma DeviceItemsMore(items: seq<Item>, item: Item)
    ensures DeviceItems([]) == [] && DeviceItems(items + [item]) == DeviceItems(items) + DeviceItems([item])
  {
    assert (items + [item])[..|items|] == items;
    assert [item][..0] == [];
  }

  lemma DeviceItemsOfOne(item: Item)
    ensures DeviceItems([item]) == if item.key == "voice_invite_enable" || item.key == "voice_threshold" then [] else [item]
  {
    BackEndKeys(item);
    assert [item][..0] == [] && DeviceItems([]) == [];
  }

  // What an accepted batch sends is valid and meant for the device, in the order given.
  lemma {:induction false} DeviceItemsValid(items: seq<Item>)
    requires forall i :: 0 <= i < |items| ==> Valid(items[i])
    ensures forall i :: 0 <= i < |DeviceItems(items)| ==> Valid(DeviceItems(items)[i]) && ForDevice(DeviceItems(items)[i])
  {
    if items != [] { DeviceItemsValid(items[..|items| - 1]); }
  }

  // ---- The exchange with the device ----

  datatype Outcome = Ok | RequestTimeout | ServerError

  datatype Phase = Ready | Awaiting | Finished(outcome: Outcome)

  // `pending` is the entry of PENDING_CONFIG_UPDATES; `log` records what was sent, `acked`
  // whether any acknowledgement has been on its way to the back end.
  datatype Sys = Sys(
    items: seq<Item>,
    next: nat,
    phase: Phase,
    pending: bool,
    toDevice: seq<Item>,
    fromDevice: seq<Status>,
    device: State,
    log: seq<Item>,
    acked: bool)

  datatype Event =
    | Send
    | PublishFails
    | DeviceHandles(io: Io)
    | CommandLost
    | StatusLost
    | BackEndHandles
    | TimesOut
    | OtherStatus(status: Status)
    | LocalChange(after: State)
    | AckRepeated  // the device publishes at least once, so perhaps again

  predicate Enabled(s: Sys, e: Event) {
    match e
    case Send => s.phase == Ready && s.next < |s.items|
    case PublishFails => s.phase == Ready && s.next < |s.items|
    case DeviceHandles(_) => s.toDevice != []
    case CommandLost => s.toDevice != []
    case StatusLost => s.fromDevice != []
    case BackEndHandles => s.fromDevice != []
    case TimesOut => s.phase == Awaiting
    case OtherStatus(status) => status != CONFIG_UPDATED
    case LocalChange(_) => true
    case AckRepeated => s.acked
  }

  // handle_update_config_command: both strings must fit their buffers and are read as C text.
  function Handle(device: State, item: Item, io: Io): State {
    if |item.key| < 32 && |item.value| < 256 then Update(device, AsRead(item.key), AsRead(item.value), io)
    else Publish(device, INVALID_UPDATE_CONFIG_FORMAT)
  }

  function NewStatuses(before: State, after: State): seq<Status> {
    if |before.sent| <= |after.sent| then after.sent[|before.sent|..] else []
  }

  function Acks(statuses: seq<Status>): nat {
    if statuses == [] then 0
    else Acks(statuses[1..]) + (if statuses[0] == CONFIG_UPDATED then 1 else 0)
  }

  // After an acknowledgement: the next item, or the end of the batch.
  function Advance(s: Sys): Sys {
    s.(next := s.next + 1, phase := if s.next + 1 < |s.items| then Ready else Finished(Ok))
  }

  // The device is now in another state and has published what that took.
  function Changed(s: Sys, device: State): Sys {
    var statuses := NewStatuses(s.device, device);
    s.(device := device, fromDevice := s.fromDevice + statuses, acked := s.acked || Acks(statuses) > 0)
  }

  function Apply(s: Sys, e: Event): Sys
    requires Enabled(s, e)
  {
    match e
    case Send =>
      s.(phase := Awaiting, pending := true, toDevice := s.toDevice + [s.items[s.next]], log := s.log + [s.items[s.next]])
    case PublishFails => s.(phase := Finished(ServerError), pending := true)
    case DeviceHandles(io) => Changed(s, Handle(s.device, s.toDevice[0], io)).(toDevice := s.toDevice[1..])
    case CommandLost => s.(toDevice := s.toDevice[1..])
    case StatusLost => s.(fromDevice := s.fromDevice[1..])
    case BackEndHandles =>
      var rest := s.(fromDevice := s.fromDevice[1..]);
      if s.fromDevice[0] == CONFIG_UPDATED && s.pending then
        var taken := rest.(pending := false);
        if s.phase == Awaiting then Advance(taken) else taken
      else rest
    case TimesOut => s.(phase := Finished(RequestTimeout))
    case OtherStatus(status) => s.(fromDevice := s.fromDevice + [status])
    case LocalChange(after) => Changed(s, after)
    case AckRepeated => s.(fromDevice := s.fromDevice + [CONFIG_UPDATED])
  }

  predicate CanRun(s: Sys, es: seq<Event>)
    decreases |es|, 0
  {
    es == [] || (CanRun(s, es[..|es| - 1]) && Enabled(After(s, es[..|es| - 1]), es[|es| - 1]))
  }

  function After(s: Sys, es: seq<Event>): Sys
    requires CanRun(s, es)
    decreases |es|, 1
  {
    if es == [] then s else Apply(After(s, es[..|es| - 1]), es[|es| - 1])
  }

  // ---- What the device must hold ----

  function SettingFor(item: Item): Setting {
    match Classify(item.key)
    case FreeText(s) => s
    case Ranged(s, _, _) => s
    case _ => DeviceId
  }

  // The meaning the back end gave the value when it validated it.
  function Meant(item: Item): Value {
    match KindOf(SettingFor(item))
    case TextOf(_) => Text(item.value)
    case FlagKind => Flag(ParseI32(item.value) != Some(0))
    case NumberKind => Number(if ParseI32(item.value).Some? then ParseI32(item.value).value else 0)
  }

  // The last value requested for a setting by a batch.
  function LastMeant(items: seq<Item>, s: Setting): Option<Value> {
    if items == [] then None
    else if SettingFor(items[|items| - 1]) == s then Some(Meant(items[|items| - 1]))
    else LastMeant(items[..|items| - 1], s)
  }

  predicate Sendable(item: Item) {
    Valid(item) && ForDevice(item) && |item.value| < 256 && Fits(SettingFor(item), item.value)
  }

  ghost predicate Settled(device: State, items: seq<Item>, except: Option<Setting>) {
    forall s: Setting :: Some(s) != except && LastMeant(items, s).Some? ==> Get(device.config, s) == LastMeant(items, s).value
  }

  lemma NameLengths()
    ensures |Lower("wifi_ssid")| == 9 && |Lower("wifi_pass")| == 9 && |Lower("backend_url")| == 11
    ensures |Lower("backend_bearer")| == 14 && |Lower("mqtt_broker")| == 11 && |Lower("mqtt_pass")| == 9
    ensures |Lower("mqtt_hb_enable")| == 14 && |Lower("mqtt_hb_interval")| == 16 && |Lower("audio_timeout")| == 13
    ensures |Lower("lock_timeout")| == 12 && |Lower("pairing_timeout")| == 15 && |Lower("user_id")| == 7
    ensures |Lower("pairing_mode")| == 12 && |Lower("voice_detection_enable")| == 22
    ensures |Lower("vad_rms_threshold")| == 17
  {
  }

  // The device files every key the back end accepts under the setting that was meant.
  lemma SameSetting(item: Item)
    requires Valid(item) && ForDevice(item)
    ensures SettingOf(item.key) == Some(SettingFor(item))
    ensures |item.key| < 32 && (StoredAsSpelled(SettingFor(item)) ==> item.key == Slot(SettingFor(item)))
  {
    NameLengths();
    assert Lower("wifi_pass")[5] == 'p' && Lower("wifi_ssid")[5] == 's';
    assert |Lower(item.key)| == |item.key|;
  }

  lemma KeysArePlain(key: string)
    requires Classify(key) != Rejected
    ensures NUL !in key
  {
  }

  // Neither string of an accepted item holds a NUL, so the device reads both whole.
  lemma ReadWhole(item: Item)
    requires Sendable(item)
    ensures AsRead(item.key) == item.key && AsRead(item.value) == item.value
  {
    KeysArePlain(item.key);
    AsReadPlain(item.key);
    if Classify(item.key).Ranged? { NumbersArePlain(item.value); }
    AsReadPlain(item.value);
  }

  // The device reads the value the back end validated.
  lemma SameValue(item: Item)
    requires Valid(item) && ForDevice(item)
    ensures Parse(SettingFor(item), item.value) == Meant(item)
  {
    AtoiAgrees(item.value);
  }

  lemma LastMeantStep(items: seq<Item>, k: nat, s: Setting)
    requires k < |items|
    ensures LastMeant(items[..k + 1], s) == if SettingFor(items[k]) == s then Some(Meant(items[k])) else LastMeant(items[..k], s)
  {
    assert items[..k + 1][..k] == items[..k];
  }

  // The outcome of one update in the terms the protocol needs.
  predicate Processed(before: State, after: State, s: Setting, v: Value) {
    && (forall t: Setting :: t != s ==> Get(after.config, t) == Get(before.config, t))
    && |NewStatuses(before, after)| <= 1
    && (NewStatuses(before, after) == [CONFIG_UPDATED] ==> Get(after.config, s) == v)
    && (Get(after.config, s) == v || Get(after.config, s) == Get(before.config, s))
  }

  lemma AssignProcessed(st: State, s: Setting, slot: string, v: Value, commit: bool)
    requires HasKind(v, KindOf(s)) && s != PairingMode
    ensures Processed(st, Assign(st, s, slot, v, commit), s, v)
  {
    forall t: Setting ensures Get(Put(st.config, s, v), t) == if t == s then v else Get(st.config, t) {
      PutFrame(st.config, s, v, t);
    }
  }

  lemma PublishProcessed(st: State, status: Status, s: Setting, v: Value)
    requires status == CONFIG_UPDATED ==> Get(st.config, s) == v
    ensures Processed(st, Publish(st, status), s, v)
  {
    assert Publish(st, status).config == st.config;
  }

  lemma SettingProcessed(st: State, s: Setting, slot: string, v: Value, io: Io)
    requires HasKind(v, KindOf(s)) && s != PairingMode
    ensures Processed(st, UpdateSetting(st, s, slot, v, io), s, v)
  {
    if io.opens && Get(st.config, s) != v && io.writes {
      AssignProcessed(st, s, slot, v, io.commits);
    } else if io.opens && Get(st.config, s) == v {
      PublishProcessed(st, CONFIG_UPDATED, s, v);
    } else {
      PublishProcessed(st, if io.opens then UPDATE_CONFIG_FAILED else NVM_OPEN_FAILED, s, v);
    }
  }

  lemma UpdateIs(device: State, item: Item, io: Io)
    requires Sendable(item)
    ensures var s := SettingFor(item);
      && s != PairingMode && HasKind(Meant(item), KindOf(s))
      && Update(device, item.key, item.value, io) == UpdateSetting(device, s, WriteSlot(s, item.key), Meant(item), io)
  {
    SameSetting(item);
    SameValue(item);
  }

  lemma UpdateProcessed(device: State, item: Item, io: Io)
    requires Sendable(item)
    ensures Processed(device, Update(device, item.key, item.value, io), SettingFor(item), Meant(item))
  {
    UpdateIs(device, item, io);
    SettingProcessed(device, SettingFor(item), WriteSlot(SettingFor(item), item.key), Meant(item), io);
  }

  lemma UpdateAgrees(device: State, d: Provisioned, item: Item, io: Io)
    requires Agrees(device, d) && Sendable(item)
    ensures Agrees(Update(device, item.key, item.value, io), d)
  {
    SameSetting(item);
    UpdateKeepsAgreement(device, d, item.key, item.value, io);
  }

  lemma HandleIs(device: State, item: Item, io: Io)
    requires Sendable(item)
    ensures Handle(device, item, io) == Update(device, item.key, item.value, io)
  {
    SameSetting(item);
    ReadWhole(item);
  }

  lemma ItemHandled(device: State, d: Provisioned, item: Item, io: Io)
    requires Agrees(device, d) && Sendable(item)
    ensures Agrees(Handle(device, item, io), d)
    ensures Processed(device, Handle(device, item, io), SettingFor(item), Meant(item))
  {
    HandleIs(device, item, io);
    UpdateAgrees(device, d, item, io);
    UpdateProcessed(device, item, io);
  }

  lemma SettledStep(before: State, after: State, items: seq<Item>, k: nat)
    requires k < |items| && Settled(before, items[..k], Some(SettingFor(items[k])))
    requires Processed(before, after, SettingFor(items[k]), Meant(items[k]))
    ensures Settled(after, items[..k], Some(SettingFor(items[k])))
    ensures NewStatuses(before, after) == [CONFIG_UPDATED] ==> Settled(after, items[..k + 1], None)
  {
    forall s: Setting
      ensures LastMeant(items[..k + 1], s) == if SettingFor(items[k]) == s then Some(Meant(items[k])) else LastMeant(items[..k], s)
    {
      LastMeantStep(items, k, s);
    }
  }

  lemma {:induction false} AcksJoin(a: seq<Status>, b: seq<Status>)
    ensures Acks(a + b) == Acks(a) + Acks(b)
  {
    if a == [] {
      assert a + b == b;
    } else {
      assert (a + b)[1..] == a[1..] + b;
      AcksJoin(a[1..], b);
    }
  }

  lemma AcksOfOne(statuses: seq<Status>)
    requires |statuses| <= 1
    ensures Acks(statuses) == if statuses == [CONFIG_UPDATED] then 1 else 0
  {
    if statuses != [] { assert statuses == [statuses[0]]; }
  }

  ghost predicate Inv(s: Sys, d: Provisioned) {
    && Agrees(s.device, d) && s.next <= |s.items|
    && (forall i :: 0 <= i < |s.items| ==> Sendable(s.items[i]))
    && match s.phase
       case Ready =>
         && s.next < |s.items| && s.toDevice == [] && Acks(s.fromDevice) == 0
         && Settled(s.device, s.items[..s.next], None) && s.log == s.items[..s.next]
       case Awaiting =>
         && s.next < |s.items| && s.pending && s.log == s.items[..s.next + 1]
         && Settled(s.device, s.items[..s.next], Some(SettingFor(s.items[s.next])))
         && (s.toDevice == [] || s.toDevice == [s.items[s.next]])
         && (Acks(s.fromDevice) == 0
             || (Acks(s.fromDevice) == 1 && s.toDevice == [] && Settled(s.device, s.items[..s.next + 1], None)))
       case Finished(Ok) =>
         s.next == |s.items| && s.toDevice == [] && Settled(s.device, s.items, None) && s.log == s.items
       case Finished(RequestTimeout) =>
         && s.next < |s.items| && s.log == s.items[..s.next + 1]
         && Settled(s.device, s.items[..s.next], Some(SettingFor(s.items[s.next])))
         && (s.toDevice == [] || s.toDevice == [s.items[s.next]])
       case Finished(ServerError) =>
         && s.next < |s.items| && s.log == s.items[..s.next] && s.toDevice == []
         && Settled(s.device, s.items[..s.next], None)
  }

  // The device takes the one message on its way and answers at most once.
  lemma Delivered(s: Sys, d: Provisioned, device: State)
    requires Inv(s, d) && s.toDevice != [] && Agrees(device, d)
    requires Processed(s.device, device, SettingFor(s.toDevice[0]), Meant(s.toDevice[0]))
    ensures Inv(Changed(s, device).(toDevice := s.toDevice[1..]), d)
  {
    SettledStep(s.device, device, s.items, s.next);
    AcksJoin(s.fromDevice, NewStatuses(s.device, device));
    AcksOfOne(NewStatuses(s.device, device));
  }

  lemma StepDevice(s: Sys, d: Provisioned, io: Io)
    requires Inv(s, d) && s.toDevice != []
    ensures Inv(Apply(s, DeviceHandles(io)), d)
  {
    ItemHandled(s.device, d, s.toDevice[0], io);
    Delivered(s, d, Handle(s.device, s.toDevice[0], io));
  }

  lemma StepBackEnd(s: Sys, d: Provisioned)
    requires Inv(s, d) && s.fromDevice != []
    ensures Inv(Apply(s, BackEndHandles), d)
  {
    assert s.items[..|s.items|] == s.items;
  }

  lemma StepSend(s: Sys, d: Provisioned)
    requires Inv(s, d) && Enabled(s, Send)
    ensures Inv(Apply(s, Send), d)
  {
    var s' := Apply(s, Send);
    assert s.items[..s.next] + [s.items[s.next]] == s.items[..s.next + 1];
    assert s'.items == s.items && s'.next == s.next && s'.device == s.device && s'.toDevice == [s.items[s.next]];
  }

  lemma StepOther(s: Sys, d: Provisioned, status: Status)
    requires Inv(s, d) && status != CONFIG_UPDATED
    ensures Inv(s.(fromDevice := s.fromDevice + [status]), d)
  {
    AcksJoin(s.fromDevice, [status]);
    AcksOfOne([status]);
  }

  // A change of the device by touch, console or a relayed command that this request does
  // not notice: it is not acknowledged, leaves the settings of the batch as they were, and
  // RAM in agreement with the store.
  ghost predicate Harmless(s: Sys, d: Provisioned, e: Event) {
    e.LocalChange? ==>
      && Agrees(e.after, d)
      && Acks(NewStatuses(s.device, e.after)) == 0
      && forall i :: 0 <= i < |s.items| ==>
           Get(e.after.config, SettingFor(s.items[i])) == Get(s.device.config, SettingFor(s.items[i]))
  }

  ghost predicate Undisturbed(s: Sys, d: Provisioned, es: seq<Event>)
    requires CanRun(s, es)
  {
    es == [] || (Undisturbed(s, d, es[..|es| - 1]) && Harmless(After(s, es[..|es| - 1]), d, es[|es| - 1]))
  }

  // The changes the firmware makes are calls of update_config.
  ghost predicate Genuine(s: Sys, e: Event) {
    e.LocalChange? ==> exists key: string, value: string, io: Io :: e.after == Update(s.device, key, value, io)
  }

  ghost predicate FromFirmware(s: Sys, es: seq<Event>)
    requires CanRun(s, es)
  {
    es == [] || (FromFirmware(s, es[..|es| - 1]) && Genuine(After(s, es[..|es| - 1]), es[|es| - 1]))
  }

  lemma {:induction false} LastMeantIndex(items: seq<Item>, x: Setting)
    ensures LastMeant(items, x).Some? ==> exists i :: 0 <= i < |items| && SettingFor(items[i]) == x
  {
    if items != [] {
      LastMeantIndex(items[..|items| - 1], x);
      if SettingFor(items[|items| - 1]) != x && LastMeant(items, x).Some? {
        var i :| 0 <= i < |items| - 1 && SettingFor(items[..|items| - 1][i]) == x;
        assert SettingFor(items[i]) == x;
      }
    }
  }

  // A device that keeps the settings of the batch stays settled.
  lemma StaysSettled(before: State, after: State, items: seq<Item>, k: nat, except: Option<Setting>)
    requires k <= |items| && Settled(before, items[..k], except)
    requires forall i :: 0 <= i < |items| ==> Get(after.config, SettingFor(items[i])) == Get(before.config, SettingFor(items[i]))
    ensures Settled(after, items[..k], except)
  {
    forall x: Setting | LastMeant(items[..k], x).Some? ensures Get(after.config, x) == Get(before.config, x) {
      LastMeantIndex(items[..k], x);
      var i :| 0 <= i < k && SettingFor(items[..k][i]) == x;
      assert items[..k][i] == items[i];
    }
  }

  // One update of any kind publishes at most one status, and none without a connection.
  lemma UpdatePublishes(st: State, key: string, value: string, io: Io)
    ensures var st' := Update(st, key, value, io);
      && st'.mqttUp == st.mqttUp && |NewStatuses(st, st')| <= 1
      && (!st.mqttUp ==> NewStatuses(st, st') == [])
  {
  }

  // The device changes behind the back of the request.
  lemma ChangedBehind(s: Sys, d: Provisioned, device: State)
    requires Inv(s, d) && Agrees(device, d) && Acks(NewStatuses(s.device, device)) == 0
    requires forall i :: 0 <= i < |s.items| ==>
      Get(device.config, SettingFor(s.items[i])) == Get(s.device.config, SettingFor(s.items[i]))
    ensures Inv(Changed(s, device), d)
  {
    AcksJoin(s.fromDevice, NewStatuses(s.device, device));
    assert s.items[..|s.items|] == s.items;
    forall k: nat, except | k <= |s.items| && Settled(s.device, s.items[..k], except)
      ensures Settled(device, s.items[..k], except)
    {
      StaysSettled(s.device, device, s.items, k, except);
    }
  }

  // Which calls are harmless: those with a proper key and a fitting value that are not
  // acknowledged and keep the settings of the batch.
  lemma HarmlessUpdate(s: Sys, d: Provisioned, key: string, value: string, io: Io)
    requires Agrees(s.device, d) && Proper(Request(key, value, io))
    requires NewStatuses(s.device, Update(s.device, key, value, io)) != [CONFIG_UPDATED]
    requires forall i :: 0 <= i < |s.items| ==>
      Get(Update(s.device, key, value, io).config, SettingFor(s.items[i])) == Get(s.device.config, SettingFor(s.items[i]))
    ensures Harmless(s, d, LocalChange(Update(s.device, key, value, io)))
  {
    UpdateKeepsAgreement(s.device, d, key, value, io);
    UpdatePublishes(s.device, key, value, io);
    AcksOfOne(NewStatuses(s.device, Update(s.device, key, value, io)));
  }

  lemma StepInv(s: Sys, d: Provisioned, e: Event)
    requires Inv(s, d) && Enabled(s, e) && Harmless(s, d, e) && e != AckRepeated
    ensures Inv(Apply(s, e), d)
  {
    match e
    case DeviceHandles(io) => StepDevice(s, d, io);
    case BackEndHandles => StepBackEnd(s, d);
    case Send => StepSend(s, d);
    case OtherStatus(status) => StepOther(s, d, status);
    case LocalChange(after) => ChangedBehind(s, d, after);
    case _ =>
  }

  // A request begins with whatever earlier ones left in the two channels: commands not yet
  // delivered, and statuses not yet handled, or handled and still to be delivered again.
  function Start(items: seq<Item>, device: State, queue: seq<Item>, stale: seq<Status>, pending: bool): Sys {
    Sys(items, 0, if items == [] then Finished(Ok) else Ready, pending, queue, stale, device, [], Acks(stale) > 0)
  }

  // No acknowledgement is delivered twice.
  predicate Unrepeated(es: seq<Event>) { forall i :: 0 <= i < |es| ==> es[i] != AckRepeated }

  lemma {:induction false} InvAlways(s: Sys, d: Provisioned, es: seq<Event>)
    requires Inv(s, d) && CanRun(s, es) && Undisturbed(s, d, es) && Unrepeated(es)
    ensures Inv(After(s, es), d)
  {
    if es != [] {
      InvAlways(s, d, es[..|es| - 1]);
      StepInv(After(s, es[..|es| - 1]), d, es[|es| - 1]);
    }
  }

  // The back end keeps the entry of a request until it handles an acknowledgement, past a
  // timeout and a failed publication; no other event touches it.
  lemma EntryStays(s: Sys, e: Event)
    requires Enabled(s, e)
    ensures Apply(s, e).pending <==>
      || e == Send || e == PublishFails
      || (s.pending && !(e == BackEndHandles && s.fromDevice[0] == CONFIG_UPDATED))
  {
  }

  // An acknowledgement that comes after the timeout uses the entry up and does nothing else.
  lemma LateAcknowledgement(s: Sys)
    requires s.phase == Awaiting && s.pending && s.fromDevice != [] && s.fromDevice[0] == CONFIG_UPDATED
    ensures var late := Apply(Apply(s, TimesOut), BackEndHandles);
      late == s.(phase := Finished(RequestTimeout), pending := false, fromDevice := s.fromDevice[1..])
  {
  }

  // In every run of a request that starts with no command and no acknowledgement left over,
  // in which none is delivered twice, and during which no other change of the device is
  // acknowledged or touches the batch:
  // success means the device holds, in RAM and in its store, the last value requested for
  // every setting of the batch, with the meaning the back end validated; a timeout means
  // that exactly a prefix of the batch and the item that timed out were sent.
  lemma EndToEnd(items: seq<Item>, device: State, d: Provisioned, stale: seq<Status>, pending: bool, es: seq<Event>)
    requires Agrees(device, d) && Acks(stale) == 0
    requires forall i :: 0 <= i < |items| ==> Sendable(items[i])
    requires CanRun(Start(items, device, [], stale, pending), es)
    requires Undisturbed(Start(items, device, [], stale, pending), d, es) && Unrepeated(es)
    ensures var s := After(Start(items, device, [], stale, pending), es);
      && (s.phase == Finished(Ok) ==>
            s.log == items
            && forall x: Setting :: LastMeant(items, x).Some? && x != PairingMode ==>
                 Get(s.device.config, x) == Read(s.device.store, d, x) == LastMeant(items, x).value)
      && (s.phase == Finished(RequestTimeout) ==> s.next < |items| && s.log == items[..s.next + 1])
      && (s.phase == Finished(ServerError) ==> s.next < |items| && s.log == items[..s.next])
  {
    var s0 := Start(items, device, [], stale, pending);
    assert Inv(s0, d);
    InvAlways(s0, d, es);
    ItemsFixed(s0, es);
  }

  lemma StepItems(s: Sys, e: Event)
    requires Enabled(s, e)
    ensures Apply(s, e).items == s.items
  {
  }

  lemma {:induction false} ItemsFixed(s: Sys, es: seq<Event>)
    requires CanRun(s, es)
    ensures After(s, es).items == s.items
  {
    if es != [] {
      ItemsFixed(s, es[..|es| - 1]);
      StepItems(After(s, es[..|es| - 1]), es[|es| - 1]);
    }
  }

  // ---- After a power cycle ----

  // No local change leaves anything uncommitted that was not so before.
  ghost predicate KeepsDurable(s: Sys, es: seq<Event>)
    requires CanRun(s, es)
  {
    es == [] || (&& KeepsDurable(s, es[..|es| - 1])
                 && (es[|es| - 1].LocalChange? && Durable(After(s, es[..|es| - 1]).device) ==> Durable(es[|es| - 1].after)))
  }

  // Everything is committed, unless the request has failed or is bound to.
  predicate Committed(s: Sys) {
    || Durable(s.device)
    || s.phase == Finished(RequestTimeout)
    || (s.phase == Awaiting && s.toDevice == [] && Acks(s.fromDevice) == 0)
  }

  lemma AcknowledgedIsDurable(st: State, key: string, value: string, io: Io)
    requires Durable(st) && NewStatuses(st, Update(st, key, value, io)) == [CONFIG_UPDATED]
    ensures Durable(Update(st, key, value, io))
  {
  }

  lemma HandledIsDurable(device: State, item: Item, io: Io)
    requires Durable(device) && Sendable(item) && NewStatuses(device, Handle(device, item, io)) == [CONFIG_UPDATED]
    ensures Durable(Handle(device, item, io))
  {
    HandleIs(device, item, io);
    AcknowledgedIsDurable(device, item.key, item.value, io);
  }

  lemma DeliveredCommitted(s: Sys, d: Provisioned, device: State)
    requires Inv(s, d) && Committed(s) && s.toDevice != [] && |NewStatuses(s.device, device)| <= 1
    requires Durable(s.device) && NewStatuses(s.device, device) == [CONFIG_UPDATED] ==> Durable(device)
    ensures Committed(Changed(s, device).(toDevice := s.toDevice[1..]))
  {
    AcksJoin(s.fromDevice, NewStatuses(s.device, device));
    AcksOfOne(NewStatuses(s.device, device));
  }

  lemma StepCommitted(s: Sys, d: Provisioned, e: Event)
    requires Inv(s, d) && Committed(s) && Enabled(s, e) && Harmless(s, d, e) && e != AckRepeated
    requires e.LocalChange? && Durable(s.device) ==> Durable(e.after)
    ensures Committed(Apply(s, e))
  {
    match e
    case DeviceHandles(io) =>
      var item, device := s.toDevice[0], Handle(s.device, s.toDevice[0], io);
      ItemHandled(s.device, d, item, io);
      if Durable(s.device) && NewStatuses(s.device, device) == [CONFIG_UPDATED] { HandledIsDurable(s.device, item, io); }
      DeliveredCommitted(s, d, device);
    case LocalChange(after) => AcksJoin(s.fromDevice, NewStatuses(s.device, after));
    case OtherStatus(status) =>
      AcksJoin(s.fromDevice, [status]);
      AcksOfOne([status]);
    case _ =>
  }

  lemma {:induction false} CommittedAlways(s: Sys, d: Provisioned, es: seq<Event>)
    requires Inv(s, d) && Committed(s) && CanRun(s, es) && Undisturbed(s, d, es) && Unrepeated(es) && KeepsDurable(s, es)
    ensures Committed(After(s, es))
  {
    if es != [] {
      var es' := es[..|es| - 1];
      CommittedAlways(s, d, es');
      InvAlways(s, d, es');
      StepCommitted(After(s, es'), d, es[|es| - 1]);
    }
  }

  // If besides nothing was uncommitted at first and no local change leaves anything so, the
  // next boot reads what a successful request asked for, however the power fails.
  lemma SuccessReachesNextBoot(items: seq<Item>, device: State, d: Provisioned, stale: seq<Status>, pending: bool,
                               es: seq<Event>, after: Nvs)
    requires Agrees(device, d) && Durable(device) && Acks(stale) == 0
    requires forall i :: 0 <= i < |items| ==> Sendable(items[i])
    requires var s0 := Start(items, device, [], stale, pending);
      CanRun(s0, es) && Undisturbed(s0, d, es) && Unrepeated(es) && KeepsDurable(s0, es)
    requires After(Start(items, device, [], stale, pending), es).phase == Finished(Ok)
    requires Survives(After(Start(items, device, [], stale, pending), es).device, after)
    ensures forall x: Setting :: LastMeant(items, x).Some? && x != PairingMode ==> Read(after, d, x) == LastMeant(items, x).value
  {
    var s0 := Start(items, device, [], stale, pending);
    assert Inv(s0, d);
    CommittedAlways(s0, d, es);
    EndToEnd(items, device, d, stale, pending, es);
    InvAlways(s0, d, es);
    NextBootAgrees(After(s0, es).device, d, after);
  }
}
