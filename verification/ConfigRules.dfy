// What a batch of configuration items asks of the device, told from the items themselves,
// and what a successful request leaves there.
module ConfigRules {
  import opened Wrappers
  import opened CStrings
  import opened ConfigStore
  import opened ConfigUpdate

  // The configuration has what the item asks for, in the interval of its key.
  predicate Says(c: Config, item: Item) {
    && (item.key == "wifi_ssid" ==> c.wifiSsid == item.value != "")
    && (item.key == "wifi_pass" ==> c.wifiPassword == item.value)
    && (item.key == "audio_timeout" ==>
          ParseI32(item.value) == Some(c.audioRecordTimeoutSec) && 3 <= c.audioRecordTimeoutSec <= 10)
    && (item.key == "lock_timeout" ==>
          ParseI32(item.value) == Some(c.lockTimeoutMs) && 5_000 <= c.lockTimeoutMs <= 300_000)
    && (item.key == "pairing_timeout" ==>
          ParseI32(item.value) == Some(c.pairingTimeoutSec) && 60 <= c.pairingTimeoutSec <= 600)
    && (item.key == "voice_detection_enable" ==> ParseI32(item.value) == Some(if c.voiceDetectionEnable then 1 else 0))
    && (item.key == "vad_rms_threshold" ==>
          ParseI32(item.value) == Some(c.vadRmsThreshold) && 500 <= c.vadRmsThreshold <= 25_000)
  }

  // It has what the last item for each key asks for.
  predicate Carries(c: Config, items: seq<Item>) {
    forall i :: 0 <= i < |items| && IsLastOf(items, i, items[i].key) ==> Says(c, items[i])
  }

  // The text fits the buffers of the device and the field of its setting.
  predicate Fitting(item: Item) {
    && |item.value| < 256
    && (item.key == "wifi_ssid" ==> |item.value| < 32 && '\0' !in item.value)
    && (item.key == "wifi_pass" ==> |item.value| < 64 && '\0' !in item.value)
  }

  predicate Kept(item: Item) { item.key == "voice_invite_enable" || item.key == "voice_threshold" }

  // ---- One item ----

  lemma FittingIsSendable(item: Item)
    requires Acceptable(item) && Fitting(item) && !Kept(item)
    ensures Sendable(item)
  {
    ValidIffAcceptable(item);
    BackEndKeys(item);
    FitsItsField(item);
  }

  lemma FitsItsField(item: Item)
    requires Valid(item) && ForDevice(item) && Fitting(item)
    ensures Fits(SettingFor(item), item.value)
  {
  }

  // A device that holds what an item means has what it asks for.
  lemma HeldText(item: Item, c: Config)
    requires Acceptable(item) && Get(c, SettingFor(item)) == Meant(item)
    ensures item.key == "wifi_ssid" || item.key == "wifi_pass" || item.key == "voice_detection_enable" ==> Says(c, item)
  {
  }

  lemma HeldNumber(item: Item, c: Config)
    requires Acceptable(item) && Get(c, SettingFor(item)) == Meant(item)
    ensures item.key != "wifi_ssid" && item.key != "wifi_pass" && item.key != "voice_detection_enable" ==> Says(c, item)
  {
  }

  // Different keys of the device are different settings.
  lemma KeysAreSettings(a: Item, b: Item)
    requires Acceptable(a) && Acceptable(b) && !Kept(a) && !Kept(b)
    ensures SettingFor(a) == SettingFor(b) <==> a.key == b.key
  {
  }

  // ---- A batch ----

  lemma {:induction false} AllSendable(items: seq<Item>)
    requires forall i :: 0 <= i < |items| ==> Acceptable(items[i]) && Fitting(items[i])
    ensures forall i :: 0 <= i < |DeviceItems(items)| ==> Sendable(DeviceItems(items)[i])
  {
    if items != [] {
      var item := items[|items| - 1];
      AllSendable(items[..|items| - 1]);
      BackEndKeys(item);
      if ForDevice(item) { FittingIsSendable(item); }
    }
  }

  lemma LastMeantAppend(items: seq<Item>, item: Item, x: Setting)
    ensures LastMeant(items + [item], x) == if SettingFor(item) == x then Some(Meant(item)) else LastMeant(items, x)
  {
    assert (items + [item])[..|items|] == items;
  }

  // The last item for a key is the last that asks for its setting.
  lemma {:induction false} LastOfIsMeant(items: seq<Item>, i: nat)
    requires forall k :: 0 <= k < |items| ==> Acceptable(items[k])
    requires i < |items| && IsLastOf(items, i, items[i].key) && !Kept(items[i])
    ensures LastMeant(DeviceItems(items), SettingFor(items[i])) == Some(Meant(items[i]))
  {
    var n := |items| - 1;
    assert items[..n] + [items[n]] == items;
    if i < n {
      assert items[..n][i] == items[i];
      LastOfIsMeant(items[..n], i);
      OtherItem(items[..n], items[n], items[i]);
    } else {
      OwnItem(items[..n], items[n]);
    }
  }

  lemma OwnItem(items: seq<Item>, item: Item)
    requires !Kept(item)
    ensures LastMeant(DeviceItems(items + [item]), SettingFor(item)) == Some(Meant(item))
  {
    DeviceItemsMore(items, item);
    DeviceItemsOfOne(item);
    LastMeantAppend(DeviceItems(items), item, SettingFor(item));
  }

  lemma OtherItem(items: seq<Item>, item: Item, mine: Item)
    requires Acceptable(item) && Acceptable(mine) && !Kept(mine) && item.key != mine.key
    ensures LastMeant(DeviceItems(items + [item]), SettingFor(mine)) == LastMeant(DeviceItems(items), SettingFor(mine))
  {
    DeviceItemsMore(items, item);
    DeviceItemsOfOne(item);
    if Kept(item) {
      assert DeviceItems(items) + [] == DeviceItems(items);
    } else {
      KeysAreSettings(item, mine);
      LastMeantAppend(DeviceItems(items), item, SettingFor(mine));
    }
  }

  // The device holds the last value of every setting that was sent.
  ghost predicate Holds(c: Config, items: seq<Item>) {
    forall x: Setting :: LastMeant(DeviceItems(items), x).Some? ==> Get(c, x) == LastMeant(DeviceItems(items), x).value
  }

  lemma KeptSaysNothing(item: Item, c: Config)
    requires Kept(item)
    ensures Says(c, item)
  {
  }

  lemma HeldIsCarried(c: Config, items: seq<Item>)
    requires (forall k :: 0 <= k < |items| ==> Acceptable(items[k])) && Holds(c, items)
    ensures Carries(c, items)
  {
    forall i | 0 <= i < |items| && IsLastOf(items, i, items[i].key) ensures Says(c, items[i]) {
      ItemIsCarried(c, items, i);
    }
  }

  lemma ItemIsCarried(c: Config, items: seq<Item>, i: nat)
    requires (forall k :: 0 <= k < |items| ==> Acceptable(items[k])) && Holds(c, items)
    requires i < |items| && IsLastOf(items, i, items[i].key)
    ensures Says(c, items[i])
  {
    if Kept(items[i]) {
      KeptSaysNothing(items[i], c);
    } else {
      LastOfIsMeant(items, i);
      HeldText(items[i], c);
      HeldNumber(items[i], c);
    }
  }

  // ---- A whole request ----

  // Success of a request that sends an accepted batch leaves every setting of the batch on
  // the device, in RAM, with the last value asked for and inside its interval.
  lemma SuccessSetsDevice(items: seq<Item>, device: State, d: Provisioned, stale: seq<Status>, pending: bool, es: seq<Event>)
    requires Agrees(device, d) && Acks(stale) == 0
    requires forall i :: 0 <= i < |items| ==> Acceptable(items[i]) && Fitting(items[i])
    requires var s0 := Start(DeviceItems(items), device, [], stale, pending);
      CanRun(s0, es) && Undisturbed(s0, d, es) && Unrepeated(es) && After(s0, es).phase == Finished(Ok)
    ensures Carries(After(Start(DeviceItems(items), device, [], stale, pending), es).device.config, items)
  {
    AllSendable(items);
    EndToEnd(DeviceItems(items), device, d, stale, pending, es);
    SettingsOfItems(DeviceItems(items));
    HeldIsCarried(After(Start(DeviceItems(items), device, [], stale, pending), es).device.config, items);
  }

  // No item asks for the pairing mode.
  lemma SettingsOfItems(items: seq<Item>)
    ensures LastMeant(items, PairingMode).None?
  {
    LastMeantIndex(items, PairingMode);
    forall i | 0 <= i < |items| ensures SettingFor(items[i]) != PairingMode { }
  }

  // If besides nothing was uncommitted at first and no local change leaves anything so, the
  // next boot comes up with these settings, however the power fails.
  lemma NextBootIsSet(items: seq<Item>, device: State, d: Provisioned, stale: seq<Status>, pending: bool, es: seq<Event>,
                      before: State, commits: bool, next: State)
    requires Agrees(device, d) && Durable(device) && Acks(stale) == 0
    requires forall i :: 0 <= i < |items| ==> Acceptable(items[i]) && Fitting(items[i])
    requires var s0 := Start(DeviceItems(items), device, [], stale, pending);
      && CanRun(s0, es) && Undisturbed(s0, d, es) && Unrepeated(es) && KeepsDurable(s0, es)
      && After(s0, es).phase == Finished(Ok) && Survives(After(s0, es).device, before.store)
    requires Loaded(before, d, true, commits, next)
    ensures Carries(next.config, items)
  {
    AllSendable(items);
    SuccessReachesNextBoot(DeviceItems(items), device, d, stale, pending, es, before.store);
    SettingsOfItems(DeviceItems(items));
    HeldIsCarried(next.config, items);
  }
}
