// Exactly when the success of a configuration update can be believed: what earlier requests
// left in the channels, what else updates the device meanwhile, and whether acknowledgements
// may be delivered twice decide it, for every batch and every device.
module Leftovers {
  import opened Wrappers
  import opened CStrings
  import opened ConfigStore
  import opened ConfigUpdate
  import opened Ledgers
  import PairingBoots

  // ---- The question ----

  // Success means that the device holds the last value of every setting of the batch, in
  // every run. With `locals` runs may be disturbed by other updates of the device, with
  // `repeats` acknowledgements may be delivered more than once.
  ghost predicate Believable(items: seq<Item>, device: State, d: Provisioned, queue: seq<Item>, stale: seq<Status>,
                             pending: bool, locals: bool, repeats: bool)
  {
    var s0 := Start(items, device, queue, stale, pending);
    forall es :: Allowed(s0, d, es, locals, repeats) && After(s0, es).phase == Finished(Ok) ==>
      Settled(After(s0, es).device, items, None)
  }

  ghost predicate Allowed(s0: Sys, d: Provisioned, es: seq<Event>, locals: bool, repeats: bool) {
    CanRun(s0, es) && FromFirmware(s0, es) && (locals || Undisturbed(s0, d, es)) && (repeats || Unrepeated(es))
  }

  // ---- The answer ----

  function Asks(items: seq<Item>): seq<Ask> {
    seq(|items|, i requires 0 <= i < |items| => Ask(SettingFor(items[i]), Meant(items[i])))
  }

  // The account of one setting when the request begins.
  function Opening(items: seq<Item>, device: State, queue: seq<Item>, stale: seq<Status>, x: Setting): Ledger {
    Ledger(Get(device.config, x), device.mqttUp, Asks(queue + items), |queue| + 1, Acks(stale), Acks(stale) > 0, |items|)
  }

  // The setting is in the device to stay, or there cannot be acknowledgements enough.
  predicate SettingTrustworthy(items: seq<Item>, device: State, queue: seq<Item>, stale: seq<Status>, repeats: bool,
                               x: Setting)
  {
    LastMeant(items, x).Some? ==>
      var l, v := Opening(items, device, queue, stale, x), LastMeant(items, x).value;
      Safe(l, x, v) || !Enough(l, x, v, repeats)
  }

  // Old acknowledgements alone suffice for a success.
  predicate StaleSuffice(items: seq<Item>, stale: seq<Status>, repeats: bool) {
    Acks(stale) >= |items| || (repeats && Acks(stale) > 0)
  }

  ghost predicate Trustworthy(items: seq<Item>, device: State, queue: seq<Item>, stale: seq<Status>, locals: bool,
                              repeats: bool)
  {
    || items == []
    || (locals && !device.mqttUp && !StaleSuffice(items, stale, repeats))
    || (!locals && forall x: Setting :: SettingTrustworthy(items, device, queue, stale, repeats, x))
  }

  // ---- The account of a run ----

  // All commands still to come to the device.
  function Rest(s: Sys): seq<Item>
    requires |s.log| <= |s.items|
  {
    s.toDevice + s.items[|s.log|..]
  }

  predicate Sound(s: Sys) {
    && s.items != [] && |s.log| <= |s.items| && s.next <= |s.items|
    && (s.phase == Ready ==> |s.log| == s.next < |s.items|)
    && (s.phase == Awaiting ==> |s.log| == s.next + 1)
    && (s.phase == Finished(Ok) ==> s.next == |s.items| == |s.log|)
    && (s.acked || (s.next == 0 && Acks(s.fromDevice) == 0))
  }

  predicate AllSendable(s: Sys) {
    && (forall item :: item in s.items ==> Sendable(item))
    && (forall item :: item in s.toDevice ==> Sendable(item))
  }

  // How many commands can be handled before the first acknowledgement.
  function Ahead(s: Sys): nat { |s.toDevice| + (if s.log == [] then 1 else 0) }

  function LedgerOf(s: Sys, x: Setting): Ledger
    requires Sound(s)
  {
    Ledger(Get(s.device.config, x), s.device.mqttUp, Asks(Rest(s)), Ahead(s), Acks(s.fromDevice), s.acked, |s.items| - s.next)
  }

  lemma Opened(items: seq<Item>, device: State, queue: seq<Item>, stale: seq<Status>, pending: bool, x: Setting)
    requires items != []
    ensures var s0 := Start(items, device, queue, stale, pending);
      Sound(s0) && LedgerOf(s0, x) == Opening(items, device, queue, stale, x) && Consistent(LedgerOf(s0, x))
  {
    assert items[0..] == items;
  }

  // ---- Every event is a move of the account ----

  // One step of the exchange in the terms of the account.
  predicate Accounted(s: Sys, m: Move, s': Sys, x: Setting) {
    Sound(s) && Sound(s') && Makes(LedgerOf(s, x), m, LedgerOf(s', x), x)
  }

  lemma SendMoves(s: Sys, x: Setting)
    requires Sound(s) && Enabled(s, Send)
    ensures Accounted(s, Sent, Apply(s, Send), x)
  {
    assert Rest(Apply(s, Send)) == Rest(s);
  }

  lemma TailOfRest(s: Sys)
    requires Sound(s) && s.toDevice != []
    ensures Asks(Rest(s)) != [] && Asks(s.toDevice[1..] + s.items[|s.log|..]) == Asks(Rest(s))[1..]
    ensures s.toDevice[1..] + s.items[|s.log|..] == Rest(s)[1..]
  {
    assert s.toDevice[1..] + s.items[|s.log|..] == Rest(s)[1..];
  }

  lemma HeadOfRest(s: Sys)
    requires Sound(s) && s.toDevice != []
    ensures Asks(Rest(s)) != [] && Asks(Rest(s))[0] == Ask(SettingFor(s.toDevice[0]), Meant(s.toDevice[0]))
  {
  }

  lemma LossMoves(s: Sys, x: Setting)
    requires Sound(s) && s.toDevice != []
    ensures Accounted(s, Gone, s.(toDevice := s.toDevice[1..]), x)
  {
    TailOfRest(s);
  }

  // The device is in another state and has published what that took.
  lemma ChangedLedger(s: Sys, device: State, x: Setting)
    requires Sound(s) && device.mqttUp == s.device.mqttUp
    ensures var answers := Acks(NewStatuses(s.device, device)); var l := LedgerOf(s, x);
      && Sound(Changed(s, device))
      && LedgerOf(Changed(s, device), x) ==
           l.(held := Get(device.config, x), acks := l.acks + answers, acked := l.acked || answers > 0)
  {
    AcksJoin(s.fromDevice, NewStatuses(s.device, device));
    assert Rest(Changed(s, device)) == Rest(s);
  }

  // The account after the device handled the first command.
  function AfterDelivery(l: Ledger, held: Value, statuses: seq<Status>): Ledger
    requires l.rest != [] && l.ahead > 0
  {
    l.(rest := l.rest[1..], ahead := l.ahead - 1, held := held, acks := l.acks + Acks(statuses),
       acked := l.acked || Acks(statuses) > 0)
  }

  lemma DeliveryLedger(s: Sys, device: State, x: Setting)
    requires Sound(s) && s.toDevice != [] && device.mqttUp == s.device.mqttUp
    ensures var s' := Changed(s, device).(toDevice := s.toDevice[1..]);
      && Sound(s') && Asks(Rest(s)) != []
      && LedgerOf(s', x) == AfterDelivery(LedgerOf(s, x), Get(device.config, x), NewStatuses(s.device, device))
  {
    TailOfRest(s);
    ChangedLedger(s, device, x);
    LossMoves(Changed(s, device), x);
  }

  // At most one answer, and none unconnected.
  lemma DeliveryIsHandling(l: Ledger, before: State, device: State, y: Setting, w: Value, x: Setting)
    requires l.rest != [] && l.rest[0] == Ask(y, w) && l.ahead > 0
    requires l.held == Get(before.config, x) && l.connected == device.mqttUp
    requires Processed(before, device, y, w) && (!device.mqttUp ==> NewStatuses(before, device) == [])
    ensures var statuses := NewStatuses(before, device);
      IsHandled(l, AfterDelivery(l, Get(device.config, x), statuses), x, statuses == [CONFIG_UPDATED])
  {
    AcksOfOne(NewStatuses(before, device));
  }

  lemma DeliveryMoves(s: Sys, device: State, x: Setting)
    requires Sound(s) && s.toDevice != [] && device.mqttUp == s.device.mqttUp
    requires Processed(s.device, device, SettingFor(s.toDevice[0]), Meant(s.toDevice[0]))
    requires !device.mqttUp ==> NewStatuses(s.device, device) == []
    ensures var answered := NewStatuses(s.device, device) == [CONFIG_UPDATED];
      Accounted(s, Handled(answered), Changed(s, device).(toDevice := s.toDevice[1..]), x)
  {
    HeadOfRest(s);
    DeliveryLedger(s, device, x);
    DeliveryIsHandling(LedgerOf(s, x), s.device, device, SettingFor(s.toDevice[0]), Meant(s.toDevice[0]), x);
  }

  // What the removal of the first status, or a new one, is for the account.
  function TakenFor(s: Sys): Move
    requires s.fromDevice != []
  {
    if s.fromDevice[0] != CONFIG_UPDATED then Rests else if s.pending && s.phase == Awaiting then Taken else Wasted
  }

  lemma FirstAck(statuses: seq<Status>)
    requires statuses != []
    ensures Acks(statuses) == Acks(statuses[1..]) + (if statuses[0] == CONFIG_UPDATED then 1 else 0)
  {
  }

  lemma StatusesLedger(s: Sys, statuses: seq<Status>, x: Setting)
    requires Sound(s) && (s.acked || Acks(statuses) == 0)
    ensures var s' := s.(fromDevice := statuses); Sound(s') && LedgerOf(s', x) == LedgerOf(s, x).(acks := Acks(statuses))
  {
    assert Rest(s.(fromDevice := statuses)) == Rest(s);
  }

  lemma LostStatusMoves(s: Sys, x: Setting)
    requires Sound(s) && s.fromDevice != []
    ensures Accounted(s, if s.fromDevice[0] == CONFIG_UPDATED then Wasted else Rests, s.(fromDevice := s.fromDevice[1..]), x)
  {
    FirstAck(s.fromDevice);
    StatusesLedger(s, s.fromDevice[1..], x);
  }

  lemma TakenMoves(s: Sys, x: Setting)
    requires Sound(s) && s.fromDevice != [] && s.fromDevice[0] == CONFIG_UPDATED && s.phase == Awaiting
    ensures Accounted(s, Taken, Advance(s.(fromDevice := s.fromDevice[1..], pending := false)), x)
  {
    var s' := Advance(s.(fromDevice := s.fromDevice[1..], pending := false));
    FirstAck(s.fromDevice);
    assert Rest(s') == Rest(s) && Sound(s');
  }

  lemma BackEndMoves(s: Sys, x: Setting)
    requires Sound(s) && s.fromDevice != []
    ensures Accounted(s, TakenFor(s), Apply(s, BackEndHandles), x)
  {
    if TakenFor(s) == Taken {
      TakenMoves(s, x);
    } else {
      LostStatusMoves(s, x);
    }
  }

  lemma StatusMoves(s: Sys, status: Status, x: Setting)
    requires Sound(s) && (status == CONFIG_UPDATED ==> s.acked)
    ensures Accounted(s, if status == CONFIG_UPDATED then Repeated else Rests, s.(fromDevice := s.fromDevice + [status]), x)
  {
    AcksJoin(s.fromDevice, [status]);
    AcksOfOne([status]);
    StatusesLedger(s, s.fromDevice + [status], x);
  }

  lemma HandlePublishes(device: State, item: Item, io: Io)
    requires Sendable(item)
    ensures var after := Handle(device, item, io);
      && Processed(device, after, SettingFor(item), Meant(item))
      && after.mqttUp == device.mqttUp && (!device.mqttUp ==> NewStatuses(device, after) == [])
  {
    HandleIs(device, item, io);
    UpdateProcessed(device, item, io);
    UpdatePublishes(device, item.key, item.value, io);
  }

  lemma GenuineKeepsLink(s: Sys, after: State)
    requires Genuine(s, LocalChange(after))
    ensures after.mqttUp == s.device.mqttUp && (!s.device.mqttUp ==> NewStatuses(s.device, after) == [])
  {
    var key: string, value: string, io: Io :| after == Update(s.device, key, value, io);
    UpdatePublishes(s.device, key, value, io);
  }

  lemma HandlingMoves(s: Sys, io: Io, x: Setting)
    requires Sound(s) && AllSendable(s) && s.toDevice != []
    ensures var answered := NewStatuses(s.device, Handle(s.device, s.toDevice[0], io)) == [CONFIG_UPDATED];
      Accounted(s, Handled(answered), Apply(s, DeviceHandles(io)), x)
  {
    HandlePublishes(s.device, s.toDevice[0], io);
    DeliveryMoves(s, Handle(s.device, s.toDevice[0], io), x);
  }

  lemma StepMoves(s: Sys, e: Event, x: Setting) returns (m: Move)
    requires Sound(s) && AllSendable(s) && Enabled(s, e) && !e.LocalChange?
    ensures Accounted(s, m, Apply(s, e), x) && (m == Repeated ==> e == AckRepeated)
  {
    match e
    case Send =>
      SendMoves(s, x);
      m := Sent;
    case DeviceHandles(io) =>
      HandlingMoves(s, io, x);
      m := Handled(NewStatuses(s.device, Handle(s.device, s.toDevice[0], io)) == [CONFIG_UPDATED]);
    case CommandLost =>
      LossMoves(s, x);
      m := Gone;
    case StatusLost =>
      LostStatusMoves(s, x);
      m := if s.fromDevice[0] == CONFIG_UPDATED then Wasted else Rests;
    case BackEndHandles =>
      BackEndMoves(s, x);
      m := TakenFor(s);
    case OtherStatus(status) =>
      StatusMoves(s, status, x);
      m := Rests;
    case AckRepeated =>
      StatusMoves(s, CONFIG_UPDATED, x);
      m := Repeated;
    case _ => m := Rests;
  }

  lemma StepSendable(s: Sys, e: Event)
    requires AllSendable(s) && Enabled(s, e)
    ensures AllSendable(Apply(s, e))
  {
  }

  // ---- What a run keeps ----

  predicate KeptIn(s: Sys, x: Setting, v: Value, repeats: bool) {
    Sound(s) && AllSendable(s) && Kept(LedgerOf(s, x), x, v, repeats)
  }

  lemma KeptStep(s: Sys, d: Provisioned, e: Event, x: Setting, v: Value, repeats: bool)
    requires KeptIn(s, x, v, repeats) && LastMeant(s.items, x).Some?
    requires Enabled(s, e) && Genuine(s, e) && Harmless(s, d, e) && (e == AckRepeated ==> repeats)
    ensures KeptIn(Apply(s, e), x, v, repeats)
  {
    StepSendable(s, e);
    if e.LocalChange? {
      GenuineKeepsLink(s, e.after);
      LastMeantIndex(s.items, x);
      ChangedLedger(s, e.after, x);
    } else {
      var m := StepMoves(s, e, x);
      KeptByMove(LedgerOf(s, x), m, LedgerOf(Apply(s, e), x), x, v, repeats);
    }
  }

  lemma KeptAtTheEnd(s: Sys, x: Setting, v: Value, repeats: bool)
    requires KeptIn(s, x, v, repeats) && s.phase == Finished(Ok)
    ensures Get(s.device.config, x) == v
  {
  }

  lemma {:induction false} KeptAlways(s: Sys, d: Provisioned, es: seq<Event>, x: Setting, v: Value, repeats: bool)
    requires KeptIn(s, x, v, repeats) && LastMeant(s.items, x).Some? && Allowed(s, d, es, false, repeats)
    ensures KeptIn(After(s, es), x, v, repeats)
  {
    if es != [] {
      KeptAlways(s, d, es[..|es| - 1], x, v, repeats);
      ItemsFixed(s, es[..|es| - 1]);
      KeptStep(After(s, es[..|es| - 1]), d, es[|es| - 1], x, v, repeats);
    }
  }

  // Without a connection old acknowledgements are all there will be.
  predicate Stuck(s: Sys, x: Setting, v: Value, repeats: bool) {
    && Sound(s) && AllSendable(s) && !s.device.mqttUp
    && Consistent(LedgerOf(s, x)) && !Enough(LedgerOf(s, x), x, v, repeats)
  }

  lemma StuckStep(s: Sys, e: Event, x: Setting, v: Value, repeats: bool)
    requires Stuck(s, x, v, repeats) && Enabled(s, e) && Genuine(s, e) && (e == AckRepeated ==> repeats)
    ensures Stuck(Apply(s, e), x, v, repeats)
  {
    StepSendable(s, e);
    if e.LocalChange? {
      GenuineKeepsLink(s, e.after);
      ChangedLedger(s, e.after, x);
      HeldIsNoMatter(LedgerOf(s, x), Get(e.after.config, x), x, v, repeats);
    } else {
      var m := StepMoves(s, e, x);
      PoorStays(LedgerOf(s, x), m, LedgerOf(Apply(s, e), x), x, v, repeats);
    }
  }

  lemma {:induction false} StuckAlways(s: Sys, d: Provisioned, es: seq<Event>, x: Setting, v: Value, repeats: bool)
    requires Stuck(s, x, v, repeats) && Allowed(s, d, es, true, repeats)
    ensures Stuck(After(s, es), x, v, repeats)
  {
    if es != [] {
      StuckAlways(s, d, es[..|es| - 1], x, v, repeats);
      StuckStep(After(s, es[..|es| - 1]), es[|es| - 1], x, v, repeats);
    }
  }

  // ---- The runs that lie ----

  lemma Extend(s0: Sys, d: Provisioned, es: seq<Event>, e: Event, locals: bool, repeats: bool)
    requires Allowed(s0, d, es, locals, repeats) && Enabled(After(s0, es), e)
    requires e.LocalChange? ==> locals && Genuine(After(s0, es), e)
    requires e == AckRepeated ==> repeats
    ensures Allowed(s0, d, es + [e], locals, repeats) && After(s0, es + [e]) == Apply(After(s0, es), e)
  {
    assert (es + [e])[..|es|] == es;
  }

  // The back end waits, an acknowledgement is under way, and it takes that for its own,
  // whatever the device did.
  lemma Believes(s0: Sys, d: Provisioned, es0: seq<Event>, s: Sys, locals: bool, repeats: bool) returns (es: seq<Event>)
    requires Allowed(s0, d, es0, locals, repeats) && After(s0, es0) == s
    requires s.phase == Awaiting && s.pending && Acks(s.fromDevice) > 0
    ensures Allowed(s0, d, es, locals, repeats)
    ensures var s' := After(s0, es);
      s' == Advance(s.(pending := false, fromDevice := s'.fromDevice)) && Acks(s'.fromDevice) == Acks(s.fromDevice) - 1
    decreases |s.fromDevice|
  {
    Extend(s0, d, es0, BackEndHandles, locals, repeats);
    es := es0 + [BackEndHandles];
    if s.fromDevice[0] != CONFIG_UPDATED {
      es := Believes(s0, d, es, Apply(s, BackEndHandles), locals, repeats);
    }
  }

  // An update that meets no failure holds its value and, connected, is acknowledged.
  lemma FineUpdate(st: State, key: string, value: string, x: Setting)
    requires SettingOf(key) == Some(x) && x != PairingMode
    ensures var after := Update(st, key, value, FINE);
      && Get(after.config, x) == Parse(x, value) && after.mqttUp == st.mqttUp
      && NewStatuses(st, after) == if st.mqttUp then [CONFIG_UPDATED] else []
  {
    PutFrame(st.config, x, Parse(x, value), x);
  }

  lemma FineItem(device: State, item: Item)
    requires Sendable(item)
    ensures var after := Update(device, item.key, item.value, FINE);
      && Get(after.config, SettingFor(item)) == Meant(item)
      && NewStatuses(device, after) == if device.mqttUp then [CONFIG_UPDATED] else []
  {
    SameSetting(item);
    SameValue(item);
    FineUpdate(device, item.key, item.value, SettingFor(item));
  }

  lemma FineHandled(device: State, item: Item)
    requires Sendable(item)
    ensures var after := Handle(device, item, FINE);
      && Get(after.config, SettingFor(item)) == Meant(item)
      && (NewStatuses(device, after) == [CONFIG_UPDATED] <==> device.mqttUp)
  {
    HandleIs(device, item, FINE);
    FineItem(device, item);
  }

  // A lie in the making.
  predicate LyingIn(s: Sys, x: Setting, v: Value, repeats: bool) {
    Sound(s) && AllSendable(s) && Lying(LedgerOf(s, x), x, v, repeats)
  }

  // The first command would settle the setting.
  predicate WouldSettle(s: Sys, x: Setting, v: Value)
    requires Sound(s)
  {
    Rest(s) != [] && Settles(Asks(Rest(s)), x, v)
  }

  // It is lost if it would, and handled otherwise.
  function Fate(s: Sys, x: Setting, v: Value): Event
    requires Sound(s)
  {
    if WouldSettle(s, x, v) then CommandLost else DeviceHandles(FINE)
  }

  // The first command is handled without failure.
  lemma FineDelivery(s: Sys, x: Setting)
    requires Sound(s) && AllSendable(s) && s.toDevice != []
    ensures var s' := Apply(s, DeviceHandles(FINE)); var asks := Asks(Rest(s));
      && Accounted(s, Handled(s.device.mqttUp), s', x)
      && asks != [] && (asks[0].setting == x ==> Get(s'.device.config, x) == asks[0].value)
  {
    var device := Handle(s.device, s.toDevice[0], FINE);
    HandlePublishes(s.device, s.toDevice[0], FINE);
    FineHandled(s.device, s.toDevice[0]);
    DeliveryMoves(s, device, x);
    DeliveryLedger(s, device, x);
    HeadOfRest(s);
  }

  lemma LossIsFate(s: Sys, x: Setting, v: Value)
    requires Sound(s) && s.toDevice != [] && WouldSettle(s, x, v)
    ensures var s' := Apply(s, CommandLost); Sound(s') && IsFate(LedgerOf(s, x), LedgerOf(s', x), x, v)
  {
    LossMoves(s, x);
    GoneIsFate(LedgerOf(s, x), LedgerOf(Apply(s, CommandLost), x), x, v);
  }

  lemma FineIsFate(s: Sys, x: Setting, v: Value)
    requires Sound(s) && AllSendable(s) && s.toDevice != [] && !WouldSettle(s, x, v)
    ensures var s' := Apply(s, DeviceHandles(FINE)); Sound(s') && IsFate(LedgerOf(s, x), LedgerOf(s', x), x, v)
  {
    FineDelivery(s, x);
    HandledIsFate(LedgerOf(s, x), LedgerOf(Apply(s, DeviceHandles(FINE)), x), x, v);
  }

  lemma FateMoves(s: Sys, x: Setting, v: Value)
    requires Sound(s) && AllSendable(s) && s.toDevice != []
    ensures var s' := Apply(s, Fate(s, x, v)); Sound(s') && IsFate(LedgerOf(s, x), LedgerOf(s', x), x, v)
  {
    if WouldSettle(s, x, v) {
      LossIsFate(s, x, v);
    } else {
      FineIsFate(s, x, v);
    }
  }

  lemma FateShrinks(s: Sys, x: Setting, v: Value)
    requires Sound(s) && s.toDevice != [] && Sound(Apply(s, Fate(s, x, v)))
    ensures |Rest(Apply(s, Fate(s, x, v)))| < |Rest(s)|
  {
  }

  lemma FateSpares(s: Sys, x: Setting, v: Value, repeats: bool)
    requires LyingIn(s, x, v, repeats) && s.toDevice != []
    ensures var s' := Apply(s, Fate(s, x, v)); LyingIn(s', x, v, repeats) && (Fed(s, x, v) ==> LedgerOf(s', x).acks > 0)
  {
    var s' := Apply(s, Fate(s, x, v));
    StepSendable(s, Fate(s, x, v));
    FateMoves(s, x, v);
    FateLies(LedgerOf(s, x), LedgerOf(s', x), x, v, repeats);
  }

  // An acknowledgement will be under way when the first command has met its fate.
  predicate Fed(s: Sys, x: Setting, v: Value)
    requires Sound(s)
  {
    Acks(s.fromDevice) > 0 || (s.device.mqttUp && !WouldSettle(s, x, v))
  }

  lemma SendSpares(s: Sys, x: Setting, v: Value, repeats: bool)
    requires LyingIn(s, x, v, repeats) && Enabled(s, Send)
    ensures var s' := Apply(s, Send); LyingIn(s', x, v, repeats) && Rest(s') == Rest(s) && (Fed(s, x, v) ==> Fed(s', x, v))
  {
    assert Rest(Apply(s, Send)) == Rest(s);
    SendMoves(s, x);
    StillLies(LedgerOf(s, x), Sent, LedgerOf(Apply(s, Send), x), x, v, repeats);
  }

  lemma RepetitionSpares(s: Sys, x: Setting, v: Value, repeats: bool)
    requires LyingIn(s, x, v, repeats) && s.phase == Ready && s.toDevice == [] && !Fed(s, x, v)
    ensures repeats && s.acked
    ensures LyingIn(Apply(s, AckRepeated), x, v, repeats) && Fed(Apply(s, AckRepeated), x, v)
  {
    FedByRepetition(LedgerOf(s, x), x, v, repeats);
    StatusMoves(s, CONFIG_UPDATED, x);
    AcksJoin(s.fromDevice, [CONFIG_UPDATED]);
    AcksOfOne([CONFIG_UPDATED]);
    StillLies(LedgerOf(s, x), Repeated, LedgerOf(Apply(s, AckRepeated), x), x, v, repeats);
  }

  lemma TakingSpares(s: Sys, s': Sys, x: Setting, v: Value, repeats: bool)
    requires LyingIn(s, x, v, repeats) && s.phase == Awaiting && s.toDevice == [] && Acks(s.fromDevice) > 0
    requires s' == Advance(s.(pending := false, fromDevice := s'.fromDevice)) && Acks(s'.fromDevice) == Acks(s.fromDevice) - 1
    ensures LyingIn(s', x, v, repeats) && Rest(s') == Rest(s)
  {
    StillLies(LedgerOf(s, x), Taken, LedgerOf(s', x), x, v, repeats);
  }

  // One round of the exchange: the next item is sent, meets its fate, and some
  // acknowledgement ends the wait.
  lemma SentAndMet(s: Sys, x: Setting, v: Value, repeats: bool)
    requires LyingIn(s, x, v, repeats) && s.phase == Ready && s.toDevice == [] && Fed(s, x, v)
    ensures Enabled(s, Send)
    ensures var sent := Apply(s, Send); var met := Apply(sent, Fate(sent, x, v));
      && LyingIn(met, x, v, repeats) && Acks(met.fromDevice) > 0
      && met.phase == Awaiting && met.pending && met.toDevice == [] && |Rest(met)| < |Rest(s)|
  {
    SendSpares(s, x, v, repeats);
    FateSpares(Apply(s, Send), x, v, repeats);
    FateShrinks(Apply(s, Send), x, v);
  }

  lemma Round(s0: Sys, d: Provisioned, es0: seq<Event>, s: Sys, x: Setting, v: Value, locals: bool, repeats: bool)
    returns (es: seq<Event>)
    requires Allowed(s0, d, es0, locals, repeats) && After(s0, es0) == s && LyingIn(s, x, v, repeats)
    requires s.phase == Ready && s.toDevice == [] && Fed(s, x, v)
    ensures Allowed(s0, d, es, locals, repeats)
    ensures var s' := After(s0, es); LyingIn(s', x, v, repeats) && Goal(s') && |Rest(s')| < |Rest(s)|
  {
    SentAndMet(s, x, v, repeats);
    Extend(s0, d, es0, Send, locals, repeats);
    var sent := Apply(s, Send);
    var e := Fate(sent, x, v);
    Extend(s0, d, es0 + [Send], e, locals, repeats);
    var met := Apply(sent, e);
    es := Believes(s0, d, es0 + [Send] + [e], met, locals, repeats);
    TakingSpares(met, After(s0, es), x, v, repeats);
  }

  // The back end can send, or is done and nothing is left that it sent.
  predicate Goal(s: Sys) { s.phase == Ready || (s.phase == Finished(Ok) && s.toDevice == []) }

  // Every lie in the making comes true.
  lemma LieFrom(s0: Sys, d: Provisioned, es0: seq<Event>, s: Sys, x: Setting, v: Value, locals: bool, repeats: bool)
    returns (es: seq<Event>)
    requires Allowed(s0, d, es0, locals, repeats) && After(s0, es0) == s && LyingIn(s, x, v, repeats) && Goal(s)
    ensures Allowed(s0, d, es, locals, repeats)
    ensures After(s0, es).phase == Finished(Ok) && Get(After(s0, es).device.config, x) != v
    decreases |Rest(s)|
  {
    if s.phase != Ready {
      es := es0;
    } else if s.toDevice != [] {
      var e := Fate(s, x, v);
      FateSpares(s, x, v, repeats);
      FateShrinks(s, x, v);
      Extend(s0, d, es0, e, locals, repeats);
      es := LieFrom(s0, d, es0 + [e], Apply(s, e), x, v, locals, repeats);
    } else if Fed(s, x, v) {
      es := Round(s0, d, es0, s, x, v, locals, repeats);
      es := LieFrom(s0, d, es, After(s0, es), x, v, locals, repeats);
    } else {
      RepetitionSpares(s, x, v, repeats);
      Extend(s0, d, es0, AckRepeated, locals, repeats);
      es := Round(s0, d, es0 + [AckRepeated], Apply(s, AckRepeated), x, v, locals, repeats);
      es := LieFrom(s0, d, es, After(s0, es), x, v, locals, repeats);
    }
  }

  // ---- With other updates ----

  // A value the setting can be given that is not `v`.
  lemma OtherValue(x: Setting, v: Value) returns (w: string)
    ensures Parse(x, w) != v
  {
    PairingBoots.ModeDigits();
    match KindOf(x)
    case TextOf(_) => w := if v == Text("") then "a" else "";
    case _ => w := if v == Parse(x, "0") then "1" else "0";
  }

  // The console gives the setting that value.
  lemma TouchAccounted(s: Sys, key: string, w: string, x: Setting)
    requires Sound(s) && SettingOf(key) == Some(x) && x != PairingMode
    ensures var after := Update(s.device, key, w, FINE); var s' := Changed(s, after);
      && Genuine(s, LocalChange(after)) && Sound(s') && after.mqttUp == s.device.mqttUp
      && Get(after.config, x) == Parse(x, w)
      && Acks(s'.fromDevice) == Acks(s.fromDevice) + (if s.device.mqttUp then 1 else 0)
  {
    FineUpdate(s.device, key, w, x);
    AcksJoin(s.fromDevice, [CONFIG_UPDATED]);
    AcksJoin(s.fromDevice, []);
    AcksOfOne([CONFIG_UPDATED]);
  }

  // It does so `n` times more.
  lemma Touches(s0: Sys, d: Provisioned, es0: seq<Event>, s: Sys, key: string, w: string, x: Setting, n: nat, repeats: bool)
    returns (es: seq<Event>)
    requires Allowed(s0, d, es0, true, repeats) && After(s0, es0) == s
    requires Sound(s) && SettingOf(key) == Some(x) && x != PairingMode && Get(s.device.config, x) == Parse(x, w)
    ensures Allowed(s0, d, es, true, repeats)
    ensures var s' := After(s0, es);
      && Sound(s') && s' == s.(device := s'.device, fromDevice := s'.fromDevice, acked := s'.acked)
      && s'.device.mqttUp == s.device.mqttUp && Get(s'.device.config, x) == Parse(x, w)
      && Acks(s'.fromDevice) >= Acks(s.fromDevice) + (if s.device.mqttUp then n else 0) && (s.acked ==> s'.acked)
    decreases n
  {
    es := es0;
    if n > 0 {
      var e := LocalChange(Update(s.device, key, w, FINE));
      TouchAccounted(s, key, w, x);
      Extend(s0, d, es0, e, true, repeats);
      es := Touches(s0, d, es0 + [e], Apply(s, e), key, w, x, n - 1, repeats);
    }
  }

  lemma SpoiltLies(s: Sys, x: Setting, v: Value, repeats: bool)
    requires Sound(s) && AllSendable(s) && Get(s.device.config, x) != v
    requires Acks(s.fromDevice) >= |s.items| - s.next || (repeats && Acks(s.fromDevice) > 0)
    ensures LyingIn(s, x, v, repeats)
  {
  }

  // The console gives a setting another value, as many times as there are items; then all
  // goes wrong.
  lemma ConsoleLies(s0: Sys, d: Provisioned, key: string, w: string, x: Setting, v: Value, repeats: bool)
    returns (es: seq<Event>)
    requires Sound(s0) && AllSendable(s0) && s0.phase == Ready
    requires SettingOf(key) == Some(x) && x != PairingMode && Parse(x, w) != v
    requires s0.device.mqttUp || Acks(s0.fromDevice) >= |s0.items| || (repeats && Acks(s0.fromDevice) > 0)
    ensures Allowed(s0, d, es, true, repeats) && After(s0, es).phase == Finished(Ok)
    ensures Get(After(s0, es).device.config, x) != v
  {
    var e := LocalChange(Update(s0.device, key, w, FINE));
    TouchAccounted(s0, key, w, x);
    Extend(s0, d, [], e, true, repeats);
    es := Touches(s0, d, [] + [e], Apply(s0, e), key, w, x, |s0.items|, repeats);
    SpoiltLies(After(s0, es), x, v, repeats);
    es := LieFrom(s0, d, es, After(s0, es), x, v, true, repeats);
  }

  lemma NamedByKey(item: Item)
    requires Sendable(item)
    ensures SettingOf(item.key) == Some(SettingFor(item)) && SettingFor(item) != PairingMode
  {
    SameSetting(item);
  }

  // The setting is the last one of the batch.
  lemma LieWithLocals(items: seq<Item>, device: State, d: Provisioned, queue: seq<Item>, stale: seq<Status>, pending: bool,
                      repeats: bool) returns (es: seq<Event>)
    requires items != [] && (forall item :: item in items ==> Sendable(item)) && (forall item :: item in queue ==> Sendable(item))
    requires device.mqttUp || StaleSuffice(items, stale, repeats)
    ensures var s0 := Start(items, device, queue, stale, pending); var last := items[|items| - 1];
      && Allowed(s0, d, es, true, repeats) && After(s0, es).phase == Finished(Ok)
      && Get(After(s0, es).device.config, SettingFor(last)) != Meant(last)
  {
    var s0, last := Start(items, device, queue, stale, pending), items[|items| - 1];
    var x, v := SettingFor(last), Meant(last);
    NamedByKey(last);
    var w := OtherValue(x, v);
    es := ConsoleLies(s0, d, last.key, w, x, v, repeats);
  }

  // ---- When success can be believed ----

  lemma BelievedWithLocals(items: seq<Item>, device: State, d: Provisioned, queue: seq<Item>, stale: seq<Status>,
                           pending: bool, repeats: bool)
    requires items != [] && (forall item :: item in items ==> Sendable(item)) && (forall item :: item in queue ==> Sendable(item))
    ensures Believable(items, device, d, queue, stale, pending, true, repeats) <==>
      !device.mqttUp && !StaleSuffice(items, stale, repeats)
  {
    var s0 := Start(items, device, queue, stale, pending);
    if device.mqttUp || StaleSuffice(items, stale, repeats) {
      var es := LieWithLocals(items, device, d, queue, stale, pending, repeats);
      assert LastMeant(items, SettingFor(items[|items| - 1])) == Some(Meant(items[|items| - 1]));
    } else {
      Opened(items, device, queue, stale, pending, DeviceId);
      forall es | Allowed(s0, d, es, true, repeats) ensures After(s0, es).phase != Finished(Ok) {
        StuckAlways(s0, d, es, DeviceId, Flag(false), repeats);
      }
    }
  }

  lemma SettingBelieved(items: seq<Item>, device: State, d: Provisioned, queue: seq<Item>, stale: seq<Status>,
                        pending: bool, repeats: bool, x: Setting, es: seq<Event>)
    requires items != [] && (forall item :: item in items ==> Sendable(item)) && (forall item :: item in queue ==> Sendable(item))
    requires SettingTrustworthy(items, device, queue, stale, repeats, x) && LastMeant(items, x).Some?
    requires Allowed(Start(items, device, queue, stale, pending), d, es, false, repeats)
    requires After(Start(items, device, queue, stale, pending), es).phase == Finished(Ok)
    ensures Get(After(Start(items, device, queue, stale, pending), es).device.config, x) == LastMeant(items, x).value
  {
    var s0, v := Start(items, device, queue, stale, pending), LastMeant(items, x).value;
    Opened(items, device, queue, stale, pending, x);
    KeptAlways(s0, d, es, x, v, repeats);
    KeptAtTheEnd(After(s0, es), x, v, repeats);
  }

  lemma SettingLies(items: seq<Item>, device: State, d: Provisioned, queue: seq<Item>, stale: seq<Status>,
                    pending: bool, repeats: bool, x: Setting) returns (es: seq<Event>)
    requires items != [] && (forall item :: item in items ==> Sendable(item)) && (forall item :: item in queue ==> Sendable(item))
    requires !SettingTrustworthy(items, device, queue, stale, repeats, x)
    ensures LastMeant(items, x).Some?
    ensures var s0 := Start(items, device, queue, stale, pending);
      && Allowed(s0, d, es, false, repeats) && After(s0, es).phase == Finished(Ok)
      && Get(After(s0, es).device.config, x) != LastMeant(items, x).value
  {
    var s0, v := Start(items, device, queue, stale, pending), LastMeant(items, x).value;
    Opened(items, device, queue, stale, pending, x);
    es := LieFrom(s0, d, [], s0, x, v, false, repeats);
  }

  // For every batch, device and leftover: success means applied, in every run, if and only
  // if it is trustworthy.
  lemma SuccessBelievable(items: seq<Item>, device: State, d: Provisioned, queue: seq<Item>, stale: seq<Status>,
                          pending: bool, locals: bool, repeats: bool)
    requires (forall item :: item in items ==> Sendable(item)) && (forall item :: item in queue ==> Sendable(item))
    ensures Believable(items, device, d, queue, stale, pending, locals, repeats) <==>
      Trustworthy(items, device, queue, stale, locals, repeats)
  {
    var s0 := Start(items, device, queue, stale, pending);
    if items == [] {
    } else if locals {
      BelievedWithLocals(items, device, d, queue, stale, pending, repeats);
    } else if x: Setting :| !SettingTrustworthy(items, device, queue, stale, repeats, x) {
      var es := SettingLies(items, device, d, queue, stale, pending, repeats, x);
    } else {
      forall es, x: Setting | Allowed(s0, d, es, false, repeats) && After(s0, es).phase == Finished(Ok) && LastMeant(items, x).Some?
        ensures Get(After(s0, es).device.config, x) == LastMeant(items, x).value
      {
        SettingBelieved(items, device, d, queue, stale, pending, repeats, x, es);
      }
    }
  }

  // ---- Simple cases ----

  lemma AsksJoined(a: seq<Item>, b: seq<Item>)
    ensures Asks(a + b) == Asks(a) + Asks(b)
  {
  }

  lemma AllButLast(items: seq<Item>)
    requires items != []
    ensures var n := |items| - 1; Asks(items)[..n] == Asks(items[..n]) && Asks(items)[n] == Ask(SettingFor(items[n]), Meant(items[n]))
  {
  }

  lemma {:induction false} LastMeantIsLast(items: seq<Item>, x: Setting) returns (k: nat)
    requires LastMeant(items, x).Some?
    ensures IsLast(Asks(items), k, x, LastMeant(items, x).value)
  {
    var n := |items| - 1;
    AllButLast(items);
    k := n;
    if SettingFor(items[n]) != x {
      k := LastMeantIsLast(items[..n], x);
      LastExtends(Asks(items), k, x, LastMeant(items[..n], x).value);
    }
  }

  lemma {:induction false} LastIsLastMeant(items: seq<Item>, k: nat, x: Setting, v: Value)
    requires IsLast(Asks(items), k, x, v)
    ensures LastMeant(items, x) == Some(v)
  {
    var n := |items| - 1;
    if k < n {
      AllButLast(items);
      LastExtends(Asks(items), k, x, v);
      LastIsLastMeant(items[..n], k, x, v);
    }
  }

  // Nothing is left over: a device without a connection never deceives; with one, nobody
  // else may update it, and if acknowledgements may be repeated every setting must be asked
  // only one value, and must have it already or be the first one sent.
  lemma CleanStart(items: seq<Item>, device: State, d: Provisioned, stale: seq<Status>, pending: bool, locals: bool,
                   repeats: bool)
    requires items != [] && Acks(stale) == 0 && forall item :: item in items ==> Sendable(item)
    ensures Believable(items, device, d, [], stale, pending, locals, repeats) <==>
      || !device.mqttUp
      || (!locals && (repeats ==> forall x: Setting :: LastMeant(items, x).Some? ==> OneAnswer(items, device, x)))
  {
    SuccessBelievable(items, device, d, [], stale, pending, locals, repeats);
    if device.mqttUp && !locals {
      forall x: Setting | LastMeant(items, x).Some?
        ensures SettingTrustworthy(items, device, [], stale, repeats, x) <==> (repeats ==> OneAnswer(items, device, x))
      {
        CleanSetting(items, device, stale, repeats, x);
      }
    }
  }

  predicate OneAnswer(items: seq<Item>, device: State, x: Setting)
    requires items != [] && LastMeant(items, x).Some?
  {
    && !Contradicted(Asks(items), x, LastMeant(items, x).value)
    && (Get(device.config, x) == LastMeant(items, x).value || SettingFor(items[0]) == x)
  }

  lemma CleanSetting(items: seq<Item>, device: State, stale: seq<Status>, repeats: bool, x: Setting)
    requires items != [] && Acks(stale) == 0 && device.mqttUp && LastMeant(items, x).Some?
    ensures SettingTrustworthy(items, device, [], stale, repeats, x) <==> (repeats ==> OneAnswer(items, device, x))
  {
    var v := LastMeant(items, x).value;
    var k := LastMeantIsLast(items, x);
    OneSettles(Asks(items), k, x, v);
    assert [] + items == items;
    FirstOf(Asks(items), 1, x, v);
    assert Lead(Asks(items)[1..], 0, x, v) == 0;
    assert Asks(items)[0].setting == SettingFor(items[0]);
  }

  predicate SameEffect(a: Item, b: Item) { SettingFor(a) == SettingFor(b) && Meant(a) == Meant(b) }

  predicate Opposes(a: Item, b: Item) { SettingFor(a) == SettingFor(b) && Meant(a) != Meant(b) }

  predicate HoldsItem(device: State, item: Item) { Get(device.config, SettingFor(item)) == Meant(item) }

  predicate OneItemSafe(item: Item, device: State, queue: seq<Item>, stale: seq<Status>) {
    || (HoldsItem(device, item) && forall i :: 0 <= i < |queue| ==> !Opposes(queue[i], item))
    || (Acks(stale) == 0 && (device.mqttUp ==> forall i :: 0 <= i < |queue| ==> SameEffect(queue[i], item)))
  }

  // A request for one item: with other updates there must be neither a connection nor an
  // old acknowledgement; without, either the device has the value and no old command asks
  // for another, or there is no old acknowledgement and, connected, every old command asks
  // for the same thing. Repetition makes no difference.
  lemma LeftoverMatters(item: Item, device: State, d: Provisioned, queue: seq<Item>, stale: seq<Status>, pending: bool,
                        locals: bool, repeats: bool)
    requires Sendable(item) && forall other :: other in queue ==> Sendable(other)
    ensures Believable([item], device, d, queue, stale, pending, locals, repeats) <==>
      if locals then !device.mqttUp && Acks(stale) == 0 else OneItemSafe(item, device, queue, stale)
  {
    SuccessBelievable([item], device, d, queue, stale, pending, locals, repeats);
    if !locals {
      OnlySetting(item, device, queue, stale, repeats);
      OneSetting(item, device, queue, stale, repeats);
    }
  }

  lemma OnlySetting(item: Item, device: State, queue: seq<Item>, stale: seq<Status>, repeats: bool)
    ensures Trustworthy([item], device, queue, stale, false, repeats) <==>
      SettingTrustworthy([item], device, queue, stale, repeats, SettingFor(item))
  {
    forall y: Setting | y != SettingFor(item) ensures LastMeant([item], y).None? {
      assert [item][..0] == [];
    }
  }

  lemma OneSetting(item: Item, device: State, queue: seq<Item>, stale: seq<Status>, repeats: bool)
    ensures SettingTrustworthy([item], device, queue, stale, repeats, SettingFor(item)) <==> OneItemSafe(item, device, queue, stale)
  {
    var x, v := SettingFor(item), Meant(item);
    AsksJoined(queue, [item]);
    assert Asks([item]) == [Ask(x, v)];
    ForOneItem(Opening([item], device, queue, stale, x), Asks(queue), x, v, repeats);
    assert forall i :: 0 <= i < |queue| ==> Asks(queue)[i] == Ask(SettingFor(queue[i]), Meant(queue[i]));
  }

  // Losing item `k` alone would show: it changes its setting, and no later item does.
  predicate NeededItem(device: State, items: seq<Item>, k: nat) {
    k < |items| && var x := SettingFor(items[k]); Needed(Get(device.config, x), Asks(items), k, x, Meant(items[k]))
  }

  // For a batch with an item whose loss would show (two, of different settings, if commands
  // are left over or acknowledgements may be repeated), sent to a connected device: success
  // can be believed exactly if nothing is left over, neither acknowledgement nor command,
  // nobody else updates the device and no acknowledgement is repeated.
  lemma BatchLeftoverMatters(items: seq<Item>, device: State, d: Provisioned, queue: seq<Item>, stale: seq<Status>,
                             pending: bool, locals: bool, repeats: bool, j: nat, k: nat)
    requires device.mqttUp && (forall item :: item in items ==> Sendable(item)) && (forall item :: item in queue ==> Sendable(item))
    requires NeededItem(device, items, j) && NeededItem(device, items, k)
    requires queue != [] || repeats ==> SettingFor(items[j]) != SettingFor(items[k])
    ensures Believable(items, device, d, queue, stale, pending, locals, repeats) <==>
      Acks(stale) == 0 && queue == [] && !locals && !repeats
  {
    SuccessBelievable(items, device, d, queue, stale, pending, locals, repeats);
    if Acks(stale) == 0 && queue == [] && !locals && !repeats {
      CleanStart(items, device, d, stale, pending, false, false);
    } else if !locals {
      var keptByFirst := if queue == [] then j == 0 else SettingFor(queue[0]) == SettingFor(items[j]);
      NeededLies(items, device, queue, stale, repeats, if keptByFirst then k else j);
    }
  }

  lemma NeededLies(items: seq<Item>, device: State, queue: seq<Item>, stale: seq<Status>, repeats: bool, k: nat)
    requires device.mqttUp && NeededItem(device, items, k)
    requires Acks(stale) > 0 || (if queue == [] then repeats && k > 0 else SettingFor(queue[0]) != SettingFor(items[k]))
    ensures !SettingTrustworthy(items, device, queue, stale, repeats, SettingFor(items[k]))
  {
    var x, v := SettingFor(items[k]), Meant(items[k]);
    LastIsLastMeant(items, k, x, v);
    OnlyOneSettles(Get(device.config, x), Asks(items), k, x, v);
    Joined(Asks(queue), Asks(items), x, v);
    AsksJoined(queue, items);
    if queue == [] {
      assert [] + items == items;
      FirstOf(Asks(items), 1, x, v);
    } else {
      assert Asks(queue + items)[0].setting == SettingFor(queue[0]);
    }
  }

  // With nothing left over, nobody else and nothing lost, the acknowledgement of the first
  // item delivered twice is enough for a success without the second.
  lemma RepetitionLies(a: Item, b: Item, device: State, d: Provisioned, stale: seq<Status>, pending: bool)
    returns (es: seq<Event>)
    requires Sendable(a) && Sendable(b) && SettingFor(a) != SettingFor(b) && device.mqttUp && !HoldsItem(device, b)
    ensures var s0 := Start([a, b], device, [], stale, pending);
      && CanRun(s0, es) && FromFirmware(s0, es) && Undisturbed(s0, d, es)
      && After(s0, es).phase == Finished(Ok) && !HoldsItem(After(s0, es).device, b)
  {
    var x, v := SettingFor(b), Meant(b);
    assert Asks([a, b]) == [Ask(SettingFor(a), Meant(a)), Ask(x, v)];
    SecondNeeded(Get(device.config, x), Ask(SettingFor(a), Meant(a)), x, v);
    LastIsLastMeant([a, b], 1, x, v);
    NeededLies([a, b], device, [], stale, true, 1);
    es := SettingLies([a, b], device, d, [], stale, pending, true, x);
  }

  // A leftover acknowledgement is enough for a success of a request for one item of which
  // the device has seen nothing.
  lemma LeftoverLies(item: Item, device: State, d: Provisioned, queue: seq<Item>, stale: seq<Status>, pending: bool)
    returns (es: seq<Event>)
    requires Acks(stale) > 0
    ensures var s0 := Start([item], device, queue, stale, pending);
      && Allowed(s0, d, es, false, false)
      && After(s0, es).phase == Finished(Ok) && After(s0, es).device == device
  {
    var s0 := Start([item], device, queue, stale, pending);
    Extend(s0, d, [], Send, false, false);
    es := Believes(s0, d, [] + [Send], Apply(s0, Send), false, false);
  }
}
