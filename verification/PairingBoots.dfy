// Pairing mode over boots: what a boot can leave in the store, and which mode the next
// boot comes up in.
module PairingBoots {
  import opened Wrappers
  import opened CStrings
  import opened ConfigStore

  // The statements of one boot that can reach the configuration, in any order tasks
  // produce them. Touch and Pair restart the device afterwards.
  datatype Op =
    | ResetPairing(io: Io)
    | Touch(io: Io)
    | Pair(io: Io)         // from the console, announced first
    | RelayedPair(io: Io)  // from the broker, announced afterwards
    | Set(key: string, value: string, io: Io)

  function ApplyOp(st: State, op: Op): State {
    match op
    case ResetPairing(io) => if st.config.pairingMode then Update(st, "pairing_mode", "0", io) else st
    case Touch(io) => Update(st, "pairing_mode", if st.config.pairingMode then "0" else "1", io)
    case Pair(io) => Update(Publish(st, ENTERING_PAIRING_MODE), "pairing_mode", "1", io)
    case RelayedPair(io) => Publish(Update(st, "pairing_mode", "1", io), ENTERING_PAIRING_MODE)
    case Set(key, value, io) => Update(st, key, value, io)
  }

  // The states a boot goes through.
  ghost predicate Steps(states: seq<State>, ops: seq<Op>) {
    |states| == |ops| + 1 && forall i :: 0 <= i < |ops| ==> states[i + 1] == ApplyOp(states[i], ops[i])
  }

  function PairingStored(store: Nvs, d: Provisioned): bool {
    Read(store, d, PairingMode).Flag? && Read(store, d, PairingMode).on
  }

  // An update of the pairing mode to the opposite of what this boot loaded, with both NVS
  // calls that precede the commit succeeding.
  predicate Flips(mode: bool, op: Op) {
    op.io.opens && op.io.writes
    && match op
       case ResetPairing(_) => mode
       case Touch(_) => true
       case Pair(_) => !mode
       case RelayedPair(_) => !mode
       case Set(key, value, _) => SettingOf(key) == Some(PairingMode) && (Atoi(value) != 0) != mode
  }

  // The operation gets as far as writing its slot.
  predicate Writes(st: State, op: Op) {
    if op.Set? then SettingOf(op.key).Some? && Copies(st, SettingOf(op.key).value, op.value, op.io)
    else Flips(st.config.pairingMode, op)
  }

  // It commits what it wrote, and with it whatever earlier operations left uncommitted.
  predicate Flushes(st: State, op: Op) { Writes(st, op) && op.io.commits }

  lemma PairingKey()
    ensures SettingOf("pairing_mode") == Some(PairingMode)
  {
    var key := "pairing_mode";
    assert |Lower(key)| == 12;
    assert Lower(key)[0] == 'p' && Lower("lock_timeout")[0] == 'l';
    LengthsDiffer(key);
  }

  // No other key is as long as this one, except lock_timeout.
  lemma LengthsDiffer(key: string)
    requires |key| == 12
    ensures !Is(key, "wifi_ssid") && !Is(key, "wifi_pass") && !Is(key, "backend_url") && !Is(key, "backend_bearer")
    ensures !Is(key, "mqtt_broker") && !Is(key, "mqtt_pass") && !Is(key, "mqtt_hb_enable") && !Is(key, "mqtt_hb_interval")
    ensures !Is(key, "audio_timeout") && !Is(key, "pairing_timeout") && !Is(key, "user_id")
  {
    assert |Lower(key)| == 12;
    assert |Lower("wifi_ssid")| == 9 && |Lower("wifi_pass")| == 9 && |Lower("backend_url")| == 11;
    assert |Lower("backend_bearer")| == 14 && |Lower("mqtt_broker")| == 11 && |Lower("mqtt_pass")| == 9;
    assert |Lower("mqtt_hb_enable")| == 14 && |Lower("mqtt_hb_interval")| == 16 && |Lower("audio_timeout")| == 13;
    assert |Lower("pairing_timeout")| == 15 && |Lower("user_id")| == 7;
  }

  lemma ModeDigits()
    ensures Atoi("0") == 0 && Atoi("1") == 1
  {
    assert SkipSpace("0") == "0" && SkipSpace("1") == "1";
    assert LeadingDigits("0"[1..], 0) == 0 && LeadingDigits("1"[1..], 1) == 1;
  }

  // Settings stored under the caller's spelling never land in the pairing slot.
  lemma OtherKeysMiss(key: string, s: Setting)
    requires SettingOf(key) == Some(s) && s != PairingMode
    ensures WriteSlot(s, key) != Slot(PairingMode)
  {
    if StoredAsSpelled(s) && key == "pairing_mode" { PairingKey(); }
    SlotsDiffer(s, PairingMode);
  }

  // How a state may follow another within a boot: the mode in RAM is the same, the stored
  // mode is flipped or the same, and the store is committed or is not.
  predicate Follows(st: State, st': State, d: Provisioned, flips: bool, flushes: bool) {
    var mode := st.config.pairingMode;
    && st'.config.pairingMode == mode
    && PairingStored(st'.store, d) == (if flips then !mode else PairingStored(st.store, d))
    && st'.committed == (if flushes then st'.store else st.committed)
  }

  lemma ModeOnMode(st: State, d: Provisioned, v: Value, io: Io)
    requires v.Flag?
    ensures var flips := io.opens && io.writes && v != Flag(st.config.pairingMode);
      Follows(st, UpdateSetting(st, PairingMode, Slot(PairingMode), v, io), d, flips, flips && io.commits)
  {
  }

  lemma AssignOnMode(st: State, d: Provisioned, s: Setting, slot: string, v: Value, commit: bool)
    requires HasKind(v, KindOf(s)) && s != PairingMode && slot != Slot(PairingMode)
    ensures Follows(st, Assign(st, s, slot, v, commit), d, false, commit)
  {
    PutFrame(st.config, s, v, PairingMode);
    ReadFrame(st.store, d, slot, Encode(v), PairingMode);
  }

  lemma SettingOnMode(st: State, d: Provisioned, s: Setting, slot: string, v: Value, io: Io)
    requires HasKind(v, KindOf(s)) && s != PairingMode && slot != Slot(PairingMode)
    ensures Follows(st, UpdateSetting(st, s, slot, v, io), d, false,
                    io.opens && io.writes && Get(st.config, s) != v && io.commits)
  {
    if io.opens && Get(st.config, s) != v && io.writes {
      AssignOnMode(st, d, s, slot, v, io.commits);
    }
  }

  lemma OtherOnMode(st: State, d: Provisioned, key: string, value: string, io: Io, s: Setting)
    requires SettingOf(key) == Some(s) && s != PairingMode
    ensures Follows(st, Update(st, key, value, io), d, false, Copies(st, s, value, io) && io.commits)
  {
    OtherKeysMiss(key, s);
    SettingOnMode(st, d, s, WriteSlot(s, key), Parse(s, value), io);
  }

  // RAM keeps the mode the boot was loaded in; the store changes only to its opposite.
  lemma UpdateOnMode(st: State, d: Provisioned, key: string, value: string, io: Io)
    ensures Follows(st, Update(st, key, value, io), d, Flips(st.config.pairingMode, Set(key, value, io)),
                    Flushes(st, Set(key, value, io)))
  {
    match SettingOf(key)
    case None =>
    case Some(s) =>
      if s == PairingMode {
        ModeOnMode(st, d, Parse(s, value), io);
      } else {
        OtherOnMode(st, d, key, value, io, s);
      }
  }

  // Asking for a mode by the key of the setting.
  lemma AskOnMode(st: State, d: Provisioned, on: bool, io: Io)
    ensures var flips := io.opens && io.writes && on != st.config.pairingMode;
      Follows(st, Update(st, "pairing_mode", if on then "1" else "0", io), d, flips, flips && io.commits)
  {
    PairingKey();
    ModeDigits();
    UpdateOnMode(st, d, "pairing_mode", if on then "1" else "0", io);
  }

  lemma OpOnMode(st: State, d: Provisioned, op: Op)
    ensures Follows(st, ApplyOp(st, op), d, Flips(st.config.pairingMode, op), Flushes(st, op))
  {
    match op
    case ResetPairing(io) => AskOnMode(st, d, false, io);
    case Touch(io) => AskOnMode(st, d, !st.config.pairingMode, io);
    case Pair(io) => AskOnMode(Publish(st, ENTERING_PAIRING_MODE), d, true, io);
    case RelayedPair(io) => AskOnMode(st, d, true, io);
    case Set(key, value, io) => UpdateOnMode(st, d, key, value, io);
  }

  // The same for a whole boot, kept apart from what the operations are.
  predicate Chain(states: seq<State>, d: Provisioned, flips: seq<bool>, flushes: seq<bool>) {
    && |states| == |flips| + 1 == |flushes| + 1
    && forall i :: 0 <= i < |flips| ==> Follows(states[i], states[i + 1], d, flips[i], flushes[i])
  }

  // Some flip was followed by a commit.
  predicate FlipFlushed(flips: seq<bool>, flushes: seq<bool>)
    requires |flips| == |flushes|
  {
    flips != [] &&
    var n := |flips| - 1;
    (flushes[n] && true in flips) || FlipFlushed(flips[..n], flushes[..n])
  }

  // The store is at the opposite of the mode from the first flip on, the flash from the
  // first commit after that.
  lemma {:induction false} ChainMode(states: seq<State>, d: Provisioned, flips: seq<bool>, flushes: seq<bool>)
    requires Chain(states, d, flips, flushes)
    ensures var first, last := states[0], states[|flips|]; var mode := first.config.pairingMode;
      && last.config.pairingMode == mode
      && PairingStored(last.store, d) == (if true in flips then !mode else PairingStored(first.store, d))
      && (FlipFlushed(flips, flushes) ==> true in flips && PairingStored(last.committed, d) == !mode)
      && (!FlipFlushed(flips, flushes) ==>
            PairingStored(last.committed, d) == PairingStored(first.committed, d)
            || PairingStored(last.committed, d) == PairingStored(first.store, d))
    decreases |flips|
  {
    var n := |flips|;
    if n > 0 {
      ChainMode(states[..n], d, flips[..n - 1], flushes[..n - 1]);
      assert flips == flips[..n - 1] + [flips[n - 1]];
      assert true in flips <==> true in flips[..n - 1] || flips[n - 1];
      assert Follows(states[n - 1], states[n], d, flips[n - 1], flushes[n - 1]);
    }
  }

  lemma {:induction false} FlipFlushedIs(flips: seq<bool>, flushes: seq<bool>)
    requires |flips| == |flushes|
    ensures FlipFlushed(flips, flushes) <==> exists i, j :: 0 <= i <= j < |flips| && flips[i] && flushes[j]
  {
    var n := |flips| - 1;
    if flips != [] {
      FlipFlushedIs(flips[..n], flushes[..n]);
      if i, j :| 0 <= i <= j < |flips| && flips[i] && flushes[j] {
        assert j < n ==> flips[..n][i] && flushes[..n][j];
      }
      if i, j :| 0 <= i <= j < n && flips[..n][i] && flushes[..n][j] {
        assert flips[i] && flushes[j];
      }
    }
  }

  // Each state follows the one before it, whatever the operation was.
  ghost predicate Linked(states: seq<State>, d: Provisioned, ops: seq<Op>) {
    && |states| == |ops| + 1
    && forall i :: 0 <= i < |ops| ==>
         Follows(states[i], states[i + 1], d, Flips(states[i].config.pairingMode, ops[i]), Flushes(states[i], ops[i]))
  }

  lemma StepsLink(states: seq<State>, d: Provisioned, ops: seq<Op>)
    requires Steps(states, ops)
    ensures Linked(states, d, ops)
  {
    forall i | 0 <= i < |ops|
      ensures Follows(states[i], states[i + 1], d, Flips(states[i].config.pairingMode, ops[i]), Flushes(states[i], ops[i]))
    {
      OpOnMode(states[i], d, ops[i]);
    }
  }

  lemma {:induction false} LinkedMode(states: seq<State>, d: Provisioned, ops: seq<Op>, i: nat)
    requires Linked(states, d, ops) && i <= |ops|
    ensures states[i].config.pairingMode == states[0].config.pairingMode
  {
    if i > 0 {
      LinkedMode(states, d, ops, i - 1);
      assert Follows(states[i - 1], states[i], d, Flips(states[i - 1].config.pairingMode, ops[i - 1]),
                     Flushes(states[i - 1], ops[i - 1]));
    }
  }

  function FlipsOf(mode: bool, ops: seq<Op>): seq<bool> { seq(|ops|, i requires 0 <= i < |ops| => Flips(mode, ops[i])) }

  function FlushesOf(states: seq<State>, ops: seq<Op>): seq<bool>
    requires |states| == |ops| + 1
  {
    seq(|ops|, i requires 0 <= i < |ops| => Flushes(states[i], ops[i]))
  }

  lemma LinkedChain(states: seq<State>, d: Provisioned, ops: seq<Op>)
    requires Linked(states, d, ops)
    ensures Chain(states, d, FlipsOf(states[0].config.pairingMode, ops), FlushesOf(states, ops))
  {
    var mode := states[0].config.pairingMode;
    forall i | 0 <= i < |ops|
      ensures Follows(states[i], states[i + 1], d, FlipsOf(mode, ops)[i], FlushesOf(states, ops)[i])
    {
      LinkedMode(states, d, ops, i);
    }
  }

  lemma BootChain(states: seq<State>, d: Provisioned, ops: seq<Op>)
    requires Steps(states, ops)
    ensures Chain(states, d, FlipsOf(states[0].config.pairingMode, ops), FlushesOf(states, ops))
  {
    StepsLink(states, d, ops);
    LinkedChain(states, d, ops);
  }

  ghost predicate SomeFlip(mode: bool, ops: seq<Op>) {
    exists i :: 0 <= i < |ops| && Flips(mode, ops[i])
  }

  // An operation that flips the mode, and one from then on that commits.
  ghost predicate CommittedFlip(states: seq<State>, ops: seq<Op>)
    requires |states| == |ops| + 1
  {
    exists i, j :: 0 <= i <= j < |ops| && Flips(states[0].config.pairingMode, ops[i]) && Flushes(states[j], ops[j])
  }

  predicate CommittedReset(op: Op) { op.ResetPairing? && op.io == FINE }

  lemma CommittedFlipIs(states: seq<State>, ops: seq<Op>)
    requires |states| == |ops| + 1
    ensures FlipFlushed(FlipsOf(states[0].config.pairingMode, ops), FlushesOf(states, ops)) <==> CommittedFlip(states, ops)
  {
    var mode := states[0].config.pairingMode;
    var flips, flushes := FlipsOf(mode, ops), FlushesOf(states, ops);
    FlipFlushedIs(flips, flushes);
    assert forall i :: 0 <= i < |ops| ==> flips[i] == Flips(mode, ops[i]);
    assert forall j :: 0 <= j < |ops| ==> flushes[j] == Flushes(states[j], ops[j]);
  }

  // A committed reset is a committed flip of a pairing boot.
  lemma ResetIsFlip(states: seq<State>, d: Provisioned, ops: seq<Op>, i: nat)
    requires Steps(states, ops) && states[0].config.pairingMode && i < |ops| && CommittedReset(ops[i])
    ensures CommittedFlip(states, ops)
  {
    StepsLink(states, d, ops);
    LinkedMode(states, d, ops, i);
    assert Flips(true, ops[i]) && Flushes(states[i], ops[i]);
  }

  // Over any sequence of operations of a boot, the stored mode is the loaded one unless
  // some operation flipped it, and then it is the opposite for good; the flash has the
  // opposite if and only if a flip was committed.
  lemma StoredMode(states: seq<State>, d: Provisioned, ops: seq<Op>)
    requires Steps(states, ops) && PairingStored(states[0].store, d) == states[0].config.pairingMode
    ensures var mode, last := states[0].config.pairingMode, states[|ops|];
      && last.config.pairingMode == mode
      && (PairingStored(last.store, d) <==> (mode <==> !SomeFlip(mode, ops)))
      && (CommittedFlip(states, ops) ==> SomeFlip(mode, ops) && PairingStored(last.committed, d) == !mode)
      && (PairingStored(states[0].committed, d) == mode && !CommittedFlip(states, ops) ==>
            PairingStored(last.committed, d) == mode)
  {
    var mode := states[0].config.pairingMode;
    var flips, flushes := FlipsOf(mode, ops), FlushesOf(states, ops);
    BootChain(states, d, ops);
    ChainMode(states, d, flips, flushes);
    CommittedFlipIs(states, ops);
    assert forall i :: 0 <= i < |ops| ==> flips[i] == Flips(mode, ops[i]);
  }

  // ---- Runs of boots ----

  // A boot: what the load could do, the states its tasks went through, and what survived
  // the power cycle.
  datatype Boot = Boot(before: State, opens: bool, commits: bool, states: seq<State>, ops: seq<Op>, after: Nvs)

  ghost predicate Happens(b: Boot, d: Provisioned) {
    && Durable(b.before)
    && Steps(b.states, b.ops)
    && Loaded(b.before, d, b.opens, b.commits, b.states[0])
    && Survives(b.states[|b.ops|], b.after)
  }

  ghost predicate Run(boots: seq<Boot>, d: Provisioned) {
    && (forall i :: 0 <= i < |boots| ==> Happens(boots[i], d))
    && (forall i :: 0 <= i < |boots| - 1 ==> boots[i + 1].before.store == boots[i].after)
  }

  predicate Pairing(b: Boot) { b.states != [] && b.states[0].config.pairingMode }

  predicate ResetCommits(b: Boot) {
    exists i :: 0 <= i < |b.ops| && CommittedReset(b.ops[i])
  }

  lemma LoadedMode(b: Boot, d: Provisioned)
    requires Happens(b, d)
    ensures Pairing(b) <==> b.opens && PairingStored(b.before.store, d)
    ensures PairingStored(b.states[0].store, d) == PairingStored(b.before.store, d)
  {
    assert Get(b.states[0].config, PairingMode) == if b.opens then Read(b.before.store, d, PairingMode) else Default(d, PairingMode);
    assert Read(b.states[0].store, d, PairingMode) == Read(b.before.store, d, PairingMode);
    assert Read(b.before.store, d, PairingMode).Flag?;
  }

  lemma SurvivingMode(st: State, d: Provisioned, store: Nvs)
    requires Survives(st, store)
    ensures PairingStored(store, d) == PairingStored(st.store, d) || PairingStored(store, d) == PairingStored(st.committed, d)
  {
    assert Lookup(store, Slot(PairingMode)) == Lookup(st.store, Slot(PairingMode))
        || Lookup(store, Slot(PairingMode)) == Lookup(st.committed, Slot(PairingMode));
  }

  // Pairing is one-shot: in every run of boots, whatever its tasks and the flash do, a
  // pairing boot with a committed flip, such as its own reset when that commits, is never
  // directly followed by another.
  lemma PairingIsOneShot(boots: seq<Boot>, d: Provisioned, i: nat)
    requires Run(boots, d) && i + 1 < |boots| && Pairing(boots[i])
    requires ResetCommits(boots[i]) || CommittedFlip(boots[i].states, boots[i].ops)
    ensures !Pairing(boots[i + 1])
  {
    var b := boots[i];
    if k :| 0 <= k < |b.ops| && CommittedReset(b.ops[k]) { ResetIsFlip(b.states, d, b.ops, k); }
    LoadedMode(b, d);
    StoredMode(b.states, d, b.ops);
    SurvivingMode(b.states[|b.ops|], d, b.after);
    LoadedMode(boots[i + 1], d);
  }

  // And only then: without a committed flip the power can fail so that the next boot, if
  // it can open its store, pairs again.
  lemma PairsAgain(b: Boot, d: Provisioned)
    requires Happens(b, d) && Pairing(b)
    ensures (exists after :: Survives(b.states[|b.ops|], after) && PairingStored(after, d)) <==> !CommittedFlip(b.states, b.ops)
  {
    var last := b.states[|b.ops|];
    LoadedMode(b, d);
    StoredMode(b.states, d, b.ops);
    assert Survives(last, last.committed);
    forall after | Survives(last, after)
      ensures PairingStored(after, d) ==> PairingStored(last.store, d) || PairingStored(last.committed, d)
    {
      SurvivingMode(last, d, after);
    }
  }

  // When nothing is left uncommitted, the next boot pairs if and only if this boot asked
  // for the opposite of its own mode and was not pairing, or never did and was.
  lemma NextBootMode(boots: seq<Boot>, d: Provisioned, i: nat)
    requires Run(boots, d) && i + 1 < |boots| && boots[i].opens && boots[i + 1].opens
    requires Durable(boots[i].states[|boots[i].ops|])
    ensures Pairing(boots[i + 1]) <==> (Pairing(boots[i]) <==> !SomeFlip(Pairing(boots[i]), boots[i].ops))
  {
    var b := boots[i];
    LoadedMode(b, d);
    StoredMode(b.states, d, b.ops);
    SurvivingMode(b.states[|b.ops|], d, b.after);
    LoadedMode(boots[i + 1], d);
  }

  // In a normal boot a request to leave pairing mode does nothing, even right after one to
  // enter it, and is acknowledged all the same.
  lemma CancelIsIgnored(st: State, d: Provisioned, io: Io)
    requires !st.config.pairingMode && st.mqttUp && io.opens && io.writes && io.commits
    ensures var st1 := Update(st, "pairing_mode", "1", io); var st2 := Update(st1, "pairing_mode", "0", io);
      st2 == st1.(sent := st1.sent + [CONFIG_UPDATED]) && PairingStored(st2.store, d)
  {
    PairingKey();
    ModeDigits();
    OpOnMode(st, d, Set("pairing_mode", "1", io));
  }

  // ---- The firmware's own code ----

  // The Set pad: ask for the opposite mode, then restart.
  method TouchSet(device: Device, io: Io)
    modifies device
    ensures device.View() == ApplyOp(old(device.View()), Touch(io))
    ensures device.config == old(device.config)
    ensures device.store == if io.opens && io.writes
                            then old(device.store)["pairing_mode" := U8(if old(device.config.pairingMode) then 0 else 1)]
                            else old(device.store)
    ensures device.committed == if io.opens && io.writes && io.commits then device.store else old(device.committed)
  {
    PairingKey();
    ModeDigits();
    device.UpdateConfig("pairing_mode", if device.config.pairingMode then "0" else "1", io);
  }

  // The pairing branch of app_main, up to the start of the pairing server.
  method EnterPairing(device: Device, io: Io) returns (entered: bool)
    modifies device
    ensures entered == old(device.config.pairingMode)
    ensures device.View() == ApplyOp(old(device.View()), ResetPairing(io))
    ensures device.config == old(device.config)
    ensures device.store == if entered && io.opens && io.writes then old(device.store)["pairing_mode" := U8(0)] else old(device.store)
    ensures device.committed == if entered && io.opens && io.writes && io.commits then device.store else old(device.committed)
  {
    PairingKey();
    ModeDigits();
    entered := device.config.pairingMode;
    if entered {
      device.UpdateConfig("pairing_mode", "0", io);
    }
  }

  // After a successful erasure the next boot, however the power fails, reads nothing but
  // defaults, while the settings of this boot stay in force; it is not a pairing boot.
  lemma FlashForgets(st: State, d: Provisioned, after: Nvs)
    requires Survives(EraseStore(st, Erased), after)
    ensures EraseStore(st, Erased).config == st.config && !PairingStored(after, d)
    ensures forall s: Setting :: Read(after, d, s) == Default(d, s)
  {
    forall s: Setting ensures Read(after, d, s) == Default(d, s) {
      assert Lookup(after, Slot(s)) == None;
    }
    assert Read(after, d, PairingMode) == Default(d, PairingMode);
  }
}
