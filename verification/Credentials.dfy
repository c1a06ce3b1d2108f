// What becomes of one setting over a whole boot, and of the credentials a phone sends.
module Credentials {
  import opened Wrappers
  import opened CStrings
  import opened ConfigStore
  import opened PairingBoots
  import ConfigNames
  import PairingParser

  lemma CredentialKeys()
    ensures SettingOf("wifi_ssid") == Some(WifiSsid)
    ensures SettingOf("wifi_pass") == Some(WifiPass)
    ensures SettingOf("user_id") == Some(UserId)
  {
    assert Lower("wifi_pass")[5] == 'p' && Lower("wifi_ssid")[5] == 's';
    var key := "user_id";
    assert |Lower(key)| == 7;
    assert |Lower("wifi_ssid")| == 9 && |Lower("wifi_pass")| == 9 && |Lower("backend_url")| == 11;
    assert |Lower("backend_bearer")| == 14 && |Lower("mqtt_broker")| == 11 && |Lower("mqtt_pass")| == 9;
    assert |Lower("mqtt_hb_enable")| == 14 && |Lower("mqtt_hb_interval")| == 16 && |Lower("audio_timeout")| == 13;
    assert |Lower("lock_timeout")| == 12 && |Lower("pairing_timeout")| == 15;
  }

  function NamedBy(op: Op): Option<Setting> {
    if op.Set? then SettingOf(op.key) else Some(PairingMode)
  }

  predicate ProperOp(op: Op) { op.Set? ==> Proper(Request(op.key, op.value, op.io)) }

  predicate ProperOps(ops: seq<Op>) { forall i :: 0 <= i < |ops| ==> ProperOp(ops[i]) }

  // ---- One operation and one setting ----

  // The setting gets a new value in RAM and store or keeps its own; the store is committed
  // or is not.
  predicate Moves(st: State, st': State, d: Provisioned, x: Setting, put: Option<Value>, flush: bool) {
    && Get(st'.config, x) == (if put.Some? then put.value else Get(st.config, x))
    && Read(st'.store, d, x) == (if put.Some? then put.value else Read(st.store, d, x))
    && st'.committed == (if flush then st'.store else st.committed)
  }

  lemma UpdateMoves(st: State, d: Provisioned, key: string, value: string, io: Io, s: Setting, x: Setting)
    requires Proper(Request(key, value, io)) && SettingOf(key) == Some(s) && x != PairingMode
    ensures Moves(st, Update(st, key, value, io), d, x,
                  if s == x && Copies(st, s, value, io) then Some(Parse(x, value)) else None,
                  Copies(st, s, value, io) && io.commits)
  {
    if Copies(st, s, value, io) { AssignFrame(st, d, key, value, s, io, x); }
  }

  lemma SetMoves(st: State, d: Provisioned, op: Op, x: Setting)
    requires op.Set? && ProperOp(op) && x != PairingMode
    ensures Moves(st, ApplyOp(st, op), d, x,
                  if NamedBy(op) == Some(x) && Writes(st, op) then Some(Parse(x, op.value)) else None, Flushes(st, op))
  {
    if SettingOf(op.key).Some? {
      UpdateMoves(st, d, op.key, op.value, op.io, SettingOf(op.key).value, x);
    }
  }

  lemma ModeMoves(st: State, d: Provisioned, value: string, io: Io, x: Setting)
    requires x != PairingMode && (value == "0" || value == "1")
    ensures var flips := io.opens && io.writes && st.config.pairingMode == (value == "0");
      Moves(st, Update(st, "pairing_mode", value, io), d, x, None, flips && io.commits)
  {
    PairingKey();
    ModeDigits();
    UpdateMoves(st, d, "pairing_mode", value, io, PairingMode, x);
  }

  lemma OtherMoves(st: State, d: Provisioned, op: Op, x: Setting)
    requires !op.Set? && x != PairingMode
    ensures Moves(st, ApplyOp(st, op), d, x, None, Flushes(st, op))
  {
    match op
    case ResetPairing(io) => ModeMoves(st, d, "0", io, x);
    case Touch(io) => ModeMoves(st, d, if st.config.pairingMode then "0" else "1", io, x);
    case Pair(io) => ModeMoves(Publish(st, ENTERING_PAIRING_MODE), d, "1", io, x);
    case RelayedPair(io) => ModeMoves(st, d, "1", io, x);
  }

  // ---- One setting over a boot ----

  // The value an operation leaves the setting with: it could open the store and write, so
  // either it wrote or the value was there.
  function Puts(op: Op, x: Setting): Option<Value> {
    if op.Set? && SettingOf(op.key) == Some(x) && op.io.opens && op.io.writes then Some(Parse(x, op.value)) else None
  }

  // What the operations did to the setting, kept apart from what they are.
  ghost predicate Chained(states: seq<State>, d: Provisioned, x: Setting, puts: seq<Option<Value>>, flushes: seq<bool>) {
    && |states| == |puts| + 1 == |flushes| + 1
    && forall i {:trigger puts[i]} :: 0 <= i < |puts| ==>
         Get(states[i].config, x) == Read(states[i].store, d, x) ==>
           Moves(states[i], states[i + 1], d, x, puts[i], flushes[i])
  }

  function AllPuts(ops: seq<Op>, x: Setting): seq<Option<Value>> {
    seq(|ops|, i requires 0 <= i < |ops| => Puts(ops[i], x))
  }

  lemma StepsChain(states: seq<State>, d: Provisioned, ops: seq<Op>, x: Setting)
    requires Steps(states, ops) && x != PairingMode && ProperOps(ops)
    ensures Chained(states, d, x, AllPuts(ops, x), FlushesOf(states, ops))
  {
    forall i | 0 <= i < |ops| && Get(states[i].config, x) == Read(states[i].store, d, x)
      ensures Moves(states[i], states[i + 1], d, x, Puts(ops[i], x), Flushes(states[i], ops[i]))
    {
      if ops[i].Set? { SetMoves(states[i], d, ops[i], x); } else { OtherMoves(states[i], d, ops[i], x); }
    }
  }

  // RAM, store and flash all hold the same value of the setting.
  predicate Rests(st: State, d: Provisioned, x: Setting) {
    Get(st.config, x) == Read(st.store, d, x) == Read(st.committed, d, x)
  }

  // The last value put among the first `k`, and how many operations there were when the
  // last of them committed.
  function LastPut(puts: seq<Option<Value>>, k: nat, first: Value): Value
    requires k <= |puts|
  {
    if k == 0 then first else if puts[k - 1].Some? then puts[k - 1].value else LastPut(puts, k - 1, first)
  }

  function LastFlush(flushes: seq<bool>, k: nat): (n: nat)
    requires k <= |flushes|
    ensures n <= k
  {
    if k == 0 then 0 else if flushes[k - 1] then k else LastFlush(flushes, k - 1)
  }

  // RAM and store hold the last value put, the flash the last one before the last commit.
  lemma {:induction false} Track(states: seq<State>, d: Provisioned, x: Setting, puts: seq<Option<Value>>, flushes: seq<bool>, k: nat)
    requires Chained(states, d, x, puts, flushes) && k <= |puts| && Rests(states[0], d, x)
    ensures var first := Get(states[0].config, x);
      && Get(states[k].config, x) == Read(states[k].store, d, x) == LastPut(puts, k, first)
      && Read(states[k].committed, d, x) == LastPut(puts, LastFlush(flushes, k), first)
  {
    if k > 0 {
      Track(states, d, x, puts, flushes, k - 1);
      assert Moves(states[k - 1], states[k], d, x, puts[k - 1], flushes[k - 1]);
    }
  }

  // ---- What the next boot reads ----

  lemma SurvivingRead(st: State, d: Provisioned, x: Setting, after: Nvs)
    requires Survives(st, after)
    ensures Read(after, d, x) == Read(st.store, d, x) || Read(after, d, x) == Read(st.committed, d, x)
  {
    assert Lookup(after, Slot(x)) == Lookup(st.store, Slot(x)) || Lookup(after, Slot(x)) == Lookup(st.committed, Slot(x));
  }

  ghost predicate AlwaysReads(st: State, d: Provisioned, x: Setting, v: Value) {
    forall after :: Survives(st, after) ==> Read(after, d, x) == v
  }

  lemma AlwaysReadsIff(st: State, d: Provisioned, x: Setting, v: Value)
    ensures AlwaysReads(st, d, x, v) <==> Read(st.store, d, x) == v && Read(st.committed, d, x) == v
  {
    assert Survives(st, st.store) && Survives(st, st.committed);
    forall after | Survives(st, after)
      ensures Read(after, d, x) == Read(st.store, d, x) || Read(after, d, x) == Read(st.committed, d, x)
    {
      SurvivingRead(st, d, x, after);
    }
  }

  // Exactly what a boot leaves a setting at, however often it was updated and whatever
  // failed: the next boot reads a value, however the power fails, if and only if that was
  // the last value put, and also the last one put before the last commit of anything.
  lemma SettingSurvives(states: seq<State>, d: Provisioned, ops: seq<Op>, x: Setting, v: Value)
    requires Steps(states, ops) && ProperOps(ops)
    requires Rests(states[0], d, x) && x != PairingMode
    ensures var puts, first := AllPuts(ops, x), Get(states[0].config, x);
      AlwaysReads(states[|ops|], d, x, v) <==>
        LastPut(puts, |ops|, first) == v && LastPut(puts, LastFlush(FlushesOf(states, ops), |ops|), first) == v
  {
    StepsChain(states, d, ops, x);
    Track(states, d, x, AllPuts(ops, x), FlushesOf(states, ops), |ops|);
    AlwaysReadsIff(states[|ops|], d, x, v);
  }

  // No operation but number `i` names the setting.
  predicate OnlyAt(ops: seq<Op>, x: Setting, i: int) {
    forall j :: 0 <= j < |ops| && j != i ==> NamedBy(ops[j]) != Some(x)
  }

  lemma {:induction false} LonePut(puts: seq<Option<Value>>, i: int, k: nat, first: Value)
    requires k <= |puts| && forall j :: 0 <= j < |puts| && j != i ==> puts[j] == None
    ensures LastPut(puts, k, first) == if 0 <= i < k && puts[i].Some? then puts[i].value else first
  {
    if k > 0 { LonePut(puts, i, k - 1, first); }
  }

  lemma OnePut(ops: seq<Op>, x: Setting, i: int, k: nat, first: Value)
    requires OnlyAt(ops, x, i) && k <= |ops|
    ensures LastPut(AllPuts(ops, x), k, first)
         == if 0 <= i < k && Puts(ops[i], x).Some? then Puts(ops[i], x).value else first
  {
    forall j | 0 <= j < |ops| && j != i ensures AllPuts(ops, x)[j] == None {
      assert NamedBy(ops[j]) != Some(x);
    }
    LonePut(AllPuts(ops, x), i, k, first);
  }

  lemma {:induction false} FlushedSince(flushes: seq<bool>, i: nat, k: nat)
    requires k <= |flushes|
    ensures i < LastFlush(flushes, k) <==> exists j :: i <= j < k && flushes[j]
  {
    if k > 0 { FlushedSince(flushes, i, k - 1); }
  }

  // Exactly which failures lose an update: in any interleaving with operations on other
  // settings, the value is what the next boot reads, however the power fails, if and only
  // if it was in force already, or the update could open the store and write and some
  // operation from then on committed.
  lemma UpdateSurvives(states: seq<State>, d: Provisioned, ops: seq<Op>, i: nat, x: Setting)
    requires Steps(states, ops) && ProperOps(ops)
    requires Rests(states[0], d, x) && x != PairingMode
    requires i < |ops| && ops[i].Set? && SettingOf(ops[i].key) == Some(x) && OnlyAt(ops, x, i)
    ensures AlwaysReads(states[|ops|], d, x, Parse(x, ops[i].value)) <==>
      || Get(states[0].config, x) == Parse(x, ops[i].value)
      || (ops[i].io.opens && ops[i].io.writes && exists j :: i <= j < |ops| && Flushes(states[j], ops[j]))
  {
    var flushes, first := FlushesOf(states, ops), Get(states[0].config, x);
    SettingSurvives(states, d, ops, x, Parse(x, ops[i].value));
    OnePut(ops, x, i, |ops|, first);
    OnePut(ops, x, i, LastFlush(flushes, |ops|), first);
    FlushedSince(flushes, i, |ops|);
    assert forall j :: 0 <= j < |ops| ==> flushes[j] == Flushes(states[j], ops[j]);
  }

  lemma UntouchedSurvives(states: seq<State>, d: Provisioned, ops: seq<Op>, x: Setting)
    requires Steps(states, ops) && ProperOps(ops)
    requires Rests(states[0], d, x) && x != PairingMode && OnlyAt(ops, x, -1)
    ensures AlwaysReads(states[|ops|], d, x, Get(states[0].config, x))
  {
    var first := Get(states[0].config, x);
    SettingSurvives(states, d, ops, x, first);
    OnePut(ops, x, -1, |ops|, first);
    OnePut(ops, x, -1, LastFlush(FlushesOf(states, ops), |ops|), first);
  }

  // ---- From the phone to the next boot ----

  // The update of one credential under the key of its slot, all of whose NVS calls succeed.
  predicate Adopts(ops: seq<Op>, i: nat, value: string, x: Setting) {
    i < |ops| && ops[i] == Set(Slot(x), value, FINE) && OnlyAt(ops, x, i)
  }

  lemma AdoptedSurvives(states: seq<State>, d: Provisioned, ops: seq<Op>, i: nat, value: string, x: Setting)
    requires Steps(states, ops) && ProperOps(ops)
    requires Rests(states[0], d, x) && KindOf(x).TextOf? && SettingOf(Slot(x)) == Some(x) && Adopts(ops, i, value, x)
    ensures AlwaysReads(states[|ops|], d, x, Text(value))
  {
    UpdateSurvives(states, d, ops, i, x);
    if Get(states[0].config, x) != Text(value) {
      StepsChain(states, d, ops, x);
      Track(states, d, x, AllPuts(ops, x), FlushesOf(states, ops), i);
      OnePut(ops, x, i, i, Get(states[0].config, x));
      assert Flushes(states[i], ops[i]);
    }
  }

  predicate IsCredential(x: Setting) { x == WifiSsid || x == WifiPass || x == UserId }

  lemma CredentialKey(x: Setting)
    requires IsCredential(x)
    ensures SettingOf(Slot(x)) == Some(x)
  {
    CredentialKeys();
  }

  lemma CredentialReads(states: seq<State>, d: Provisioned, ops: seq<Op>, i: nat, value: string, x: Setting, after: Nvs)
    requires Steps(states, ops) && ProperOps(ops)
    requires Agrees(states[0], d) && Durable(states[0]) && Survives(states[|ops|], after)
    requires IsCredential(x) && Adopts(ops, i, value, x)
    ensures Read(after, d, x) == Text(value)
  {
    CredentialKey(x);
    AdoptedSurvives(states, d, ops, i, value, x);
  }

  // Three updates that meet no failure, and a reset that is committed, by itself or later,
  // in any interleaving with operations on other settings.
  ghost predicate Paired(states: seq<State>, d: Provisioned, ops: seq<Op>, i: nat, j: nat, k: nat,
                         user: string, ssid: string, pass: string)
  {
    && Adopts(ops, i, ssid, WifiSsid)
    && Adopts(ops, j, pass, WifiPass)
    && Adopts(ops, k, user, UserId)
    && Steps(states, ops)
    && Agrees(states[0], d) && Durable(states[0])
    && states[0].config.pairingMode && PairingStored(states[0].store, d)
    && CommittedFlip(states, ops)
  }

  lemma PairedReads(states: seq<State>, d: Provisioned, ops: seq<Op>, i: nat, j: nat, k: nat,
                    user: string, ssid: string, pass: string, after: Nvs)
    requires Paired(states, d, ops, i, j, k, user, ssid, pass) && Survives(states[|ops|], after)
    requires ProperOps(ops)
    ensures Read(after, d, UserId) == Text(user) && Read(after, d, WifiSsid) == Text(ssid) && Read(after, d, WifiPass) == Text(pass)
  {
    CredentialReads(states, d, ops, i, ssid, WifiSsid, after);
    CredentialReads(states, d, ops, j, pass, WifiPass, after);
    CredentialReads(states, d, ops, k, user, UserId, after);
  }

  lemma PairedElse(states: seq<State>, d: Provisioned, ops: seq<Op>, i: nat, j: nat, k: nat,
                   user: string, ssid: string, pass: string, after: Nvs)
    requires Paired(states, d, ops, i, j, k, user, ssid, pass) && Survives(states[|ops|], after)
    requires ProperOps(ops)
    ensures !PairingStored(after, d)
    ensures forall x: Setting :: x != PairingMode && OnlyAt(ops, x, -1) ==> Read(after, d, x) == Get(states[0].config, x)
  {
    StoredMode(states, d, ops);
    SurvivingMode(states[|ops|], d, after);
    forall x: Setting | x != PairingMode && OnlyAt(ops, x, -1) ensures Read(after, d, x) == Get(states[0].config, x) {
      UntouchedSurvives(states, d, ops, x);
    }
  }

  lemma FittingIsProper(key: string, value: string, x: Setting)
    requires SettingOf(key) == Some(x) && key == Slot(x) && Fits(x, value)
    ensures ProperOp(Set(key, value, FINE))
  {
  }

  lemma CredentialsFit(received: string, user: string, ssid: string, pass: string)
    requires PairingParser.Answer(received) == PairingParser.Configured(user, ssid, pass)
    ensures Fits(WifiSsid, ssid) && Fits(WifiPass, pass) && Fits(UserId, user)
  {
    PairingParser.AnswerFits(received);
  }

  lemma AllProper(ops: seq<Op>, i: nat, j: nat, k: nat, user: string, ssid: string, pass: string)
    requires Adopts(ops, i, ssid, WifiSsid) && Fits(WifiSsid, ssid)
    requires Adopts(ops, j, pass, WifiPass) && Fits(WifiPass, pass)
    requires Adopts(ops, k, user, UserId) && Fits(UserId, user)
    requires forall m :: 0 <= m < |ops| && m != i && m != j && m != k ==> ProperOp(ops[m])
    ensures ProperOps(ops)
  {
    CredentialKeys();
    FittingIsProper("wifi_ssid", ssid, WifiSsid);
    FittingIsProper("wifi_pass", pass, WifiPass);
    FittingIsProper("user_id", user, UserId);
  }

  // The credentials of an accepted pairing request are the ones the next boot loads; what
  // nobody names is as before, and that boot is not a pairing boot.
  lemma CredentialsReachNextBoot(received: string, states: seq<State>, d: Provisioned, ops: seq<Op>, i: nat, j: nat, k: nat,
                                 user: string, ssid: string, pass: string, after: Nvs)
    requires PairingParser.Answer(received) == PairingParser.Configured(user, ssid, pass)
    requires Paired(states, d, ops, i, j, k, user, ssid, pass) && Survives(states[|ops|], after)
    requires forall m :: 0 <= m < |ops| && m != i && m != j && m != k ==> ProperOp(ops[m])
    ensures Read(after, d, UserId) == Text(user) && Read(after, d, WifiSsid) == Text(ssid) && Read(after, d, WifiPass) == Text(pass)
    ensures !PairingStored(after, d)
    ensures forall x: Setting :: x != PairingMode && OnlyAt(ops, x, -1) ==> Read(after, d, x) == Get(states[0].config, x)
  {
    CredentialsFit(received, user, ssid, pass);
    AllProper(ops, i, j, k, user, ssid, pass);
    PairedReads(states, d, ops, i, j, k, user, ssid, pass, after);
    PairedElse(states, d, ops, i, j, k, user, ssid, pass, after);
  }

  // In the words of the firmware: the three updates are of these keys, and the next boot
  // that can open its store comes up with the credentials in its configuration and not in
  // pairing mode.
  lemma PairedBoot(received: string, states: seq<State>, d: Provisioned, ops: seq<Op>, i: nat, j: nat, k: nat,
                   user: string, ssid: string, pass: string, before: State, commits: bool, next: State)
    requires PairingParser.Answer(received) == PairingParser.Configured(user, ssid, pass)
    requires Paired(states, d, ops, i, j, k, user, ssid, pass) && Survives(states[|ops|], before.store)
    requires forall m :: 0 <= m < |ops| && m != i && m != j && m != k ==> ProperOp(ops[m])
    requires Loaded(before, d, true, commits, next)
    ensures ops[i] == Set("wifi_ssid", ssid, FINE) && ops[j] == Set("wifi_pass", pass, FINE) && ops[k] == Set("user_id", user, FINE)
    ensures next.config.wifiSsid == ssid && next.config.wifiPassword == pass && next.config.userId == user
    ensures !next.config.pairingMode
  {
    CredentialsReachNextBoot(received, states, d, ops, i, j, k, user, ssid, pass, before.store);
    ComesUpWith(before, d, commits, next, user, ssid, pass);
  }

  lemma ComesUpWith(before: State, d: Provisioned, commits: bool, next: State, user: string, ssid: string, pass: string)
    requires Loaded(before, d, true, commits, next) && !PairingStored(before.store, d)
    requires Read(before.store, d, UserId) == Text(user)
    requires Read(before.store, d, WifiSsid) == Text(ssid) && Read(before.store, d, WifiPass) == Text(pass)
    ensures next.config.wifiSsid == ssid && next.config.wifiPassword == pass && next.config.userId == user
    ensures !next.config.pairingMode
  {
    ConfigNames.LoadedField(before, d, true, commits, next, WifiSsid);
    ConfigNames.LoadedField(before, d, true, commits, next, WifiPass);
    ConfigNames.LoadedField(before, d, true, commits, next, UserId);
    ConfigNames.LoadedField(before, d, true, commits, next, PairingMode);
  }
}
