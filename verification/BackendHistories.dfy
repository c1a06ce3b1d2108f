// What the tables hold: for every run and every moment, the owner and passphrase of a
// device, its lockdown, the holder of a token, the expiry of an invite and the rows of the
// log are those that the last requests about them left. What a request wrote is told from
// the request, and where the back end checks it first, from the tables it found or its answer.
module BackendHistories {
  import opened Wrappers
  import opened Backend
  import opened BackendRuns
  import opened BackendAttribution
  import opened Histories
  import ConfigUpdate

  predicate For(path: Path, uuid: Uuid) { path.uuid == Some(uuid) }

  function WriteIf<V>(c: bool, w: Write<V>): Write<V> { if c then w else Keep }

  // ---- The owner of a device ----

  function OwnerWrite(t: Tables, r: Request, now: nat, uuid: Uuid): Write<Uid>
    requires Possible(t, r, now)
  {
    match r
    case RegisterDevice(path, owner, _) => WriteIf(For(path, uuid), Put(owner))
    case Heartbeat(path, uid) => WriteIf(For(path, uuid), Put(uid))
    case Unpair(_, path) => WriteIf(For(path, uuid) && Respond(t, r, now).response == Done, Clear)
    case DeleteAccount(token) => WriteIf(Authenticate(t, token).Some? && Authenticate(t, token) == OwnerOf(t, uuid), Clear)
    case _ => Keep
  }

  lemma StepOwner(t: Tables, r: Request, now: nat, uuid: Uuid)
    requires Possible(t, r, now)
    ensures OwnerOf(Respond(t, r, now).tables, uuid) == Written(OwnerOf(t, uuid), OwnerWrite(t, r, now, uuid))
  {
  }

  function OwnerWrites(ts: seq<Tables>, es: seq<Step>, uuid: Uuid): seq<Write<Uid>>
    requires IsRun(ts, es)
  {
    seq(|es|, i requires 0 <= i < |es| => OwnerWrite(ts[i], es[i].request, es[i].now, uuid))
  }

  // A device belongs to whoever registered it or was named by its heartbeat last, unless
  // it was unpaired or its owner's account deleted since.
  lemma OwnerIs(ts: seq<Tables>, es: seq<Step>, n: nat, uuid: Uuid, uid: Uid)
    requires IsRun(ts, es) && n <= |es|
    ensures OwnerOf(ts[n], uuid) == Some(uid) <==>
      exists i: nat :: Last(OwnerWrites(ts, es, uuid), n, i) && OwnerWrites(ts, es, uuid)[i].value == uid
  {
    var values := seq(|ts|, i requires 0 <= i < |ts| => OwnerOf(ts[i], uuid));
    forall i | 0 <= i < |es| ensures values[i + 1] == Written(values[i], OwnerWrites(ts, es, uuid)[i]) {
      StepOwner(ts[i], es[i].request, es[i].now, uuid);
    }
    LastWrite(values, OwnerWrites(ts, es, uuid), n, uid);
  }

  // ---- Tokens ----

  function TokenWrite(t: Tables, r: Request, now: nat, token: Token): Write<Uid>
    requires Possible(t, r, now)
  {
    var holder := Authenticate(t, token);
    match r
    case Login(uid, _, issued) =>
      if !Respond(t, r, now).response.Issued? then Keep
      else if token == issued then Put(uid)
      else WriteIf(holder == Some(uid), Clear)
    case Logout(text) => WriteIf(holder == Some(text), Clear)
    case DeleteAccount(other) => WriteIf(holder.Some? && Authenticate(t, other) == holder, Clear)
    case _ => Keep
  }

  lemma StepToken(t: Tables, r: Request, now: nat, token: Token)
    requires Possible(t, r, now)
    ensures Authenticate(Respond(t, r, now).tables, token) == Written(Authenticate(t, token), TokenWrite(t, r, now, token))
  {
  }

  function TokenWrites(ts: seq<Tables>, es: seq<Step>, token: Token): seq<Write<Uid>>
    requires IsRun(ts, es)
  {
    seq(|es|, i requires 0 <= i < |es| => TokenWrite(ts[i], es[i].request, es[i].now, token))
  }

  // A token speaks for the user whose login it answered, until the next login of that user
  // or the end of the account; a logout ends it only for a user called like the token sent.
  lemma TokenIs(ts: seq<Tables>, es: seq<Step>, n: nat, token: Token, uid: Uid)
    requires IsRun(ts, es) && n <= |es|
    ensures Authenticate(ts[n], token) == Some(uid) <==>
      exists i: nat :: Last(TokenWrites(ts, es, token), n, i) && TokenWrites(ts, es, token)[i].value == uid
  {
    var values := seq(|ts|, i requires 0 <= i < |ts| => Authenticate(ts[i], token));
    forall i | 0 <= i < |es| ensures values[i + 1] == Written(values[i], TokenWrites(ts, es, token)[i]) {
      StepToken(ts[i], es[i].request, es[i].now, token);
    }
    LastWrite(values, TokenWrites(ts, es, token), n, uid);
  }

  predicate OneTokenEach(t: Tables) {
    forall a, b :: a in t.tokens && b in t.tokens && t.tokens[a] == t.tokens[b] ==> a == b
  }

  lemma StepOneToken(t: Tables, r: Request, now: nat)
    requires Possible(t, r, now) && OneTokenEach(t)
    ensures OneTokenEach(Respond(t, r, now).tables)
  {
  }

  lemma {:induction false} TokensAreUnique(ts: seq<Tables>, es: seq<Step>, n: nat)
    requires IsRun(ts, es) && n <= |es|
    ensures OneTokenEach(ts[n])
  {
    if n > 0 {
      TokensAreUnique(ts, es, n - 1);
      StepOneToken(ts[n - 1], es[n - 1].request, es[n - 1].now);
    }
  }

  // ---- Lockdown ----

  function LockdownOf(t: Tables, uuid: Uuid): Option<int> {
    if uuid in t.devices then t.devices[uuid].lockedDownAt else None
  }

  function LockdownWrite(t: Tables, r: Request, now: nat, uuid: Uuid): Write<int> {
    match r
    case LockingDown(path, seconds) => WriteIf(For(path, uuid) && uuid in t.devices, Put(seconds * 1000))
    case Heartbeat(path, _) =>
      WriteIf(For(path, uuid) && LockdownOf(t, uuid).Some? && now >= LockdownOf(t, uuid).value + 10_000, Clear)
    case _ => Keep
  }

  lemma StepLockdown(t: Tables, r: Request, now: nat, uuid: Uuid)
    requires Possible(t, r, now)
    ensures LockdownOf(Respond(t, r, now).tables, uuid) == Written(LockdownOf(t, uuid), LockdownWrite(t, r, now, uuid))
  {
  }

  function LockdownWrites(ts: seq<Tables>, es: seq<Step>, uuid: Uuid): seq<Write<int>>
    requires IsRun(ts, es)
  {
    seq(|es|, i requires 0 <= i < |es| => LockdownWrite(ts[i], es[i].request, es[i].now, uuid))
  }

  // A lockdown lasts from its message until a heartbeat at least ten seconds after its
  // time; no registration, pairing or account deletion lifts it.
  lemma LockdownIs(ts: seq<Tables>, es: seq<Step>, n: nat, uuid: Uuid, at: int)
    requires IsRun(ts, es) && n <= |es|
    ensures LockdownOf(ts[n], uuid) == Some(at) <==>
      exists i: nat :: Last(LockdownWrites(ts, es, uuid), n, i) && LockdownWrites(ts, es, uuid)[i].value == at
  {
    var values := seq(|ts|, i requires 0 <= i < |ts| => LockdownOf(ts[i], uuid));
    forall i | 0 <= i < |es| ensures values[i + 1] == Written(values[i], LockdownWrites(ts, es, uuid)[i]) {
      StepLockdown(ts[i], es[i].request, es[i].now, uuid);
    }
    LastWrite(values, LockdownWrites(ts, es, uuid), n, at);
  }

  // ---- Passphrases ----

  function PassphraseOf(t: Tables, uuid: Uuid): Option<string> {
    if uuid in t.devices then t.devices[uuid].passphrase else None
  }

  function PassphraseWrite(r: Request, uuid: Uuid): Write<string> {
    match r
    case RegisterDevice(path, _, passphrase) => WriteIf(For(path, uuid), Put(passphrase))
    case _ => Keep
  }

  lemma StepPassphrase(t: Tables, r: Request, now: nat, uuid: Uuid)
    requires Possible(t, r, now)
    ensures PassphraseOf(Respond(t, r, now).tables, uuid) == Written(PassphraseOf(t, uuid), PassphraseWrite(r, uuid))
  {
  }

  function PassphraseWrites(es: seq<Step>, uuid: Uuid): seq<Write<string>> {
    seq(|es|, i requires 0 <= i < |es| => PassphraseWrite(es[i].request, uuid))
  }

  // The passphrase that opens voice verification is that of the last registration, even
  // after the device was unpaired or its owner left.
  lemma PassphraseIs(ts: seq<Tables>, es: seq<Step>, n: nat, uuid: Uuid, passphrase: string)
    requires IsRun(ts, es) && n <= |es|
    ensures PassphraseOf(ts[n], uuid) == Some(passphrase) <==>
      exists i: nat :: Last(PassphraseWrites(es, uuid), n, i) && PassphraseWrites(es, uuid)[i].value == passphrase
  {
    var values := seq(|ts|, i requires 0 <= i < |ts| => PassphraseOf(ts[i], uuid));
    forall i | 0 <= i < |es| ensures values[i + 1] == Written(values[i], PassphraseWrites(es, uuid)[i]) {
      StepPassphrase(ts[i], es[i].request, es[i].now, uuid);
    }
    LastWrite(values, PassphraseWrites(es, uuid), n, passphrase);
  }

  // ---- Voice columns ----

  function EnableOf(t: Tables, uuid: Uuid): Option<bool> {
    if uuid in t.devices then t.devices[uuid].inviteEnable else None
  }

  function ThresholdOf(t: Tables, uuid: Uuid): Option<real> {
    if uuid in t.devices then t.devices[uuid].threshold else None
  }

  function VoiceOf(t: Tables, uuid: Uuid): (Option<bool>, Option<real>) { (EnableOf(t, uuid), ThresholdOf(t, uuid)) }

  const NEW_VOICE: (Option<bool>, Option<real>) := (Some(true), Some(0.60))

  // The requests that may make the row of a device, with the defaults of the table.
  predicate Makes(t: Tables, r: Request, uuid: Uuid) {
    uuid !in t.devices && ((r.RegisterDevice? && For(r.path, uuid)) || (r.Heartbeat? && For(r.path, uuid)))
  }

  function AsPut<V>(v: Option<V>): Write<V> { if v.Some? then Put(v.value) else Keep }

  predicate Configures(t: Tables, r: Request, now: nat, uuid: Uuid)
    requires Possible(t, r, now)
  {
    r.UpdateConfig? && For(r.path, uuid) && Respond(t, r, now).response == Done
  }

  function EnableWrite(t: Tables, r: Request, now: nat, uuid: Uuid): Write<bool>
    requires Possible(t, r, now)
  {
    if Makes(t, r, uuid) then Put(true)
    else if Configures(t, r, now, uuid) then AsPut(ConfigUpdate.EnableIn(r.items))
    else Keep
  }

  function ThresholdWrite(t: Tables, r: Request, now: nat, uuid: Uuid): Write<real>
    requires Possible(t, r, now)
  {
    if Makes(t, r, uuid) then Put(0.60)
    else if Configures(t, r, now, uuid) then AsPut(ConfigUpdate.ThresholdIn(r.items))
    else Keep
  }

  lemma ConfiguredVoice(t: Tables, r: Request, now: nat, uuid: Uuid)
    requires Possible(t, r, now) && r.UpdateConfig?
    ensures EnableOf(Respond(t, r, now).tables, uuid) == Written(EnableOf(t, uuid), EnableWrite(t, r, now, uuid))
    ensures ThresholdOf(Respond(t, r, now).tables, uuid) == Written(ThresholdOf(t, uuid), ThresholdWrite(t, r, now, uuid))
  {
    if Configures(t, r, now, uuid) {
      var row := t.devices[uuid];
      ConfigUpdate.ApplyRowIs(ConfigUpdate.VoiceRow(row.inviteEnable, row.threshold), r.items);
    }
  }

  lemma MadeVoice(t: Tables, r: Request, now: nat, uuid: Uuid)
    requires Possible(t, r, now) && (r.RegisterDevice? || r.Heartbeat?)
    ensures VoiceOf(Respond(t, r, now).tables, uuid) == if Makes(t, r, uuid) then NEW_VOICE else VoiceOf(t, uuid)
  {
  }

  lemma KeptVoice(t: Tables, r: Request, now: nat, uuid: Uuid)
    requires Possible(t, r, now) && !r.UpdateConfig? && !r.RegisterDevice? && !r.Heartbeat?
    ensures VoiceOf(Respond(t, r, now).tables, uuid) == VoiceOf(t, uuid)
  {
  }

  lemma UnconfiguredVoice(t: Tables, r: Request, now: nat, uuid: Uuid)
    requires Possible(t, r, now) && !r.UpdateConfig?
    ensures VoiceOf(Respond(t, r, now).tables, uuid) == if Makes(t, r, uuid) then NEW_VOICE else VoiceOf(t, uuid)
  {
    if r.RegisterDevice? || r.Heartbeat? {
      MadeVoice(t, r, now, uuid);
    } else {
      KeptVoice(t, r, now, uuid);
    }
  }

  lemma StepVoice(t: Tables, r: Request, now: nat, uuid: Uuid)
    requires Possible(t, r, now)
    ensures EnableOf(Respond(t, r, now).tables, uuid) == Written(EnableOf(t, uuid), EnableWrite(t, r, now, uuid))
    ensures ThresholdOf(Respond(t, r, now).tables, uuid) == Written(ThresholdOf(t, uuid), ThresholdWrite(t, r, now, uuid))
  {
    if r.UpdateConfig? {
      ConfiguredVoice(t, r, now, uuid);
    } else {
      UnconfiguredVoice(t, r, now, uuid);
    }
  }

  function EnableWrites(ts: seq<Tables>, es: seq<Step>, uuid: Uuid): seq<Write<bool>>
    requires IsRun(ts, es)
  {
    seq(|es|, i requires 0 <= i < |es| => EnableWrite(ts[i], es[i].request, es[i].now, uuid))
  }

  function ThresholdWrites(ts: seq<Tables>, es: seq<Step>, uuid: Uuid): seq<Write<real>>
    requires IsRun(ts, es)
  {
    seq(|es|, i requires 0 <= i < |es| => ThresholdWrite(ts[i], es[i].request, es[i].now, uuid))
  }

  // Invited voices are compared as the owner's last accepted batch said, and from the
  // first sight of the device until then.
  lemma EnableIs(ts: seq<Tables>, es: seq<Step>, n: nat, uuid: Uuid, enable: bool)
    requires IsRun(ts, es) && n <= |es|
    ensures EnableOf(ts[n], uuid) == Some(enable) <==>
      exists i: nat :: Last(EnableWrites(ts, es, uuid), n, i) && EnableWrites(ts, es, uuid)[i].value == enable
  {
    var values := seq(|ts|, i requires 0 <= i < |ts| => EnableOf(ts[i], uuid));
    forall i | 0 <= i < |es| ensures values[i + 1] == Written(values[i], EnableWrites(ts, es, uuid)[i]) {
      StepVoice(ts[i], es[i].request, es[i].now, uuid);
    }
    LastWrite(values, EnableWrites(ts, es, uuid), n, enable);
  }

  lemma ThresholdIs(ts: seq<Tables>, es: seq<Step>, n: nat, uuid: Uuid, threshold: real)
    requires IsRun(ts, es) && n <= |es|
    ensures ThresholdOf(ts[n], uuid) == Some(threshold) <==>
      exists i: nat :: Last(ThresholdWrites(ts, es, uuid), n, i) && ThresholdWrites(ts, es, uuid)[i].value == threshold
  {
    var values := seq(|ts|, i requires 0 <= i < |ts| => ThresholdOf(ts[i], uuid));
    forall i | 0 <= i < |es| ensures values[i + 1] == Written(values[i], ThresholdWrites(ts, es, uuid)[i]) {
      StepVoice(ts[i], es[i].request, es[i].now, uuid);
    }
    LastWrite(values, ThresholdWrites(ts, es, uuid), n, threshold);
  }

  // Both columns are set in every row, and the threshold lies between 0.20 and 0.90: a
  // device is ready for voice exactly when it has an owner.
  lemma VoiceColumns(ts: seq<Tables>, es: seq<Step>, n: nat, uuid: Uuid)
    requires IsRun(ts, es) && n <= |es|
    ensures VoiceReady(ts[n], uuid) <==> OwnerOf(ts[n], uuid).Some?
    ensures uuid in ts[n].devices ==>
      EnableOf(ts[n], uuid).Some? && ThresholdOf(ts[n], uuid).Some? && 0.20 <= ThresholdOf(ts[n], uuid).value <= 0.90
  {
    ColumnsSet(ts, es, n, uuid);
  }

  predicate ColumnsGood(t: Tables, uuid: Uuid) {
    uuid in t.devices ==>
      EnableOf(t, uuid).Some? && ThresholdOf(t, uuid).Some? && 0.20 <= ThresholdOf(t, uuid).value <= 0.90
  }

  lemma RowsAreMade(t: Tables, r: Request, now: nat, uuid: Uuid)
    requires Possible(t, r, now) && uuid !in t.devices
    ensures uuid in Respond(t, r, now).tables.devices ==> Makes(t, r, uuid)
  {
  }

  lemma StepColumns(t: Tables, r: Request, now: nat, uuid: Uuid)
    requires Possible(t, r, now) && ColumnsGood(t, uuid)
    ensures ColumnsGood(Respond(t, r, now).tables, uuid)
  {
    StepVoice(t, r, now, uuid);
    if Configures(t, r, now, uuid) { ConfigUpdate.ThresholdInRange(r.items); }
    if uuid !in t.devices { RowsAreMade(t, r, now, uuid); }
  }

  lemma {:induction false} ColumnsSet(ts: seq<Tables>, es: seq<Step>, n: nat, uuid: Uuid)
    requires IsRun(ts, es) && n <= |es|
    ensures ColumnsGood(ts[n], uuid)
  {
    if n > 0 {
      ColumnsSet(ts, es, n - 1, uuid);
      StepColumns(ts[n - 1], es[n - 1].request, es[n - 1].now, uuid);
    }
  }

  // The owner of any device can shut invited voices out.
  lemma OwnerShutsInviteesOut(t: Tables, token: Token, path: Path, order: seq<nat>)
    requires path.uuid.Some? && Authenticate(t, token).Some? && Authenticate(t, token) == OwnerOf(t, path.uuid.value)
    requires VoiceReady(t, path.uuid.value) && forall id :: id in order ==> id in t.invites
    ensures var reply := DoUpdateConfig(t, token, path, [ConfigUpdate.Item("voice_invite_enable", "0", None)]);
      && reply.response == Done
      && VoiceReady(reply.tables, path.uuid.value)
      && VoiceUsers(reply.tables, path.uuid.value, order) == [t.tokens[token]]
  {
    var items := [ConfigUpdate.Item("voice_invite_enable", "0", None)];
    var row := t.devices[path.uuid.value];
    ConfigUpdate.ApplyRowIs(ConfigUpdate.VoiceRow(row.inviteEnable, row.threshold), items);
    assert ConfigUpdate.Valid(items[0]);
  }

  // ---- Invites ----

  function ExpiryOf(t: Tables, id: nat): Option<int> {
    if id in t.invites then Some(t.invites[id].expiry) else None
  }

  function InviteWrite(t: Tables, r: Request, now: nat, id: nat): Write<int>
    requires Possible(t, r, now)
  {
    var response := Respond(t, r, now).response;
    match r
    case CreateInvite(_, _, _, _, duration) => WriteIf(response == Created(id), Put(Expiry(now, duration)))
    case UpdateInvite(_, other, duration) => WriteIf(other == id && response == Done, Put(Expiry(now, duration)))
    case RejectInvite(_, other) => WriteIf(other == id && response == Done, Clear)
    case CancelInvite(_, other) => WriteIf(other == id && response == Done, Clear)
    case RegisterDevice(path, _, _) => WriteIf(id in t.invites && For(path, t.invites[id].device), Clear)
    case Unpair(_, path) => WriteIf(id in t.invites && For(path, t.invites[id].device) && response == Done, Clear)
    case DeleteAccount(token) =>
      WriteIf(id in t.invites && (Authenticate(t, token) == Some(t.invites[id].sender)
                                  || Authenticate(t, token) == Some(t.invites[id].receiver)), Clear)
    case _ => Keep
  }

  lemma StepInvite(t: Tables, r: Request, now: nat, id: nat)
    requires Possible(t, r, now) && TouchesInvites(r)
    ensures ExpiryOf(Respond(t, r, now).tables, id) == Written(ExpiryOf(t, id), InviteWrite(t, r, now, id))
  {
  }

  function InviteWrites(ts: seq<Tables>, es: seq<Step>, id: nat): seq<Write<int>>
    requires IsRun(ts, es)
  {
    seq(|es|, i requires 0 <= i < |es| => InviteWrite(ts[i], es[i].request, es[i].now, id))
  }

  // An invite is in the table, with this expiry, if and only if it was created or last
  // extended so and nothing has deleted it: its receiver, its sender, the end of either
  // account, or the device changing hands.
  lemma InviteIs(ts: seq<Tables>, es: seq<Step>, n: nat, id: nat, expiry: int)
    requires IsRun(ts, es) && n <= |es|
    ensures ExpiryOf(ts[n], id) == Some(expiry) <==>
      exists i: nat :: Last(InviteWrites(ts, es, id), n, i) && InviteWrites(ts, es, id)[i].value == expiry
  {
    var values := seq(|ts|, i requires 0 <= i < |ts| => ExpiryOf(ts[i], id));
    forall i | 0 <= i < |es| ensures values[i + 1] == Written(values[i], InviteWrites(ts, es, id)[i]) {
      if TouchesInvites(es[i].request) {
        StepInvite(ts[i], es[i].request, es[i].now, id);
      } else {
        InvitesUntouched(ts[i], es[i].request, es[i].now);
      }
    }
    LastWrite(values, InviteWrites(ts, es, id), n, expiry);
  }

  // ---- The log table ----

  // The row a lock event leaves.
  function RowOf(t: Tables, r: Request, now: nat): Log
    requires IsLog(r)
  {
    Log(r.path.raw, r.seconds, r.locked, r.reason, NamedUser(t, r, now))
  }

  // The requests that delete a row: the device changes hands, the named user's account
  // ends, or a month has passed.
  predicate Erases(t: Tables, r: Request, now: nat, row: Log)
    requires Possible(t, r, now)
  {
    match r
    case RegisterDevice(path, _, _) => For(path, row.key)
    case Unpair(_, path) => For(path, row.key) && Respond(t, r, now).response == Done
    case DeleteAccount(token) => row.user.Some? && Authenticate(t, token) == row.user
    case CleanLogs => row.seconds * 1000 < now - 30 * DAY_MS
    case _ => false
  }

  function LogWrite(t: Tables, r: Request, now: nat, row: Log): Write<Log>
    requires Possible(t, r, now)
  {
    if IsLog(r) && row == RowOf(t, r, now) then Put(row) else WriteIf(Erases(t, r, now, row), Clear)
  }

  function Logged(t: Tables, row: Log): Option<Log> { if row in t.logs then Some(row) else None }

  lemma StepLog(t: Tables, r: Request, now: nat, row: Log)
    requires Possible(t, r, now)
    ensures Logged(Respond(t, r, now).tables, row) == Written(Logged(t, row), LogWrite(t, r, now, row))
  {
  }

  function LogWrites(ts: seq<Tables>, es: seq<Step>, row: Log): seq<Write<Log>>
    requires IsRun(ts, es)
  {
    seq(|es|, i requires 0 <= i < |es| => LogWrite(ts[i], es[i].request, es[i].now, row))
  }

  // A row is in the table if and only if some event left it and nothing deleted it since.
  lemma LogTable(ts: seq<Tables>, es: seq<Step>, n: nat, row: Log)
    requires IsRun(ts, es) && n <= |es|
    ensures row in ts[n].logs <==> exists i: nat :: Last(LogWrites(ts, es, row), n, i) && LogWrites(ts, es, row)[i].value == row
  {
    var values := seq(|ts|, i requires 0 <= i < |ts| => Logged(ts[i], row));
    forall i | 0 <= i < |es| ensures values[i + 1] == Written(values[i], LogWrites(ts, es, row)[i]) {
      StepLog(ts[i], es[i].request, es[i].now, row);
    }
    LastWrite(values, LogWrites(ts, es, row), n, row);
  }

  // Whoever the log table names, at any moment of any run, was allowed to operate the
  // device and asked it to move within the five seconds before the event.
  lemma NamedUsersWereAllowed(ts: seq<Tables>, es: seq<Step>, parse: string -> Option<Uuid>, n: nat, row: Log)
    returns (i: nat, j: nat)
    requires IsRun(ts, es) && Spelled(es, parse) && n <= |es| && row in ts[n].logs && row.user.Some?
    ensures i < j < n && IsLog(es[j].request) && row == RowOf(ts[j], es[j].request, es[j].now)
    ensures Explains(ts, es, i, j, row.user.value)
  {
    LogTable(ts, es, n, row);
    j :| Last(LogWrites(ts, es, row), n, j);
    i := AttributionIsSound(ts, es, parse, j, row.user.value);
  }
}
