// The back end as a state machine over its tables: users, tokens, devices, invites, the
// map of recent commands and the log. One HTTP request or one MQTT message is one step.
//
// A UUID is its canonical text; a path or topic parameter carries its raw spelling and
// what it parses to. Tokens are fresh, so a token names at most one user. Where a query
// may return any of several rows, the row or the order comes with the request.
module Backend {
  import opened Wrappers
  import opened VoiceMatch
  import ConfigUpdate

  type Uid = string
  type Token = string
  type Uuid = string
  type Embedding = nat

  datatype User = User(email: string, voice: Option<Embedding>)

  datatype Device = Device(
    owner: Option<Uid>,
    passphrase: Option<string>,
    inviteEnable: Option<bool>,
    threshold: Option<real>,
    lockedDownAt: Option<int>)

  datatype Invite = Invite(device: Uuid, sender: Uid, receiver: Uid, accepted: bool, expiry: int)

  datatype Command = Command(user: Uid, seconds: int)

  datatype Log = Log(key: string, seconds: int, locked: bool, reason: string, user: Option<Uid>)

  datatype Tables = Tables(
    users: map<Uid, User>,
    tokens: map<Token, Uid>,
    devices: map<Uuid, Device>,
    invites: map<nat, Invite>,
    nextId: nat,
    recent: map<string, Command>,
    logs: seq<Log>)

  const EMPTY: Tables := Tables(map[], map[], map[], map[], 0, map[], [])

  datatype Path = Path(raw: string, uuid: Option<Uuid>)

  datatype Response =
    | Done
    | Created(id: nat)
    | Issued(token: Token)
    | Matched(index: nat)
    | BadRequest | Unauthorized | Forbidden | NotFound | Conflict | ServerError

  datatype Reply = Reply(tables: Tables, response: Response)

  datatype Request =
    | RegisterUser(uid: Uid, email: string)
    | Login(uid: Uid, passwordOk: bool, issued: Token)
    | Logout(token: Token)
    | SetVoice(token: Token, voice: Option<Embedding>)
    | DeleteAccount(token: Token)
    | RegisterDevice(path: Path, owner: Uid, passphrase: string)
    | Unpair(token: Token, path: Path)
    | UpdateConfig(token: Token, path: Path, items: seq<ConfigUpdate.Item>)
    | CreateInvite(token: Token, path: Path, email: string, found: Option<Uid>, duration: string)
    | AcceptInvite(token: Token, id: nat)
    | RejectInvite(token: Token, id: nat)
    | CancelInvite(token: Token, id: nat)
    | UpdateInvite(token: Token, id: nat, duration: string)
    | Control(token: Token, path: Path, userId: Uid)
    | TempControl(token: Token, path: Path, userId: Uid)
    | VerifyVoice(path: Path, bearer: string, order: seq<nat>, audioEmpty: bool, score: Option<Embedding -> real>)
    | Heartbeat(path: Path, uid: Uid)
    | LockingDown(path: Path, seconds: int)
    | LockEvent(path: Path, locked: bool, reason: string, seconds: int)
    | CleanLogs

  // ---- Helpers of the handlers ----

  function Authenticate(t: Tables, token: Token): Option<Uid> {
    if token in t.tokens then Some(t.tokens[token]) else None
  }

  function OwnerOf(t: Tables, uuid: Uuid): Option<Uid> {
    if uuid in t.devices then t.devices[uuid].owner else None
  }

  // The accepted, unexpired invite that gives a user access to a device.
  predicate Grants(i: Invite, uuid: Uuid, uid: Uid, now: int) {
    i.device == uuid && i.receiver == uid && i.accepted && i.expiry > now
  }

  predicate HasInvite(t: Tables, uuid: Uuid, uid: Uid, now: int) {
    exists id :: id in t.invites && Grants(t.invites[id], uuid, uid, now)
  }

  // The check of control_device; control_temp_device asks for the invite alone.
  predicate HasAccess(t: Tables, uuid: Uuid, uid: Uid, now: int) {
    OwnerOf(t, uuid).Some? && (OwnerOf(t, uuid) == Some(uid) || HasInvite(t, uuid, uid, now))
  }

  predicate HasPending(t: Tables, uuid: Uuid, uid: Uid) {
    exists id :: id in t.invites && t.invites[id].device == uuid && t.invites[id].receiver == uid && !t.invites[id].accepted
  }

  const DAY_MS: int := 86_400_000

  function Days(duration: string): int {
    if duration == "2_dias" then 2
    else if duration == "1_semana" then 7
    else if duration == "2_semanas" then 14
    else if duration == "1_mes" then 30
    else if duration == "permanente" then 36500
    else 7
  }

  // calculate_expiry_timestamp
  function Expiry(now: int, duration: string): int { now + Days(duration) * DAY_MS }

  // The durations of the API, in milliseconds.
  lemma Durations(now: int, duration: string)
    ensures Expiry(now, "2_dias") == now + 172_800_000
    ensures Expiry(now, "1_semana") == now + 604_800_000
    ensures Expiry(now, "2_semanas") == now + 1_209_600_000
    ensures Expiry(now, "1_mes") == now + 2_592_000_000
    ensures Expiry(now, "permanente") == now + 3_153_600_000_000
    ensures duration !in {"2_dias", "1_semana", "2_semanas", "1_mes", "permanente"} ==> Expiry(now, duration) == now + 604_800_000
  {
  }

  function WithoutDevice(invites: map<nat, Invite>, uuid: Uuid): map<nat, Invite> {
    map id | id in invites && invites[id].device != uuid :: invites[id]
  }

  function WithoutUser(invites: map<nat, Invite>, uid: Uid): map<nat, Invite> {
    map id | id in invites && invites[id].sender != uid && invites[id].receiver != uid :: invites[id]
  }

  function TokensWithout(tokens: map<Token, Uid>, uid: Uid): map<Token, Uid> {
    map token | token in tokens && tokens[token] != uid :: tokens[token]
  }

  function Disowned(devices: map<Uuid, Device>, uid: Uid): map<Uuid, Device> {
    map uuid | uuid in devices ::
      if devices[uuid].owner == Some(uid) then devices[uuid].(owner := None) else devices[uuid]
  }

  // The rows a delete statement leaves.
  function Keep(logs: seq<Log>, p: Log -> bool): (kept: seq<Log>)
    ensures forall log :: log in kept <==> log in logs && p(log)
  {
    if logs == [] then [] else Keep(logs[..|logs| - 1], p) + (if p(logs[|logs| - 1]) then [logs[|logs| - 1]] else [])
  }

  function NotBy(uid: Uid): Log -> bool { (log: Log) => log.user != Some(uid) }

  function NotAbout(key: string): Log -> bool { (log: Log) => log.key != key }

  function Since(ms: int): Log -> bool { (log: Log) => log.seconds * 1000 >= ms }

  function Seconds(now: nat): int { now / 1000 }

  // ---- The handlers ----

  function DoRegisterUser(t: Tables, uid: Uid, email: string): Reply {
    if uid in t.users then Reply(t, ServerError) else Reply(t.(users := t.users[uid := User(email, None)]), Done)
  }

  function DoLogin(t: Tables, uid: Uid, passwordOk: bool, issued: Token): Reply {
    if uid in t.users && passwordOk then Reply(t.(tokens := TokensWithout(t.tokens, uid)[issued := uid]), Issued(issued))
    else Reply(t, Unauthorized)
  }

  // The statement matches the token against the user name, so it clears nothing unless a
  // user is called like the token.
  function DoLogout(t: Tables, token: Token): Reply {
    Reply(t.(tokens := TokensWithout(t.tokens, token)), Done)
  }

  function DoSetVoice(t: Tables, token: Token, voice: Option<Embedding>): Reply {
    match Authenticate(t, token)
    case None => Reply(t, Unauthorized)
    case Some(uid) =>
      if uid in t.users then Reply(t.(users := t.users[uid := t.users[uid].(voice := voice)]), Done) else Reply(t, Done)
  }

  function DoDeleteAccount(t: Tables, token: Token): Reply {
    match Authenticate(t, token)
    case None => Reply(t, Unauthorized)
    case Some(uid) =>
      Reply(t.(devices := Disowned(t.devices, uid),
               logs := Keep(t.logs, NotBy(uid)),
               invites := WithoutUser(t.invites, uid),
               users := t.users - {uid},
               tokens := TokensWithout(t.tokens, uid)),
            Done)
  }

  function DoRegisterDevice(t: Tables, path: Path, owner: Uid, passphrase: string): Reply {
    match path.uuid
    case None => Reply(t, BadRequest)
    case Some(uuid) =>
      var row := if uuid in t.devices then t.devices[uuid] else Device(None, None, Some(true), Some(0.60), None);
      Reply(t.(devices := t.devices[uuid := row.(owner := Some(owner), passphrase := Some(passphrase))],
               logs := Keep(t.logs, NotAbout(uuid)),
               invites := WithoutDevice(t.invites, uuid)),
            Done)
  }

  function DoUnpair(t: Tables, token: Token, path: Path): Reply {
    if path.uuid.None? then Reply(t, BadRequest)
    else
      var uuid, user := path.uuid.value, Authenticate(t, token);
      if user.None? || OwnerOf(t, uuid) != user then Reply(t, Unauthorized)
      else
        Reply(t.(devices := t.devices[uuid := t.devices[uuid].(owner := None)],
                 logs := Keep(t.logs, NotAbout(uuid)),
                 invites := WithoutDevice(t.invites, uuid)),
              Done)
  }

  predicate AllValid(items: seq<ConfigUpdate.Item>) {
    forall i :: 0 <= i < |items| ==> ConfigUpdate.Valid(items[i])
  }

  function WithVoiceRow(row: Device, items: seq<ConfigUpdate.Item>): Device {
    var voice := ConfigUpdate.ApplyRow(ConfigUpdate.VoiceRow(row.inviteEnable, row.threshold), items);
    row.(inviteEnable := voice.inviteEnable, threshold := voice.threshold)
  }

  // update_config up to its first message: the items the back end keeps for itself. The
  // exchange with the device that follows touches no table.
  function DoUpdateConfig(t: Tables, token: Token, path: Path, items: seq<ConfigUpdate.Item>): Reply {
    if path.uuid.None? then Reply(t, BadRequest)
    else
      var uuid, user := path.uuid.value, Authenticate(t, token);
      if user.None? then Reply(t, Unauthorized)
      else if OwnerOf(t, uuid).None? then Reply(t, NotFound)
      else if OwnerOf(t, uuid) != user then Reply(t, Unauthorized)
      else if !AllValid(items) then Reply(t, BadRequest)
      else Reply(t.(devices := t.devices[uuid := WithVoiceRow(t.devices[uuid], items)]), Done)
  }

  function DoCreateInvite(t: Tables, token: Token, path: Path, found: Option<Uid>, duration: string, now: nat): Reply {
    if path.uuid.None? then Reply(t, BadRequest)
    else
      var uuid, sender := path.uuid.value, Authenticate(t, token);
      if sender.None? then Reply(t, Unauthorized)
      else if OwnerOf(t, uuid).None? then Reply(t, NotFound)
      else if OwnerOf(t, uuid) != sender then Reply(t, Forbidden)
      else if found.None? then Reply(t, NotFound)
      else if HasPending(t, uuid, found.value) then Reply(t, Conflict)
      else
        Reply(t.(invites := t.invites[t.nextId := Invite(uuid, sender.value, found.value, false, Expiry(now, duration))],
                 nextId := t.nextId + 1),
              Created(t.nextId))
  }

  function DoAcceptInvite(t: Tables, token: Token, id: nat): Reply {
    var user := Authenticate(t, token);
    if user.None? then Reply(t, Unauthorized)
    else if id in t.invites && Some(t.invites[id].receiver) == user && !t.invites[id].accepted then
      Reply(t.(invites := t.invites[id := t.invites[id].(accepted := true)]), Done)
    else Reply(t, NotFound)
  }

  function DoRejectInvite(t: Tables, token: Token, id: nat): Reply {
    var user := Authenticate(t, token);
    if user.None? then Reply(t, Unauthorized)
    else if id in t.invites && Some(t.invites[id].receiver) == user then Reply(t.(invites := t.invites - {id}), Done)
    else Reply(t, NotFound)
  }

  function DoCancelInvite(t: Tables, token: Token, id: nat): Reply {
    var user := Authenticate(t, token);
    if user.None? then Reply(t, Unauthorized)
    else if id in t.invites && Some(t.invites[id].sender) == user then Reply(t.(invites := t.invites - {id}), Done)
    else Reply(t, NotFound)
  }

  function DoUpdateInvite(t: Tables, token: Token, id: nat, duration: string, now: nat): Reply {
    var user := Authenticate(t, token);
    if user.None? then Reply(t, Unauthorized)
    else if id in t.invites && Some(t.invites[id].sender) == user then
      Reply(t.(invites := t.invites[id := t.invites[id].(expiry := Expiry(now, duration))]), Done)
    else Reply(t, NotFound)
  }

  function Remember(t: Tables, key: string, uid: Uid, now: nat): Tables {
    t.(recent := t.recent[key := Command(uid, Seconds(now))])
  }

  function DoControl(t: Tables, token: Token, path: Path, userId: Uid, now: nat): Reply {
    if path.uuid.None? then Reply(t, BadRequest)
    else if Authenticate(t, token) != Some(userId) || !HasAccess(t, path.uuid.value, userId, now) then Reply(t, Unauthorized)
    else Reply(Remember(t, path.uuid.value, userId, now), Done)
  }

  function DoTempControl(t: Tables, token: Token, path: Path, userId: Uid, now: nat): Reply {
    if path.uuid.None? then Reply(t, BadRequest)
    else if Authenticate(t, token) != Some(userId) || !HasInvite(t, path.uuid.value, userId, now) then Reply(t, Unauthorized)
    else Reply(Remember(t, path.raw, userId, now), Done)
  }

  // ---- Voice ----

  // A row of the query for invited voices.
  predicate IsVoiceRow(t: Tables, uuid: Uuid, now: int, id: nat) {
    id in t.invites && var i := t.invites[id];
    i.device == uuid && i.accepted && i.expiry > now && i.receiver in t.users && t.users[i.receiver].voice.Some?
  }

  // The rows of that query, each once, in whatever order they came.
  predicate IsVoiceQuery(t: Tables, uuid: Uuid, now: int, order: seq<nat>) {
    && (forall a, b :: 0 <= a < b < |order| ==> order[a] != order[b])
    && (forall id :: id in order ==> IsVoiceRow(t, uuid, now, id))
    && (forall id :: id in t.invites && IsVoiceRow(t, uuid, now, id) ==> id in order)
  }

  // A device whose owner can be asked for: the fields verify_voice needs are all there.
  predicate VoiceReady(t: Tables, uuid: Uuid) {
    uuid in t.devices && var row := t.devices[uuid];
    row.owner.Some? && row.inviteEnable.Some? && row.threshold.Some?
  }

  function VoiceOf(t: Tables, uid: Uid): Option<Embedding> {
    if uid in t.users then t.users[uid].voice else None
  }

  // The users whose voices are compared: the owner first, then the invited.
  function VoiceUsers(t: Tables, uuid: Uuid, order: seq<nat>): seq<Uid>
    requires VoiceReady(t, uuid)
    requires forall id :: id in order ==> id in t.invites
  {
    [t.devices[uuid].owner.value]
    + (if t.devices[uuid].inviteEnable.value then seq(|order|, k requires 0 <= k < |order| => t.invites[order[k]].receiver)
       else [])
  }

  function ScoreOf(t: Tables, uid: Uid, score: Embedding -> real): real {
    if VoiceOf(t, uid).Some? then score(VoiceOf(t, uid).value) else -1.0
  }

  // What the voice service computes for each candidate of the list it is sent.
  function Scores(t: Tables, users: seq<Uid>, score: Embedding -> real): seq<real> {
    seq(|users|, k requires 0 <= k < |users| => ScoreOf(t, users[k], score))
  }

  // From the call of the voice service on.
  function DoCompareVoices(t: Tables, path: Path, order: seq<nat>, score: Option<Embedding -> real>, now: nat): Reply
    requires path.uuid.Some? && VoiceReady(t, path.uuid.value) && forall id :: id in order ==> id in t.invites
  {
    var users := VoiceUsers(t, path.uuid.value, order);
    var best := if score.None? then Best(-1, -1.0) else BestOf(Scores(t, users, score.value));
    if best.index < 0 then Reply(t, ServerError)
    else if best.score > t.devices[path.uuid.value].threshold.value then
      Reply(Remember(t, path.raw, users[best.index], now), Matched(best.index))
    else Reply(t, Forbidden)
  }

  function DoVerifyVoice(t: Tables, path: Path, bearer: string, order: seq<nat>, audioEmpty: bool,
                         score: Option<Embedding -> real>, now: nat): Reply
    requires forall id :: id in order ==> id in t.invites
  {
    if path.uuid.None? || !VoiceReady(t, path.uuid.value) then Reply(t, BadRequest)
    else
      var row := t.devices[path.uuid.value];
      if row.passphrase != Some(bearer) then Reply(t, Unauthorized)
      else if VoiceOf(t, row.owner.value).None? || audioEmpty then Reply(t, BadRequest)
      else
        DoCompareVoices(t, path, order, score, now)
  }

  // ---- MQTT ----

  function DoHeartbeat(t: Tables, path: Path, uid: Uid, now: nat): Reply {
    match path.uuid
    case None => Reply(t, Done)
    case Some(uuid) =>
      var row := if uuid in t.devices then t.devices[uuid] else Device(None, None, Some(true), Some(0.60), None);
      var lifted := row.lockedDownAt.Some? && now - row.lockedDownAt.value >= 10_000;
      Reply(t.(devices := t.devices[uuid := row.(owner := Some(uid),
                                                 lockedDownAt := if lifted then None else row.lockedDownAt)]),
            Done)
  }

  function DoLockingDown(t: Tables, path: Path, seconds: int): Reply {
    match path.uuid
    case None => Reply(t, Done)
    case Some(uuid) =>
      if uuid !in t.devices then Reply(t, Done)
      else Reply(t.(devices := t.devices[uuid := t.devices[uuid].(lockedDownAt := Some(seconds * 1000))]), Done)
  }

  // The user a lock event is attributed to: whoever registered under the same key less
  // than five whole seconds ago.
  function Attributed(t: Tables, key: string, now: nat): Option<Uid> {
    if key in t.recent && Seconds(now) - t.recent[key].seconds < 5 then Some(t.recent[key].user) else None
  }

  function DoLockEvent(t: Tables, path: Path, locked: bool, reason: string, seconds: int, now: nat): Reply {
    if path.uuid.None? then Reply(t, Done)
    else
      var user := Attributed(t, path.raw, now);
      Reply(t.(recent := if user.Some? then t.recent - {path.raw} else t.recent,
               logs := t.logs + [Log(path.raw, seconds, locked, reason, user)]),
            Done)
  }

  function DoCleanLogs(t: Tables, now: nat): Reply {
    Reply(t.(logs := Keep(t.logs, Since(now - 30 * DAY_MS))), Done)
  }

  // ---- One step ----

  // What the environment may choose: fresh tokens, and query results that match the tables.
  predicate Possible(t: Tables, r: Request, now: nat) {
    match r
    case Login(_, _, issued) => issued !in t.tokens
    case CreateInvite(_, _, email, found, _) =>
      if found.Some? then found.value in t.users && t.users[found.value].email == email
      else forall uid :: uid in t.users ==> t.users[uid].email != email
    case VerifyVoice(path, _, order, _, _) =>
      if path.uuid.Some? then IsVoiceQuery(t, path.uuid.value, now, order) else order == []
    case _ => true
  }

  function Respond(t: Tables, r: Request, now: nat): Reply
    requires Possible(t, r, now)
  {
    match r
    case RegisterUser(uid, email) => DoRegisterUser(t, uid, email)
    case Login(uid, passwordOk, issued) => DoLogin(t, uid, passwordOk, issued)
    case Logout(token) => DoLogout(t, token)
    case SetVoice(token, voice) => DoSetVoice(t, token, voice)
    case DeleteAccount(token) => DoDeleteAccount(t, token)
    case RegisterDevice(path, owner, passphrase) => DoRegisterDevice(t, path, owner, passphrase)
    case Unpair(token, path) => DoUnpair(t, token, path)
    case UpdateConfig(token, path, items) => DoUpdateConfig(t, token, path, items)
    case CreateInvite(token, path, _, found, duration) => DoCreateInvite(t, token, path, found, duration, now)
    case AcceptInvite(token, id) => DoAcceptInvite(t, token, id)
    case RejectInvite(token, id) => DoRejectInvite(t, token, id)
    case CancelInvite(token, id) => DoCancelInvite(t, token, id)
    case UpdateInvite(token, id, duration) => DoUpdateInvite(t, token, id, duration, now)
    case Control(token, path, userId) => DoControl(t, token, path, userId, now)
    case TempControl(token, path, userId) => DoTempControl(t, token, path, userId, now)
    case VerifyVoice(path, bearer, order, audioEmpty, score) =>
      DoVerifyVoice(t, path, bearer, order, audioEmpty, score, now)
    case Heartbeat(path, uid) => DoHeartbeat(t, path, uid, now)
    case LockingDown(path, seconds) => DoLockingDown(t, path, seconds)
    case LockEvent(path, locked, reason, seconds) => DoLockEvent(t, path, locked, reason, seconds, now)
    case CleanLogs => DoCleanLogs(t, now)
  }
}
