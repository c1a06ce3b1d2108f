// The handlers of the back end, statement by statement over its tables, against the step
// functions of module Backend.
module BackendService {
  import opened Wrappers
  import opened VoiceMatch
  import opened Backend
  import BackendVoice
  import ConfigUpdate

  // The lists sent to the voice service stay aligned: the k-th embedding is the k-th
  // user's, the owner first.
  predicate Aligned(t: Tables, ids: seq<Uid>, embeddings: seq<Embedding>) {
    |ids| == |embeddings| && forall k :: 0 <= k < |ids| ==> VoiceOf(t, ids[k]) == Some(embeddings[k])
  }

  // The row of a device after an accepted batch: its two voice columns follow the items.
  predicate RowFollows(before: Device, items: seq<ConfigUpdate.Item>, after: Device) {
    && after == before.(inviteEnable := after.inviteEnable, threshold := after.threshold)
    && ConfigUpdate.EnableFollows(items, before.inviteEnable, after.inviteEnable)
    && ConfigUpdate.ThresholdFollows(items, before.threshold, after.threshold)
  }

  // The answer to a batch of configuration items, and what becomes of the tables: the owner
  // of the device is heard, and the whole batch must be acceptable.
  predicate ConfigAnswered(t: Tables, token: Token, path: Path, items: seq<ConfigUpdate.Item>, reply: Reply) {
    if path.uuid.None? then reply == Reply(t, BadRequest)
    else if token !in t.tokens then reply == Reply(t, Unauthorized)
    else if path.uuid.value !in t.devices || t.devices[path.uuid.value].owner.None? then reply == Reply(t, NotFound)
    else if t.devices[path.uuid.value].owner.value != t.tokens[token] then reply == Reply(t, Unauthorized)
    else if exists i :: 0 <= i < |items| && !ConfigUpdate.Acceptable(items[i]) then reply == Reply(t, BadRequest)
    else
      && reply.response == Done && path.uuid.value in reply.tables.devices
      && reply.tables == t.(devices := t.devices[path.uuid.value := reply.tables.devices[path.uuid.value]])
      && RowFollows(t.devices[path.uuid.value], items, reply.tables.devices[path.uuid.value])
  }

  lemma ConfigReply(t: Tables, token: Token, path: Path, items: seq<ConfigUpdate.Item>)
    ensures ConfigAnswered(t, token, path, items, DoUpdateConfig(t, token, path, items))
  {
    AllAcceptable(items);
    if AllValid(items) && path.uuid.Some? && path.uuid.value in t.devices {
      var row := t.devices[path.uuid.value];
      ConfigUpdate.ColumnsFollow(ConfigUpdate.VoiceRow(row.inviteEnable, row.threshold), items);
    }
  }

  lemma AllAcceptable(items: seq<ConfigUpdate.Item>)
    ensures AllValid(items) <==> forall i :: 0 <= i < |items| ==> ConfigUpdate.Acceptable(items[i])
  {
    forall i | 0 <= i < |items| ensures ConfigUpdate.Valid(items[i]) <==> ConfigUpdate.Acceptable(items[i]) {
      ConfigUpdate.ValidIffAcceptable(items[i]);
    }
  }

  class Service {
    var users: map<Uid, User>
    var tokens: map<Token, Uid>
    var devices: map<Uuid, Device>
    var invites: map<nat, Invite>
    var nextId: nat
    var recent: map<string, Command>
    var logs: seq<Log>

    function View(): Tables
      reads this
    {
      Tables(users, tokens, devices, invites, nextId, recent, logs)
    }

    constructor ()
      ensures View() == EMPTY
    {
      users, tokens, devices, invites, nextId, recent, logs := map[], map[], map[], map[], 0, map[], [];
    }

    // ---- user.rs ----

    method LoginUser(uid: Uid, passwordOk: bool, issued: Token) returns (response: Response)
      requires issued !in tokens
      modifies this`tokens
      ensures Reply(View(), response) == DoLogin(old(View()), uid, passwordOk, issued)
      ensures response == if uid in users && passwordOk then Issued(issued) else Unauthorized
      ensures response.Issued? ==> forall token :: token in tokens && tokens[token] == uid <==> token == issued
      ensures !response.Issued? ==> tokens == old(tokens)
      ensures forall token :: token in tokens && tokens[token] != uid ==>
        token in old(tokens) && old(tokens)[token] == tokens[token]
      ensures forall token :: token in old(tokens) && old(tokens)[token] != uid ==>
        token in tokens && tokens[token] == old(tokens)[token]
    {
      if uid in users {
        if passwordOk {
          tokens := TokensWithout(tokens, uid);
          tokens := tokens[issued := uid];
          return Issued(issued);
        }
      }
      return Unauthorized;
    }

    method DeleteAccount(token: Token) returns (response: Response)
      modifies this
      ensures Reply(View(), response) == DoDeleteAccount(old(View()), token)
      ensures response == if token in old(tokens) then Done else Unauthorized
      ensures response == Unauthorized ==> View() == old(View())
      ensures response == Done ==>
        var uid := old(tokens)[token];
        && users == old(users) - {uid}
        && (forall other :: other in tokens <==> other in old(tokens) && old(tokens)[other] != uid)
        && (forall other :: other in tokens ==> tokens[other] == old(tokens)[other])
        && devices.Keys == old(devices).Keys
        && (forall uuid :: uuid in devices ==>
              devices[uuid] == if old(devices)[uuid].owner == Some(uid) then old(devices)[uuid].(owner := None) else old(devices)[uuid])
        && (forall id :: id in invites <==> id in old(invites) && old(invites)[id].sender != uid && old(invites)[id].receiver != uid)
        && (forall id :: id in invites ==> invites[id] == old(invites)[id])
        && (forall log :: log in logs <==> log in old(logs) && log.user != Some(uid))
    {
      if token !in tokens {
        return Unauthorized;
      }
      var uid := tokens[token];
      devices := Disowned(devices, uid);
      logs := Keep(logs, NotBy(uid));
      invites := WithoutUser(invites, uid);
      users := users - {uid};
      tokens := TokensWithout(tokens, uid);
      return Done;
    }

    method RegisterUser(uid: Uid, email: string) returns (response: Response)
      modifies this`users
      ensures Reply(View(), response) == DoRegisterUser(old(View()), uid, email)
      ensures response == if uid in old(users) then ServerError else Done
      ensures users == if uid in old(users) then old(users) else old(users)[uid := User(email, None)]
    {
      if uid in users {
        return ServerError;
      }
      users := users[uid := User(email, None)];
      return Done;
    }

    // The token is matched against user names: only that of a user called so is cleared.
    method LogoutUser(token: Token) returns (response: Response)
      modifies this`tokens
      ensures Reply(View(), response) == DoLogout(old(View()), token)
      ensures response == Done
      ensures forall other :: other in tokens <==> other in old(tokens) && old(tokens)[other] != token
      ensures forall other :: other in tokens ==> tokens[other] == old(tokens)[other]
    {
      tokens := TokensWithout(tokens, token);
      return Done;
    }

    // register_voice stores what the service made of the recording, delete_voice nothing.
    method SetVoice(token: Token, voice: Option<Embedding>) returns (response: Response)
      modifies this`users
      ensures Reply(View(), response) == DoSetVoice(old(View()), token, voice)
      ensures response == if token in tokens then Done else Unauthorized
      ensures users.Keys == old(users).Keys
      ensures forall uid :: uid in users ==> users[uid].email == old(users)[uid].email
      ensures forall uid :: uid in users ==>
        users[uid].voice == if token in tokens && tokens[token] == uid then voice else old(users)[uid].voice
    {
      if token !in tokens {
        return Unauthorized;
      }
      var uid := tokens[token];
      if uid in users {
        users := users[uid := users[uid].(voice := voice)];
      }
      return Done;
    }

    // ---- invite.rs ----

    method CreateInvite(token: Token, path: Path, found: Option<Uid>, duration: string, now: nat)
      returns (response: Response)
      modifies this`invites, this`nextId
      ensures Reply(View(), response) == DoCreateInvite(old(View()), token, path, found, duration, now)
      ensures response == BadRequest <==> path.uuid.None?
      ensures response == Unauthorized <==> path.uuid.Some? && token !in tokens
      ensures path.uuid.Some? && token in tokens ==>
        var uuid, sender := path.uuid.value, tokens[token];
        var owned := uuid in devices && devices[uuid].owner.Some?;
        var mine := owned && devices[uuid].owner.value == sender;
        var pending := found.Some? && exists id :: && id in old(invites) && old(invites)[id].device == uuid
                                                   && old(invites)[id].receiver == found.value && !old(invites)[id].accepted;
        && (response == NotFound <==> !owned || (mine && found.None?))
        && (response == Forbidden <==> owned && !mine)
        && (response == Conflict <==> mine && pending)
        && (response == Created(old(nextId)) <==> mine && found.Some? && !pending)
        && (response == Created(old(nextId)) ==>
              && nextId == old(nextId) + 1
              && invites == old(invites)[old(nextId) :=
                   Invite(uuid, sender, found.value, false, now + Days(duration) * 24 * 60 * 60 * 1000)])
      ensures !response.Created? ==> invites == old(invites) && nextId == old(nextId)
    {
      if path.uuid.None? {
        return BadRequest;
      }
      var uuid := path.uuid.value;
      if token !in tokens {
        return Unauthorized;
      }
      var sender := tokens[token];
      if uuid !in devices || devices[uuid].owner.None? {
        return NotFound;
      }
      if devices[uuid].owner.value != sender {
        return Forbidden;
      }
      if found.None? {
        return NotFound;
      }
      if id :| id in invites && invites[id].device == uuid && invites[id].receiver == found.value && !invites[id].accepted {
        assert HasPending(View(), uuid, found.value);
        return Conflict;
      }
      var expiry := Expiry(now, duration);
      var id := nextId;
      invites := invites[id := Invite(uuid, sender, found.value, false, expiry)];
      nextId := nextId + 1;
      return Created(id);
    }

    method AcceptInvite(token: Token, id: nat) returns (response: Response)
      modifies this`invites
      ensures Reply(View(), response) == DoAcceptInvite(old(View()), token, id)
      ensures response == Done <==>
        token in tokens && id in old(invites) && old(invites)[id].receiver == tokens[token] && !old(invites)[id].accepted
      ensures invites.Keys == old(invites).Keys
      ensures forall k :: k in invites ==> invites[k].(accepted := false) == old(invites)[k].(accepted := false)
      ensures forall k :: k in invites ==> (invites[k].accepted <==> old(invites)[k].accepted || (k == id && response == Done))
    {
      if token !in tokens {
        return Unauthorized;
      }
      var rowsAffected := 0;
      if id in invites && invites[id].receiver == tokens[token] && !invites[id].accepted {
        invites := invites[id := invites[id].(accepted := true)];
        rowsAffected := 1;
      }
      if rowsAffected == 0 {
        return NotFound;
      }
      return Done;
    }

    method RejectInvite(token: Token, id: nat) returns (response: Response)
      modifies this`invites
      ensures Reply(View(), response) == DoRejectInvite(old(View()), token, id)
      ensures response == Done <==>
        token in tokens && id in old(invites) && old(invites)[id].receiver == tokens[token]
      ensures response == Unauthorized <==> token !in tokens
      ensures invites == if response == Done then old(invites) - {id} else old(invites)
    {
      if token !in tokens {
        return Unauthorized;
      }
      var rowsAffected := 0;
      if id in invites && invites[id].receiver == tokens[token] {
        invites := invites - {id};
        rowsAffected := 1;
      }
      if rowsAffected == 0 {
        return NotFound;
      }
      return Done;
    }

    method CancelInvite(token: Token, id: nat) returns (response: Response)
      modifies this`invites
      ensures Reply(View(), response) == DoCancelInvite(old(View()), token, id)
      ensures response == Done <==>
        token in tokens && id in old(invites) && old(invites)[id].sender == tokens[token]
      ensures response == Unauthorized <==> token !in tokens
      ensures invites == if response == Done then old(invites) - {id} else old(invites)
    {
      if token !in tokens {
        return Unauthorized;
      }
      var rowsAffected := 0;
      if id in invites && invites[id].sender == tokens[token] {
        invites := invites - {id};
        rowsAffected := 1;
      }
      if rowsAffected == 0 {
        return NotFound;
      }
      return Done;
    }

    method UpdateInvite(token: Token, id: nat, duration: string, now: nat) returns (response: Response)
      modifies this`invites
      ensures Reply(View(), response) == DoUpdateInvite(old(View()), token, id, duration, now)
      ensures response == Done <==>
        token in tokens && id in old(invites) && old(invites)[id].sender == tokens[token]
      ensures response == Unauthorized <==> token !in tokens
      ensures invites.Keys == old(invites).Keys
      ensures forall k :: k in invites ==> invites[k].(expiry := 0) == old(invites)[k].(expiry := 0)
      ensures forall k :: k in invites && (k != id || response != Done) ==> invites[k].expiry == old(invites)[k].expiry
      ensures response == Done ==> invites[id].expiry == now + Days(duration) * 24 * 60 * 60 * 1000
    {
      if token !in tokens {
        return Unauthorized;
      }
      var expiry := Expiry(now, duration);
      var rowsAffected := 0;
      if id in invites && invites[id].sender == tokens[token] {
        invites := invites[id := invites[id].(expiry := expiry)];
        rowsAffected := 1;
      }
      if rowsAffected == 0 {
        return NotFound;
      }
      return Done;
    }

    // ---- device.rs ----

    method RegisterDevice(path: Path, owner: Uid, passphrase: string) returns (response: Response)
      modifies this`devices, this`logs, this`invites
      ensures Reply(View(), response) == DoRegisterDevice(old(View()), path, owner, passphrase)
      ensures response == if path.uuid.Some? then Done else BadRequest
      ensures path.uuid.None? ==> View() == old(View())
      ensures path.uuid.Some? ==>
        var uuid := path.uuid.value;
        && devices.Keys == old(devices).Keys + {uuid}
        && devices[uuid] == (if uuid in old(devices) then old(devices)[uuid].(owner := Some(owner), passphrase := Some(passphrase))
                             else Device(Some(owner), Some(passphrase), Some(true), Some(0.60), None))
        && (forall other :: other in old(devices) && other != uuid ==> devices[other] == old(devices)[other])
        && (forall id :: id in invites <==> id in old(invites) && old(invites)[id].device != uuid)
        && (forall id :: id in invites ==> invites[id] == old(invites)[id])
        && (forall log :: log in logs <==> log in old(logs) && log.key != uuid)
    {
      if path.uuid.None? {
        return BadRequest;
      }
      var uuid := path.uuid.value;
      if uuid in devices {
        devices := devices[uuid := devices[uuid].(owner := Some(owner), passphrase := Some(passphrase))];
      } else {
        devices := devices[uuid := Device(Some(owner), Some(passphrase), Some(true), Some(0.60), None)];
      }
      logs := Keep(logs, NotAbout(uuid));
      invites := WithoutDevice(invites, uuid);
      return Done;
    }

    method UnpairDevice(token: Token, path: Path) returns (response: Response)
      modifies this`devices, this`logs, this`invites
      ensures Reply(View(), response) == DoUnpair(old(View()), token, path)
      ensures response == Done <==>
        path.uuid.Some? && token in tokens && OwnerOf(old(View()), path.uuid.value) == Some(tokens[token])
      ensures response != Done ==> View() == old(View())
      ensures response == Done ==>
        var uuid := path.uuid.value;
        && devices.Keys == old(devices).Keys && devices[uuid] == old(devices)[uuid].(owner := None)
        && (forall other :: other in devices && other != uuid ==> devices[other] == old(devices)[other])
        && (forall id :: id in invites <==> id in old(invites) && old(invites)[id].device != uuid)
        && (forall id :: id in invites ==> invites[id] == old(invites)[id])
        && (forall log :: log in logs <==> log in old(logs) && log.key != uuid)
    {
      if path.uuid.None? {
        return BadRequest;
      }
      var uuid := path.uuid.value;
      if token !in tokens {
        return Unauthorized;
      }
      if uuid in devices && devices[uuid].owner.Some? {
        if tokens[token] != devices[uuid].owner.value {
          return Unauthorized;
        }
      } else {
        return Unauthorized;
      }
      devices := devices[uuid := devices[uuid].(owner := None)];
      logs := Keep(logs, NotAbout(uuid));
      invites := WithoutDevice(invites, uuid);
      return Done;
    }

    method UpdateConfig(token: Token, path: Path, items: seq<ConfigUpdate.Item>)
      returns (response: Response, deviceItems: seq<ConfigUpdate.Item>)
      modifies this`devices
      ensures Reply(View(), response) == DoUpdateConfig(old(View()), token, path, items)
      ensures deviceItems == if response == Done then ConfigUpdate.DeviceItems(items) else []
      ensures ConfigAnswered(old(View()), token, path, items, Reply(View(), response))
    {
      ConfigReply(View(), token, path, items);
      if path.uuid.None? {
        return BadRequest, [];
      }
      var uuid := path.uuid.value;
      var user := if token in tokens then Some(tokens[token]) else None;
      var device := if uuid in devices then Some(devices[uuid].owner) else None;
      var row := if uuid in devices then ConfigUpdate.VoiceRow(devices[uuid].inviteEnable, devices[uuid].threshold)
                 else ConfigUpdate.VoiceRow(None, None);
      var verdict, voice, rest := ConfigUpdate.Prepare(user, device, row, items);
      deviceItems := rest;
      match verdict
      case Proceed =>
        devices := devices[uuid := devices[uuid].(inviteEnable := voice.inviteEnable, threshold := voice.threshold)];
        response := Done;
      case Unauthorized => response := Unauthorized;
      case NotFound => response := NotFound;
      case BadRequest => response := BadRequest;
    }

    method ControlDevice(token: Token, path: Path, userId: Uid, now: nat) returns (response: Response)
      modifies this`recent
      ensures Reply(View(), response) == DoControl(old(View()), token, path, userId, now)
      ensures response == Done <==>
        && path.uuid.Some? && token in tokens && tokens[token] == userId
        && path.uuid.value in devices && devices[path.uuid.value].owner.Some?
        && (|| devices[path.uuid.value].owner.value == userId
            || exists id :: && id in invites && invites[id].device == path.uuid.value && invites[id].receiver == userId
                            && invites[id].accepted && invites[id].expiry > now)
      ensures response == BadRequest <==> path.uuid.None?
      ensures response in {Done, BadRequest, Unauthorized}
      ensures recent == if response == Done then old(recent)[path.uuid.value := Command(userId, now / 1000)] else old(recent)
    {
      if path.uuid.None? {
        return BadRequest;
      }
      var uuid := path.uuid.value;
      if token !in tokens {
        return Unauthorized;
      }
      var firebaseUid := tokens[token];
      if firebaseUid != userId {
        return Unauthorized;
      }
      var hasAccess := false;
      if uuid in devices && devices[uuid].owner.Some? {
        if userId == devices[uuid].owner.value {
          hasAccess := true;
        } else if id :| id in invites && Grants(invites[id], uuid, userId, now) {
          assert HasInvite(View(), uuid, userId, now);
          hasAccess := true;
        }
      }
      if !hasAccess {
        return Unauthorized;
      }
      recent := recent[uuid := Command(firebaseUid, Seconds(now))];
      return Done;
    }

    method ControlTempDevice(token: Token, path: Path, userId: Uid, now: nat) returns (response: Response)
      modifies this`recent
      ensures Reply(View(), response) == DoTempControl(old(View()), token, path, userId, now)
      ensures response == Done <==>
        && path.uuid.Some? && token in tokens && tokens[token] == userId
        && exists id :: && id in invites && invites[id].device == path.uuid.value && invites[id].receiver == userId
                        && invites[id].accepted && invites[id].expiry > now
      ensures response == BadRequest <==> path.uuid.None?
      ensures response in {Done, BadRequest, Unauthorized}
      ensures recent == if response == Done then old(recent)[path.raw := Command(userId, now / 1000)] else old(recent)
    {
      if path.uuid.None? {
        return BadRequest;
      }
      if token !in tokens {
        return Unauthorized;
      }
      var firebaseUid := tokens[token];
      if firebaseUid != userId {
        return Unauthorized;
      }
      if id :| id in invites && Grants(invites[id], path.uuid.value, userId, now) {
        assert HasInvite(View(), path.uuid.value, userId, now);
      } else {
        return Unauthorized;
      }
      recent := recent[path.raw := Command(firebaseUid, Seconds(now))];
      return Done;
    }

    // The owner, then whoever the query for invited voices returns.
    method CollectVoices(uuid: Uuid, order: seq<nat>, now: nat) returns (ids: seq<Uid>, embeddings: seq<Embedding>)
      requires VoiceReady(View(), uuid) && IsVoiceQuery(View(), uuid, now, order)
      requires VoiceOf(View(), devices[uuid].owner.value).Some?
      ensures ids == VoiceUsers(View(), uuid, order) && Aligned(View(), ids, embeddings)
      ensures ids[0] == devices[uuid].owner.value
      ensures |ids| == 1 + (if devices[uuid].inviteEnable.value then |order| else 0)
      ensures forall k :: 0 < k < |ids| ==> ids[k] == invites[order[k - 1]].receiver
      ensures forall uid :: uid in ids <==> BackendVoice.Compared(View(), uuid, uid, now)
    {
      BackendVoice.PlacesInTheList(View(), uuid, order);
      forall uid ensures uid in VoiceUsers(View(), uuid, order) <==> BackendVoice.Compared(View(), uuid, uid, now) {
        BackendVoice.ListIsComplete(View(), uuid, now, order, uid);
      }
      ids, embeddings := [], [];
      var owner := devices[uuid].owner.value;
      embeddings := embeddings + [users[owner].voice.value];
      ids := ids + [owner];
      if devices[uuid].inviteEnable.value {
        for k := 0 to |order|
          invariant |ids| == k + 1 && ids[0] == owner
          invariant forall m :: 0 <= m < k ==> order[m] in invites && ids[m + 1] == invites[order[m]].receiver
          invariant Aligned(View(), ids, embeddings)
        {
          assert order[k] in order;
          var row := invites[order[k]];
          embeddings := embeddings + [users[row.receiver].voice.value];
          ids := ids + [row.receiver];
        }
        assert ids == VoiceUsers(View(), uuid, order);
      }
    }

    method VerifyVoice(path: Path, bearer: string, order: seq<nat>, audioEmpty: bool,
                       score: Option<Embedding -> real>, now: nat) returns (response: Response)
      requires Possible(View(), Request.VerifyVoice(path, bearer, order, audioEmpty, score), now)
      modifies this`recent
      ensures Reply(View(), response) == DoVerifyVoice(old(View()), path, bearer, order, audioEmpty, score, now)
      ensures BackendVoice.Answers(old(View()), path, bearer, order, audioEmpty, score, now, Reply(View(), response))
    {
      BackendVoice.VoiceReply(View(), path, bearer, order, audioEmpty, score, now);
      if path.uuid.None? {
        return BadRequest;
      }
      var uuid := path.uuid.value;
      if uuid !in devices || devices[uuid].owner.None? || devices[uuid].inviteEnable.None? || devices[uuid].threshold.None? {
        return BadRequest;
      }
      var row := devices[uuid];
      if row.passphrase != Some(bearer) {
        return Unauthorized;
      }
      if row.owner.value !in users || users[row.owner.value].voice.None? {
        return BadRequest;
      }
      var ids, embeddings := CollectVoices(uuid, order, now);
      if |embeddings| == 0 || audioEmpty {
        return BadRequest;
      }
      response := CompareVoices(path, order, ids, embeddings, score, now);
    }

    // The call of the voice service, and what becomes of its answer.
    method CompareVoices(path: Path, ghost order: seq<nat>, ids: seq<Uid>, embeddings: seq<Embedding>,
                         score: Option<Embedding -> real>, now: nat) returns (response: Response)
      requires path.uuid.Some? && VoiceReady(View(), path.uuid.value) && forall id :: id in order ==> id in invites
      requires ids == VoiceUsers(View(), path.uuid.value, order) && Aligned(View(), ids, embeddings)
      modifies this`recent
      ensures Reply(View(), response) == DoCompareVoices(old(View()), path, order, score, now)
    {
      if score.None? {
        return ServerError;
      }
      var scores := seq(|embeddings|, k requires 0 <= k < |embeddings| => score.value(embeddings[k]));
      assert scores == Scores(View(), ids, score.value);
      var best := Verify(scores);
      if best.index < 0 {
        return ServerError;
      }
      if best.score > devices[path.uuid.value].threshold.value && best.index < |ids| {
        recent := recent[path.raw := Command(ids[best.index], Seconds(now))];
        return Matched(best.index);
      }
      return Forbidden;
    }

    // ---- mqtt.rs ----

    method HandleHeartbeat(path: Path, uid: Uid, now: nat)
      modifies this`devices
      ensures View() == DoHeartbeat(old(View()), path, uid, now).tables
      ensures path.uuid.None? ==> View() == old(View())
      ensures path.uuid.Some? ==>
        var uuid := path.uuid.value;
        && devices.Keys == old(devices).Keys + {uuid} && devices[uuid].owner == Some(uid)
        && (forall other :: other in old(devices) && other != uuid ==> devices[other] == old(devices)[other])
        && (devices[uuid].lockedDownAt.Some? <==>
              && uuid in old(devices) && old(devices)[uuid].lockedDownAt.Some?
              && now < old(devices)[uuid].lockedDownAt.value + 10_000)
        && (uuid !in old(devices) ==> devices[uuid] == Device(Some(uid), None, Some(true), Some(0.60), None))
        && (uuid in old(devices) ==>
              && devices[uuid] == old(devices)[uuid].(owner := Some(uid), lockedDownAt := devices[uuid].lockedDownAt)
              && (devices[uuid].lockedDownAt.Some? ==> devices[uuid].lockedDownAt == old(devices)[uuid].lockedDownAt))
    {
      if path.uuid.Some? {
        var uuid := path.uuid.value;
        var shouldClear := false;
        if uuid in devices && devices[uuid].lockedDownAt.Some? {
          shouldClear := now - devices[uuid].lockedDownAt.value >= 10_000;
        }
        if uuid !in devices {
          devices := devices[uuid := Device(Some(uid), None, Some(true), Some(0.60), None)];
        } else if shouldClear {
          devices := devices[uuid := devices[uuid].(owner := Some(uid), lockedDownAt := None)];
        } else {
          devices := devices[uuid := devices[uuid].(owner := Some(uid))];
        }
      }
    }

    // The hourly clean-up of main.rs.
    method CleanLogTable(now: nat)
      modifies this`logs
      ensures View() == DoCleanLogs(old(View()), now).tables
      ensures forall log :: log in logs <==> log in old(logs) && now - log.seconds * 1000 <= 30 * 24 * 60 * 60 * 1000
    {
      logs := Keep(logs, Since(now - 30 * DAY_MS));
    }

    method HandleLockingDown(path: Path, seconds: int)
      modifies this`devices
      ensures View() == DoLockingDown(old(View()), path, seconds).tables
      ensures devices.Keys == old(devices).Keys
      ensures forall uuid :: uuid in devices ==>
        devices[uuid] == if path.uuid == Some(uuid) then old(devices)[uuid].(lockedDownAt := Some(seconds * 1000))
                         else old(devices)[uuid]
    {
      if path.uuid.Some? && path.uuid.value in devices {
        devices := devices[path.uuid.value := devices[path.uuid.value].(lockedDownAt := Some(seconds * 1000))];
      }
    }

    method HandleLockEvent(path: Path, locked: bool, reason: string, seconds: int, now: nat)
      modifies this`recent, this`logs
      ensures View() == DoLockEvent(old(View()), path, locked, reason, seconds, now).tables
      ensures path.uuid.None? ==> View() == old(View())
      ensures path.uuid.Some? ==>
        var known := path.raw in old(recent) && now / 1000 - old(recent)[path.raw].seconds < 5;
        && logs == old(logs) + [Log(path.raw, seconds, locked, reason,
                                    if known then Some(old(recent)[path.raw].user) else None)]
        && recent == if known then old(recent) - {path.raw} else old(recent)
    {
      if path.uuid.Some? {
        var user := None;
        if path.raw in recent {
          var command := recent[path.raw];
          if Seconds(now) - command.seconds < 5 {
            user := Some(command.user);
            recent := recent - {path.raw};
          }
        }
        logs := logs + [Log(path.raw, seconds, locked, reason, user)];
      }
    }
  }
}
