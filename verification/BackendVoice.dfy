// Whose voice opens a device, told from the tables: everyone who may be compared stands in
// the list that is sent, and nobody else.
module BackendVoice {
  import opened Wrappers
  import opened VoiceMatch
  import opened Backend

  // An invite by which a user may operate a device at a time.
  predicate Admits(t: Tables, id: nat, uuid: Uuid, uid: Uid, now: int) {
    && id in t.invites
    && t.invites[id].device == uuid && t.invites[id].receiver == uid
    && t.invites[id].accepted && t.invites[id].expiry > now
  }

  // The user has a voice, and is the owner or, when invites are enabled, admitted.
  predicate Compared(t: Tables, uuid: Uuid, uid: Uid, now: int) {
    && uuid in t.devices && uid in t.users && t.users[uid].voice.Some?
    && (|| t.devices[uuid].owner == Some(uid)
        || (t.devices[uuid].inviteEnable == Some(true) && exists id :: id in t.invites && Admits(t, id, uuid, uid, now)))
  }

  // Some compared voice scores above the threshold and above the -1.0 the search starts from.
  predicate SomeVoiceScores(t: Tables, uuid: Uuid, score: Embedding -> real, threshold: real, now: int) {
    exists uid :: uid in t.users && Compared(t, uuid, uid, now)
               && score(t.users[uid].voice.value) > threshold && score(t.users[uid].voice.value) > -1.0
  }

  // One place for the owner, and with invites enabled one for each row of the query.
  lemma PlacesInTheList(t: Tables, uuid: Uuid, order: seq<nat>)
    requires VoiceReady(t, uuid) && forall id :: id in order ==> id in t.invites
    ensures var users, row := VoiceUsers(t, uuid, order), t.devices[uuid];
      && |users| == 1 + (if row.inviteEnable.value then |order| else 0)
      && users[0] == row.owner.value
      && forall k :: 0 < k < |users| ==> users[k] == t.invites[order[k - 1]].receiver
  {
  }

  lemma ListedIsCompared(t: Tables, uuid: Uuid, now: int, order: seq<nat>, k: nat)
    requires VoiceReady(t, uuid) && IsVoiceQuery(t, uuid, now, order) && VoiceOf(t, t.devices[uuid].owner.value).Some?
    requires k < |VoiceUsers(t, uuid, order)|
    ensures Compared(t, uuid, VoiceUsers(t, uuid, order)[k], now)
  {
    if k > 0 {
      assert order[k - 1] in order;
      assert Admits(t, order[k - 1], uuid, VoiceUsers(t, uuid, order)[k], now);
    }
  }

  lemma ComparedIsListed(t: Tables, uuid: Uuid, now: int, order: seq<nat>, uid: Uid) returns (k: nat)
    requires VoiceReady(t, uuid) && IsVoiceQuery(t, uuid, now, order) && Compared(t, uuid, uid, now)
    ensures k < |VoiceUsers(t, uuid, order)| && VoiceUsers(t, uuid, order)[k] == uid
  {
    k := 0;
    if t.devices[uuid].owner != Some(uid) {
      var id :| id in t.invites && Admits(t, id, uuid, uid, now);
      assert id in order;
      var n :| 0 <= n < |order| && order[n] == id;
      k := n + 1;
    }
  }

  // The list holds exactly the users who may be compared.
  lemma ListIsComplete(t: Tables, uuid: Uuid, now: int, order: seq<nat>, uid: Uid)
    requires VoiceReady(t, uuid) && IsVoiceQuery(t, uuid, now, order) && VoiceOf(t, t.devices[uuid].owner.value).Some?
    ensures uid in VoiceUsers(t, uuid, order) <==> Compared(t, uuid, uid, now)
  {
    var users := VoiceUsers(t, uuid, order);
    if k: nat :| k < |users| && users[k] == uid {
      ListedIsCompared(t, uuid, now, order, k);
    }
    if Compared(t, uuid, uid, now) {
      var k := ComparedIsListed(t, uuid, now, order, uid);
    }
  }

  lemma ScoresHold(t: Tables, uuid: Uuid, now: int, order: seq<nat>, score: Embedding -> real, k: nat)
    requires VoiceReady(t, uuid) && IsVoiceQuery(t, uuid, now, order) && VoiceOf(t, t.devices[uuid].owner.value).Some?
    requires k < |VoiceUsers(t, uuid, order)|
    ensures var uid := VoiceUsers(t, uuid, order)[k];
      && Compared(t, uuid, uid, now)
      && Scores(t, VoiceUsers(t, uuid, order), score)[k] == score(t.users[uid].voice.value)
  {
    ListedIsCompared(t, uuid, now, order, k);
  }

  // Some entry of the list scores high enough exactly if some voice that may be compared does.
  lemma BestIsHighEnough(t: Tables, uuid: Uuid, now: int, order: seq<nat>, score: Embedding -> real, threshold: real)
    requires VoiceReady(t, uuid) && IsVoiceQuery(t, uuid, now, order) && VoiceOf(t, t.devices[uuid].owner.value).Some?
    ensures var best := BestOf(Scores(t, VoiceUsers(t, uuid, order), score));
      best.index >= 0 && best.score > threshold <==> SomeVoiceScores(t, uuid, score, threshold, now)
  {
    var users := VoiceUsers(t, uuid, order);
    var scores := Scores(t, users, score);
    var best := BestOf(scores);
    if best.index >= 0 { ScoresHold(t, uuid, now, order, score, best.index); }
    if uid :| Compared(t, uuid, uid, now) && score(t.users[uid].voice.value) > threshold && score(t.users[uid].voice.value) > -1.0 {
      var k := ComparedIsListed(t, uuid, now, order, uid);
      assert scores[k] == score(t.users[uid].voice.value);
    }
  }

  // The request passes every check that comes before the voices are compared.
  predicate Asks(t: Tables, path: Path, bearer: string, audioEmpty: bool) {
    && path.uuid.Some? && path.uuid.value in t.devices && !audioEmpty
    && var row := t.devices[path.uuid.value];
       && row.inviteEnable.Some? && row.threshold.Some? && row.passphrase == Some(bearer)
       && row.owner.Some? && row.owner.value in t.users && t.users[row.owner.value].voice.Some?
  }

  // The user at a place of the list.
  function At(t: Tables, uuid: Uuid, order: seq<nat>, k: nat): Uid
    requires uuid in t.devices && t.devices[uuid].owner.Some? && k <= |order|
    requires k > 0 ==> order[k - 1] in t.invites
  {
    if k == 0 then t.devices[uuid].owner.value else t.invites[order[k - 1]].receiver
  }

  // User `k` of the list is the first whom nobody who may be compared outscores.
  predicate IsFirstBest(t: Tables, uuid: Uuid, order: seq<nat>, score: Embedding -> real, k: nat, now: int)
    requires uuid in t.devices && t.devices[uuid].owner.Some? && k <= |order|
    requires forall id :: id in order ==> id in t.invites
  {
    && var uid := At(t, uuid, order, k);
    && Compared(t, uuid, uid, now)
    && (forall other :: other in t.users && Compared(t, uuid, other, now) ==>
          score(t.users[other].voice.value) <= score(t.users[uid].voice.value))
    && (forall j :: 0 <= j < k ==>
          var before := At(t, uuid, order, j);
          Compared(t, uuid, before, now) && score(t.users[before].voice.value) < score(t.users[uid].voice.value))
  }

  lemma FirstMaximumIsFirstBest(t: Tables, uuid: Uuid, now: int, order: seq<nat>, score: Embedding -> real, k: nat)
    requires VoiceReady(t, uuid) && IsVoiceQuery(t, uuid, now, order) && VoiceOf(t, t.devices[uuid].owner.value).Some?
    requires IsFirstMaximum(Scores(t, VoiceUsers(t, uuid, order), score), k)
    ensures k <= |order| && IsFirstBest(t, uuid, order, score, k, now)
  {
    var users := VoiceUsers(t, uuid, order);
    PlacesInTheList(t, uuid, order);
    ScoresHold(t, uuid, now, order, score, k);
    forall other | other in t.users && Compared(t, uuid, other, now)
      ensures score(t.users[other].voice.value) <= score(t.users[users[k]].voice.value)
    {
      var j := ComparedIsListed(t, uuid, now, order, other);
      ScoresHold(t, uuid, now, order, score, j);
    }
    forall j | 0 <= j < k
      ensures At(t, uuid, order, j) == users[j] && Compared(t, uuid, users[j], now)
      ensures score(t.users[users[j]].voice.value) < score(t.users[users[k]].voice.value)
    {
      ScoresHold(t, uuid, now, order, score, j);
    }
  }

  // The whole answer. A voice is matched if and only if the request passes the checks and
  // the owner's voice or, with invites enabled, that of some admitted user scores high
  // enough; the user remembered is then the first in the list whom nobody outscores.
  predicate Answers(t: Tables, path: Path, bearer: string, order: seq<nat>, audioEmpty: bool,
                    score: Option<Embedding -> real>, now: nat, reply: Reply)
    requires forall id :: id in order ==> id in t.invites
  {
    var response := reply.response;
    && (response.Matched? <==>
          && Asks(t, path, bearer, audioEmpty) && score.Some?
          && SomeVoiceScores(t, path.uuid.value, score.value, t.devices[path.uuid.value].threshold.value, now))
    && (response.Matched? ==>
          && 0 <= response.index <= |order|
          && IsFirstBest(t, path.uuid.value, order, score.value, response.index, now)
          && reply.tables == t.(recent :=
               t.recent[path.raw := Command(At(t, path.uuid.value, order, response.index), now / 1000)]))
    && (!response.Matched? ==> reply.tables == t)
    && (response == Unauthorized <==>
          && path.uuid.Some? && path.uuid.value in t.devices
          && var row := t.devices[path.uuid.value];
             row.owner.Some? && row.inviteEnable.Some? && row.threshold.Some? && row.passphrase != Some(bearer))
    && (if Asks(t, path, bearer, audioEmpty) then
          || response.Matched?
          || response == (if score.None? || !SomeVoiceScores(t, path.uuid.value, score.value, -1.0, now) then ServerError
                          else Forbidden)
        else response == BadRequest || response == Unauthorized)
  }

  lemma MatchedIff(t: Tables, path: Path, bearer: string, order: seq<nat>, audioEmpty: bool,
                   score: Option<Embedding -> real>, now: nat)
    requires Possible(t, VerifyVoice(path, bearer, order, audioEmpty, score), now) && Asks(t, path, bearer, audioEmpty)
    ensures var response := DoVerifyVoice(t, path, bearer, order, audioEmpty, score, now).response;
      && (response.Matched? <==>
            score.Some? && SomeVoiceScores(t, path.uuid.value, score.value, t.devices[path.uuid.value].threshold.value, now))
      && (!response.Matched? ==>
            response == (if score.None? || !SomeVoiceScores(t, path.uuid.value, score.value, -1.0, now) then ServerError
                         else Forbidden))
  {
    if score.Some? {
      BestIsHighEnough(t, path.uuid.value, now, order, score.value, t.devices[path.uuid.value].threshold.value);
      BestIsHighEnough(t, path.uuid.value, now, order, score.value, -1.0);
    }
  }

  lemma WhoIsMatched(t: Tables, path: Path, bearer: string, order: seq<nat>, audioEmpty: bool,
                     score: Option<Embedding -> real>, now: nat)
    requires Possible(t, VerifyVoice(path, bearer, order, audioEmpty, score), now)
    requires DoVerifyVoice(t, path, bearer, order, audioEmpty, score, now).response.Matched?
    ensures var reply := DoVerifyVoice(t, path, bearer, order, audioEmpty, score, now); var k := reply.response.index;
      && Asks(t, path, bearer, audioEmpty) && score.Some? && 0 <= k <= |order|
      && IsFirstBest(t, path.uuid.value, order, score.value, k, now)
      && reply.tables == t.(recent := t.recent[path.raw := Command(At(t, path.uuid.value, order, k), now / 1000)])
  {
    var uuid, k := path.uuid.value, DoVerifyVoice(t, path, bearer, order, audioEmpty, score, now).response.index;
    assert IsFirstMaximum(Scores(t, VoiceUsers(t, uuid, order), score.value), k);
    FirstMaximumIsFirstBest(t, uuid, now, order, score.value, k);
    PlacesInTheList(t, uuid, order);
  }

  lemma TurnedAway(t: Tables, path: Path, bearer: string, order: seq<nat>, audioEmpty: bool,
                   score: Option<Embedding -> real>, now: nat)
    requires Possible(t, VerifyVoice(path, bearer, order, audioEmpty, score), now)
    ensures var reply := DoVerifyVoice(t, path, bearer, order, audioEmpty, score, now);
      && (!reply.response.Matched? ==> reply.tables == t)
      && (reply.response == Unauthorized <==>
            && path.uuid.Some? && path.uuid.value in t.devices
            && var row := t.devices[path.uuid.value];
               row.owner.Some? && row.inviteEnable.Some? && row.threshold.Some? && row.passphrase != Some(bearer))
      && (!Asks(t, path, bearer, audioEmpty) ==> reply.response == BadRequest || reply.response == Unauthorized)
  {
  }

  lemma VoiceReply(t: Tables, path: Path, bearer: string, order: seq<nat>, audioEmpty: bool,
                   score: Option<Embedding -> real>, now: nat)
    requires Possible(t, VerifyVoice(path, bearer, order, audioEmpty, score), now)
    ensures Answers(t, path, bearer, order, audioEmpty, score, now, DoVerifyVoice(t, path, bearer, order, audioEmpty, score, now))
  {
    TurnedAway(t, path, bearer, order, audioEmpty, score, now);
    if Asks(t, path, bearer, audioEmpty) {
      MatchedIff(t, path, bearer, order, audioEmpty, score, now);
      if DoVerifyVoice(t, path, bearer, order, audioEmpty, score, now).response.Matched? {
        WhoIsMatched(t, path, bearer, order, audioEmpty, score, now);
      }
    }
  }
}
