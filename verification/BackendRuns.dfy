// What every run of the back end keeps: the invite table, ownership, and the attribution
// of lock events to users.
module BackendRuns {
  import opened Wrappers
  import opened VoiceMatch
  import opened Backend

  datatype Step = Step(request: Request, now: nat)

  // The tables before each step and after the last, from empty tables, with a clock that
  // does not go backwards.
  predicate IsRun(ts: seq<Tables>, es: seq<Step>) {
    && |ts| == |es| + 1
    && ts[0] == EMPTY
    && (forall i {:trigger es[i]} :: 0 <= i < |es| ==>
          Possible(ts[i], es[i].request, es[i].now) && ts[i + 1] == Respond(ts[i], es[i].request, es[i].now).tables)
    && (forall i, j :: 0 <= i <= j < |es| ==> es[i].now <= es[j].now)
  }

  function ResponseAt(ts: seq<Tables>, es: seq<Step>, i: nat): Response
    requires IsRun(ts, es) && i < |es|
  {
    Respond(ts[i], es[i].request, es[i].now).response
  }

  // ---- The invite table ----

  // Identifiers below the next one; device, sender, receiver and token holder exist.
  predicate Referential(t: Tables) {
    && (forall id :: id in t.invites ==>
          && id < t.nextId
          && t.invites[id].device in t.devices
          && t.invites[id].sender in t.users
          && t.invites[id].receiver in t.users)
    && (forall token :: token in t.tokens ==> t.tokens[token] in t.users)
  }

  // At most one pending invite per device and receiver.
  predicate OnePending(t: Tables) {
    forall a, b :: a in t.invites && b in t.invites && a != b && !t.invites[a].accepted && !t.invites[b].accepted ==>
      t.invites[a].device != t.invites[b].device || t.invites[a].receiver != t.invites[b].receiver
  }

  // The requests that may change the invite table.
  predicate TouchesInvites(r: Request) {
    || r.DeleteAccount? || r.RegisterDevice? || r.Unpair? || r.CreateInvite?
    || r.AcceptInvite? || r.RejectInvite? || r.CancelInvite? || r.UpdateInvite?
  }

  lemma InvitesUntouched(t: Tables, r: Request, now: nat)
    requires Possible(t, r, now) && !TouchesInvites(r)
    ensures Respond(t, r, now).tables.invites == t.invites && Respond(t, r, now).tables.nextId == t.nextId
  {
  }

  lemma TouchReferential(t: Tables, r: Request, now: nat)
    requires Possible(t, r, now) && Referential(t) && TouchesInvites(r)
    ensures Referential(Respond(t, r, now).tables)
  {
  }

  // Other requests only add users, devices and tokens of existing users.
  lemma RowsStay(t: Tables, r: Request, now: nat)
    requires Possible(t, r, now) && !TouchesInvites(r)
    ensures t.devices.Keys <= Respond(t, r, now).tables.devices.Keys
    ensures t.users.Keys <= Respond(t, r, now).tables.users.Keys
  {
  }

  lemma StepReferential(t: Tables, r: Request, now: nat)
    requires Possible(t, r, now) && Referential(t)
    ensures Referential(Respond(t, r, now).tables)
  {
    if TouchesInvites(r) {
      TouchReferential(t, r, now);
    } else {
      InvitesUntouched(t, r, now);
      RowsStay(t, r, now);
    }
  }

  lemma StepOnePending(t: Tables, r: Request, now: nat)
    requires Possible(t, r, now) && OnePending(t)
    ensures OnePending(Respond(t, r, now).tables)
  {
    if !TouchesInvites(r) { InvitesUntouched(t, r, now); }
  }

  lemma {:induction false} InviteTable(ts: seq<Tables>, es: seq<Step>, n: nat)
    requires IsRun(ts, es) && n <= |es|
    ensures Referential(ts[n]) && OnePending(ts[n])
  {
    if n > 0 {
      InviteTable(ts, es, n - 1);
      StepReferential(ts[n - 1], es[n - 1].request, es[n - 1].now);
      StepOnePending(ts[n - 1], es[n - 1].request, es[n - 1].now);
    }
  }

  // How an invite table may change: rows vanish or are accepted; what they name is fixed;
  // new rows have new identifiers.
  predicate Evolves(a: Tables, b: Tables) {
    && a.nextId <= b.nextId
    && forall id :: id in b.invites && id < a.nextId ==>
         && id in a.invites
         && a.invites[id].device == b.invites[id].device
         && a.invites[id].sender == b.invites[id].sender
         && a.invites[id].receiver == b.invites[id].receiver
         && (a.invites[id].accepted ==> b.invites[id].accepted)
  }

  lemma ActiveEvolves(t: Tables, r: Request, now: nat)
    requires Possible(t, r, now) && (r.CreateInvite? || r.UpdateInvite?)
    ensures Evolves(t, Respond(t, r, now).tables)
  {
  }

  lemma RemovalEvolves(t: Tables, r: Request, now: nat)
    requires Possible(t, r, now) && (r.DeleteAccount? || r.RegisterDevice? || r.Unpair?)
    ensures Evolves(t, Respond(t, r, now).tables)
  {
  }

  lemma TouchEvolves(t: Tables, r: Request, now: nat)
    requires Possible(t, r, now) && TouchesInvites(r)
    ensures Evolves(t, Respond(t, r, now).tables)
  {
    if r.CreateInvite? || r.UpdateInvite? {
      ActiveEvolves(t, r, now);
    } else if r.DeleteAccount? || r.RegisterDevice? || r.Unpair? {
      RemovalEvolves(t, r, now);
    }
  }

  lemma StepEvolves(t: Tables, r: Request, now: nat)
    requires Possible(t, r, now)
    ensures Evolves(t, Respond(t, r, now).tables)
  {
    if TouchesInvites(r) {
      TouchEvolves(t, r, now);
    } else {
      InvitesUntouched(t, r, now);
    }
  }

  lemma EvolvesOn(a: Tables, b: Tables, c: Tables)
    requires Evolves(a, b) && Evolves(b, c)
    ensures Evolves(a, c)
  {
  }

  lemma RunEvolves(ts: seq<Tables>, es: seq<Step>, i: nat)
    requires IsRun(ts, es) && i < |es|
    ensures Evolves(ts[i], ts[i + 1])
  {
    StepEvolves(ts[i], es[i].request, es[i].now);
  }

  // Along every run, for every two moments: no identifier is used again, a row that is
  // gone stays gone, and no status goes back.
  lemma {:induction false} InvitesOnlyAdvance(ts: seq<Tables>, es: seq<Step>, i: nat, j: nat)
    requires IsRun(ts, es) && i <= j <= |es|
    ensures Evolves(ts[i], ts[j])
    decreases j
  {
    if i < j {
      InvitesOnlyAdvance(ts, es, i, j - 1);
      RunEvolves(ts, es, j - 1);
      EvolvesOn(ts[i], ts[j - 1], ts[j]);
    }
  }

  predicate IsAccept(t: Tables, r: Request, now: nat, id: nat)
    requires Possible(t, r, now)
  {
    r.AcceptInvite? && r.id == id && Respond(t, r, now).response == Done
  }

  predicate Accepts(ts: seq<Tables>, es: seq<Step>, i: nat, id: nat)
    requires IsRun(ts, es) && i < |es|
  {
    IsAccept(ts[i], es[i].request, es[i].now, id)
  }

  lemma NotAcceptedAgain(ts: seq<Tables>, es: seq<Step>, i: nat, j: nat, id: nat)
    requires IsRun(ts, es) && i < j < |es| && Accepts(ts, es, i, id)
    ensures !Accepts(ts, es, j, id)
  {
    InviteTable(ts, es, i);
    InvitesOnlyAdvance(ts, es, i + 1, j);
    assert id < ts[i + 1].nextId && ts[i + 1].invites[id].accepted;
  }

  lemma AcceptedOnce(ts: seq<Tables>, es: seq<Step>, i: nat, j: nat, id: nat)
    requires IsRun(ts, es) && i < |es| && j < |es|
    requires Accepts(ts, es, i, id) && Accepts(ts, es, j, id)
    ensures i == j
  {
    if i < j {
      NotAcceptedAgain(ts, es, i, j, id);
    } else if j < i {
      NotAcceptedAgain(ts, es, j, i, id);
    }
  }

  predicate Creates(ts: seq<Tables>, es: seq<Step>, i: nat, id: nat)
    requires IsRun(ts, es) && i < |es|
  {
    ResponseAt(ts, es, i) == Created(id)
  }

  lemma StepIssues(t: Tables, r: Request, now: nat, id: nat)
    requires Possible(t, r, now) && Respond(t, r, now).response == Created(id)
    ensures id == t.nextId && Respond(t, r, now).tables.nextId == id + 1
  {
  }

  lemma IdsIncrease(ts: seq<Tables>, es: seq<Step>, i: nat, j: nat, a: nat, b: nat)
    requires IsRun(ts, es) && i < j < |es|
    requires Creates(ts, es, i, a) && Creates(ts, es, j, b)
    ensures a < b
  {
    StepIssues(ts[i], es[i].request, es[i].now, a);
    StepIssues(ts[j], es[j].request, es[j].now, b);
    InvitesOnlyAdvance(ts, es, i + 1, j);
  }

  // A create request that made the given row, sent by the owner of that moment.
  predicate MadeByOwner(t: Tables, r: Request, now: nat, id: nat, row: Invite)
    requires Possible(t, r, now)
  {
    && r.CreateInvite?
    && Respond(t, r, now).response == Created(id)
    && r.path.uuid == Some(row.device)
    && r.found == Some(row.receiver)
    && Authenticate(t, r.token) == Some(row.sender)
    && OwnerOf(t, row.device) == Some(row.sender)
  }

  lemma StepCreates(t: Tables, r: Request, now: nat, id: nat)
    requires Possible(t, r, now) && id in Respond(t, r, now).tables.invites
    ensures id !in t.invites ==> MadeByOwner(t, r, now, id, Respond(t, r, now).tables.invites[id])
    ensures id in t.invites ==>
      var a, b := t.invites[id], Respond(t, r, now).tables.invites[id];
      MadeByOwner(t, r, now, id, b) || (a.device == b.device && a.sender == b.sender && a.receiver == b.receiver)
  {
    if !TouchesInvites(r) { InvitesUntouched(t, r, now); }
  }

  lemma MadeAlike(t: Tables, r: Request, now: nat, id: nat, a: Invite, b: Invite)
    requires Possible(t, r, now) && MadeByOwner(t, r, now, id, a)
    requires a.device == b.device && a.sender == b.sender && a.receiver == b.receiver
    ensures MadeByOwner(t, r, now, id, b)
  {
  }

  // The step that created a row.
  lemma {:induction false} CreatedByOwner(ts: seq<Tables>, es: seq<Step>, n: nat, id: nat) returns (i: nat)
    requires IsRun(ts, es) && n <= |es| && id in ts[n].invites
    ensures i < n && Creates(ts, es, i, id)
    ensures MadeByOwner(ts[i], es[i].request, es[i].now, id, ts[n].invites[id])
  {
    StepCreates(ts[n - 1], es[n - 1].request, es[n - 1].now, id);
    if MadeByOwner(ts[n - 1], es[n - 1].request, es[n - 1].now, id, ts[n].invites[id]) {
      i := n - 1;
    } else {
      i := CreatedByOwner(ts, es, n - 1, id);
      MadeAlike(ts[i], es[i].request, es[i].now, id, ts[n - 1].invites[id], ts[n].invites[id]);
    }
  }

  // An accepted row was there before the step, accepted or being accepted by its receiver.
  lemma StepAccepts(t: Tables, r: Request, now: nat, id: nat)
    requires Possible(t, r, now) && Referential(t)
    requires id in Respond(t, r, now).tables.invites && Respond(t, r, now).tables.invites[id].accepted
    ensures id in t.invites && t.invites[id].receiver == Respond(t, r, now).tables.invites[id].receiver
    ensures t.invites[id].accepted
      || (IsAccept(t, r, now, id) && Authenticate(t, r.token) == Some(t.invites[id].receiver))
  {
    if !TouchesInvites(r) { InvitesUntouched(t, r, now); }
  }

  // The step that accepted a row, by its receiver.
  lemma {:induction false} AcceptedByReceiver(ts: seq<Tables>, es: seq<Step>, n: nat, id: nat) returns (j: nat)
    requires IsRun(ts, es) && n <= |es| && id in ts[n].invites && ts[n].invites[id].accepted
    ensures j < n && Accepts(ts, es, j, id) && id in ts[j].invites
    ensures Authenticate(ts[j], es[j].request.token) == Some(ts[n].invites[id].receiver)
  {
    InviteTable(ts, es, n - 1);
    StepAccepts(ts[n - 1], es[n - 1].request, es[n - 1].now, id);
    if ts[n - 1].invites[id].accepted {
      j := AcceptedByReceiver(ts, es, n - 1, id);
    } else {
      j := n - 1;
    }
  }

  // Access by invite has both consents behind it, in order: the owner of that moment asked
  // the user in, and the user then accepted that very invite.
  lemma GrantHasBothConsents(ts: seq<Tables>, es: seq<Step>, n: nat, uuid: Uuid, uid: Uid, now: int)
    returns (id: nat, i: nat, j: nat)
    requires IsRun(ts, es) && n <= |es| && HasInvite(ts[n], uuid, uid, now)
    ensures i < j < n && Creates(ts, es, i, id) && Accepts(ts, es, j, id)
    ensures es[i].request.CreateInvite? && es[i].request.path.uuid == Some(uuid) && es[i].request.found == Some(uid)
    ensures Authenticate(ts[i], es[i].request.token).Some?
    ensures Authenticate(ts[i], es[i].request.token) == OwnerOf(ts[i], uuid)
    ensures Authenticate(ts[j], es[j].request.token) == Some(uid)
  {
    id :| id in ts[n].invites && Grants(ts[n].invites[id], uuid, uid, now);
    i := CreatedByOwner(ts, es, n, id);
    j := AcceptedByReceiver(ts, es, n, id);
    InviteTable(ts, es, j);
    var k := CreatedByOwner(ts, es, j, id);
    if i < k {
      IdsIncrease(ts, es, i, k, id, id);
    } else if k < i {
      IdsIncrease(ts, es, k, i, id, id);
    }
  }

  // An invite made and accepted opens the device up to its expiry and not from then on,
  // whenever it is accepted.
  lemma InviteWindow(t: Tables, token: Token, path: Path, user: Uid, duration: string, now: nat,
                     other: Token, later: int)
    requires t.nextId !in t.invites
    requires DoCreateInvite(t, token, path, Some(user), duration, now).response.Created?
    requires DoAcceptInvite(DoCreateInvite(t, token, path, Some(user), duration, now).tables, other, t.nextId).response == Done
    requires !HasInvite(t, path.uuid.value, user, later)
    ensures
      var made := DoCreateInvite(t, token, path, Some(user), duration, now).tables;
      var accepted := DoAcceptInvite(made, other, t.nextId).tables;
      HasInvite(accepted, path.uuid.value, user, later) <==> later < now + Days(duration) * 24 * 60 * 60 * 1000
  {
    var made := DoCreateInvite(t, token, path, Some(user), duration, now).tables;
    var accepted := DoAcceptInvite(made, other, t.nextId).tables;
    forall id | id in accepted.invites && id != t.nextId
      ensures !Grants(accepted.invites[id], path.uuid.value, user, later)
    {
      assert accepted.invites[id] == t.invites[id];
    }
    if later < now + Days(duration) * DAY_MS {
      assert Grants(accepted.invites[t.nextId], path.uuid.value, user, later);
    }
  }

  // ---- Ownership ----

  // Every invite was sent by the current owner of its device.
  predicate SentByOwner(t: Tables) {
    forall id :: id in t.invites ==> OwnerOf(t, t.invites[id].device) == Some(t.invites[id].sender)
  }

  // A heartbeat that names another owner while invites for the device exist.
  predicate OwnerSlips(t: Tables, r: Request) {
    && r.Heartbeat?
    && r.path.uuid.Some?
    && OwnerOf(t, r.path.uuid.value) != Some(r.uid)
    && exists id :: id in t.invites && t.invites[id].device == r.path.uuid.value
  }

  lemma TouchSentByOwner(t: Tables, r: Request, now: nat)
    requires Possible(t, r, now) && Referential(t) && SentByOwner(t) && TouchesInvites(r)
    ensures SentByOwner(Respond(t, r, now).tables)
  {
  }

  // Of the other requests only a heartbeat changes an owner, and only of its device.
  lemma OwnersStay(t: Tables, r: Request, now: nat)
    requires Possible(t, r, now) && !TouchesInvites(r)
    ensures forall uuid :: OwnerOf(Respond(t, r, now).tables, uuid)
                        == if r.Heartbeat? && r.path.uuid == Some(uuid) then Some(r.uid) else OwnerOf(t, uuid)
  {
  }

  lemma StepSentByOwner(t: Tables, r: Request, now: nat)
    requires Possible(t, r, now) && Referential(t) && SentByOwner(t)
    ensures SentByOwner(Respond(t, r, now).tables) <==> !OwnerSlips(t, r)
  {
    if TouchesInvites(r) {
      TouchSentByOwner(t, r, now);
    } else {
      InvitesUntouched(t, r, now);
      OwnersStay(t, r, now);
    }
  }

  // Up to the first heartbeat that lets the owner slip, invites and owners agree; and that
  // heartbeat is the step that parts them.
  lemma {:induction false} InvitesAreTheOwners(ts: seq<Tables>, es: seq<Step>, n: nat)
    requires IsRun(ts, es) && n <= |es|
    requires forall i :: 0 <= i < n - 1 ==> !OwnerSlips(ts[i], es[i].request)
    ensures SentByOwner(ts[n]) <==> n == 0 || !OwnerSlips(ts[n - 1], es[n - 1].request)
  {
    if n > 0 {
      InvitesAreTheOwners(ts, es, n - 1);
      InviteTable(ts, es, n - 1);
      StepSentByOwner(ts[n - 1], es[n - 1].request, es[n - 1].now);
    }
  }

  // A command the temporary endpoint takes is taken by the ordinary one exactly when the
  // device has an owner; on runs without a slip it always has.
  lemma TemporaryAgainstOrdinary(t: Tables, token: Token, path: Path, userId: Uid, now: nat)
    requires DoTempControl(t, token, path, userId, now).response == Done
    ensures DoControl(t, token, path, userId, now).response == Done <==> OwnerOf(t, path.uuid.value).Some?
    ensures SentByOwner(t) ==> DoControl(t, token, path, userId, now).response == Done
  {
    var id :| id in t.invites && Grants(t.invites[id], path.uuid.value, userId, now);
  }

  // Why the guard is needed: a heartbeat hands the device to another user, who deletes the
  // account, and the old invite now opens one endpoint and not the other.
  lemma SlipSplitsTheEndpoints(t: Tables, id: nat, token: Token, other: Token, raw: string, now: nat)
    requires id in t.invites && Grants(t.invites[id], t.invites[id].device, t.invites[id].receiver, now)
    requires Authenticate(t, token) == Some(t.invites[id].receiver)
    requires Authenticate(t, other).Some?
    requires t.tokens[other] != t.invites[id].sender && t.tokens[other] != t.invites[id].receiver
    ensures
      var path, user := Path(raw, Some(t.invites[id].device)), t.invites[id].receiver;
      var left := DoDeleteAccount(DoHeartbeat(t, path, t.tokens[other], now).tables, other).tables;
      && DoTempControl(left, token, path, user, now).response == Done
      && DoControl(left, token, path, user, now).response == Unauthorized
  {
    var path, user := Path(raw, Some(t.invites[id].device)), t.invites[id].receiver;
    var left := DoDeleteAccount(DoHeartbeat(t, path, t.tokens[other], now).tables, other).tables;
    assert id in left.invites && Grants(left.invites[id], path.uuid.value, user, now);
    assert Authenticate(left, token) == Some(user);
    TemporaryAgainstOrdinary(left, token, path, user, now);
  }

  lemma Extend(ts: seq<Tables>, es: seq<Step>, r: Request, now: nat) returns (us: seq<Tables>, fs: seq<Step>)
    requires IsRun(ts, es) && Possible(ts[|es|], r, now)
    requires forall i :: 0 <= i < |es| ==> es[i].now <= now
    ensures IsRun(us, fs) && |fs| == |es| + 1 && fs[|es|] == Step(r, now)
    ensures us[..|ts|] == ts && fs[..|es|] == es
    ensures us[|fs|] == Respond(ts[|es|], r, now).tables
  {
    us, fs := ts + [Respond(ts[|es|], r, now).tables], es + [Step(r, now)];
    forall i | 0 <= i < |fs|
      ensures Possible(us[i], fs[i].request, fs[i].now) && us[i + 1] == Respond(us[i], fs[i].request, fs[i].now).tables
    {
      if i < |es| {
        assert us[i] == ts[i] && us[i + 1] == ts[i + 1] && fs[i] == es[i];
      }
    }
  }

  lemma Then(ts: seq<Tables>, es: seq<Step>, r: Request) returns (us: seq<Tables>, fs: seq<Step>)
    requires IsRun(ts, es) && Possible(ts[|es|], r, 0) && forall i :: 0 <= i < |es| ==> es[i].now == 0
    ensures IsRun(us, fs) && us[|fs|] == Respond(ts[|es|], r, 0).tables
    ensures forall i :: 0 <= i < |fs| ==> fs[i].now == 0
  {
    us, fs := Extend(ts, es, r, 0);
  }

  // A user registers and logs in.
  lemma Joins(ts: seq<Tables>, es: seq<Step>, uid: Uid, token: Token) returns (us: seq<Tables>, fs: seq<Step>)
    requires IsRun(ts, es) && forall i :: 0 <= i < |es| ==> es[i].now == 0
    requires uid !in ts[|es|].users && uid !in ts[|es|].tokens.Values && token !in ts[|es|].tokens
    ensures IsRun(us, fs) && forall i :: 0 <= i < |fs| ==> fs[i].now == 0
    ensures us[|fs|] == ts[|es|].(users := ts[|es|].users[uid := User(uid, None)], tokens := ts[|es|].tokens[token := uid])
  {
    us, fs := Then(ts, es, RegisterUser(uid, uid));
    us, fs := Then(us, fs, Login(uid, true, token));
    assert TokensWithout(ts[|es|].tokens, uid) == ts[|es|].tokens;
  }

  lemma ReachJoined(s: Uid, r: Uid, x: Uid) returns (ts: seq<Tables>, es: seq<Step>)
    requires s != r && s != x && r != x
    ensures IsRun(ts, es) && forall i :: 0 <= i < |es| ==> es[i].now == 0
    ensures ts[|es|] == EMPTY.(users := map[s := User(s, None), r := User(r, None), x := User(x, None)],
                               tokens := map["1" := s, "2" := r, "3" := x])
  {
    ts, es := [EMPTY], [];
    ts, es := Joins(ts, es, s, "1");
    ts, es := Joins(ts, es, r, "2");
    ts, es := Joins(ts, es, x, "3");
  }

  // Three users join, the first registers the device and invites the second, who accepts.
  lemma ReachInvited(s: Uid, r: Uid, x: Uid, uuid: Uuid) returns (ts: seq<Tables>, es: seq<Step>)
    requires s != r && s != x && r != x
    ensures IsRun(ts, es) && forall i :: 0 <= i < |es| ==> es[i].now == 0
    ensures ts[|es|].tokens == map["1" := s, "2" := r, "3" := x]
    ensures ts[|es|].invites == map[0 := Invite(uuid, s, r, true, Expiry(0, "2_dias"))]
  {
    var path := Path(uuid, Some(uuid));
    ts, es := ReachJoined(s, r, x);
    ts, es := Then(ts, es, RegisterDevice(path, s, ""));
    ts, es := Then(ts, es, CreateInvite("1", path, r, Some(r), "2_dias"));
    ts, es := Then(ts, es, AcceptInvite("2", 0));
  }

  // The split is not a matter of unreachable tables: some run leads there.
  lemma SplitIsReachable(s: Uid, r: Uid, x: Uid, uuid: Uuid) returns (ts: seq<Tables>, es: seq<Step>)
    requires s != r && s != x && r != x
    ensures IsRun(ts, es)
    ensures DoTempControl(ts[|es|], "2", Path(uuid, Some(uuid)), r, 0).response == Done
    ensures DoControl(ts[|es|], "2", Path(uuid, Some(uuid)), r, 0).response == Unauthorized
  {
    ts, es := ReachInvited(s, r, x, uuid);
    SlipSplitsTheEndpoints(ts[|es|], 0, "2", "3", uuid, 0);
    ts, es := Then(ts, es, Heartbeat(Path(uuid, Some(uuid)), x));
    ts, es := Then(ts, es, DeleteAccount("3"));
  }
}
