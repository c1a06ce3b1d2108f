// Who a lock event is attributed to, over whole runs of the back end: the map of recent
// commands against the history of requests that registered in it.
module BackendAttribution {
  import opened Wrappers
  import opened VoiceMatch
  import opened Backend
  import opened BackendRuns
  import opened Histories

  // What a step does to the map of recent commands: a user is remembered under a key, an
  // entry is used up by the log that names its user, or nothing.
  datatype Mark = Register(key: string, user: Uid, seconds: int) | Spend(key: string, user: Uid, seconds: int) | Idle

  // The ordinary endpoint registers under the canonical spelling of the device, the other
  // two under the spelling of the caller.
  function MarkOf(t: Tables, r: Request, now: nat): Mark
    requires Possible(t, r, now)
  {
    match r
    case Control(_, path, userId) =>
      if Respond(t, r, now).response == Done then Register(path.uuid.value, userId, Seconds(now)) else Idle
    case TempControl(_, path, userId) =>
      if Respond(t, r, now).response == Done then Register(path.raw, userId, Seconds(now)) else Idle
    case VerifyVoice(path, _, order, _, _) =>
      var response := Respond(t, r, now).response;
      if response.Matched? then
        Register(path.raw, VoiceUsers(t, path.uuid.value, order)[response.index], Seconds(now))
      else Idle
    case LockEvent(path, _, _, _) =>
      if NamedUser(t, r, now).Some? then Spend(path.raw, NamedUser(t, r, now).value, Seconds(now)) else Idle
    case _ => Idle
  }

  // The device a request or a message is about.
  function PathOf(r: Request): Option<Path> {
    match r
    case Control(_, path, _) => Some(path)
    case TempControl(_, path, _) => Some(path)
    case VerifyVoice(path, _, _, _, _) => Some(path)
    case LockEvent(path, _, _, _) => Some(path)
    case _ => None
  }

  // The owner, or the holder of an accepted invite that has not expired.
  predicate MayOperate(t: Tables, uuid: Uuid, uid: Uid, now: int) {
    OwnerOf(t, uuid) == Some(uid) || HasInvite(t, uuid, uid, now)
  }

  predicate IsLog(r: Request) { r.LockEvent? && r.path.uuid.Some? }

  // The user named in the log a message leaves.
  function NamedUser(t: Tables, r: Request, now: nat): Option<Uid> {
    if IsLog(r) then Attributed(t, r.path.raw, now) else None
  }

  function Remembered(recent: map<string, Command>, mark: Mark): map<string, Command> {
    match mark
    case Register(key, user, seconds) => recent[key := Command(user, seconds)]
    case Spend(key, _, _) => recent - {key}
    case Idle => recent
  }

  // Requests that leave the map alone.
  predicate IsQuiet(r: Request) { !r.Control? && !r.TempControl? && !r.VerifyVoice? && !r.LockEvent? }

  lemma QuietRecent(t: Tables, r: Request, now: nat)
    requires Possible(t, r, now) && IsQuiet(r)
    ensures Respond(t, r, now).tables.recent == t.recent
  {
  }

  lemma VoiceRecent(t: Tables, r: Request, now: nat)
    requires Possible(t, r, now) && r.VerifyVoice?
    ensures Respond(t, r, now).tables.recent == Remembered(t.recent, MarkOf(t, r, now))
  {
  }

  lemma BusyRecent(t: Tables, r: Request, now: nat)
    requires Possible(t, r, now) && !IsQuiet(r) && !r.VerifyVoice?
    ensures Respond(t, r, now).tables.recent == Remembered(t.recent, MarkOf(t, r, now))
  {
  }

  // The marks are the whole story: no other step touches the map.
  lemma StepRecent(t: Tables, r: Request, now: nat)
    requires Possible(t, r, now)
    ensures Respond(t, r, now).tables.recent == Remembered(t.recent, MarkOf(t, r, now))
  {
    if IsQuiet(r) {
      QuietRecent(t, r, now);
    } else if r.VerifyVoice? {
      VoiceRecent(t, r, now);
    } else {
      BusyRecent(t, r, now);
    }
  }

  // Everyone whose voice is compared may operate the device: the owner stands first, the
  // others hold an invite and are only there when invites are enabled.
  lemma CandidatesMayOperate(t: Tables, uuid: Uuid, now: int, order: seq<nat>, i: nat)
    requires VoiceReady(t, uuid) && IsVoiceQuery(t, uuid, now, order) && i < |VoiceUsers(t, uuid, order)|
    ensures MayOperate(t, uuid, VoiceUsers(t, uuid, order)[i], now)
    ensures i == 0 ==> OwnerOf(t, uuid) == Some(VoiceUsers(t, uuid, order)[0])
    ensures i > 0 ==> t.devices[uuid].inviteEnable == Some(true) && HasInvite(t, uuid, VoiceUsers(t, uuid, order)[i], now)
    ensures i > 0 ==> VoiceOf(t, VoiceUsers(t, uuid, order)[i]).Some?
  {
    if i > 0 {
      assert order[i - 1] in order;
      assert Grants(t.invites[order[i - 1]], uuid, VoiceUsers(t, uuid, order)[i], now);
    }
  }

  // When a voice is matched, and whose: the checks of the handler pass and some candidate
  // scores above both the threshold of the device and the -1.0 the search starts from; the
  // answer is then the first candidate nobody outscores.
  lemma VoiceAnswer(t: Tables, path: Path, bearer: string, order: seq<nat>, audioEmpty: bool,
                    score: Option<Embedding -> real>, now: nat)
    requires Possible(t, VerifyVoice(path, bearer, order, audioEmpty, score), now)
    requires path.uuid.Some? && VoiceReady(t, path.uuid.value) && score.Some?
    ensures
      var row := t.devices[path.uuid.value];
      var users := VoiceUsers(t, path.uuid.value, order);
      var scores := Scores(t, users, score.value);
      var response := DoVerifyVoice(t, path, bearer, order, audioEmpty, score, now).response;
      && (response.Matched? <==>
            && row.passphrase == Some(bearer)
            && VoiceOf(t, row.owner.value).Some?
            && !audioEmpty
            && exists k :: 0 <= k < |scores| && scores[k] > row.threshold.value && scores[k] > -1.0)
      && (response.Matched? ==>
            && IsFirstMaximum(scores, response.index)
            && VoiceOf(t, users[response.index]).Some?
            && scores[response.index] == score.value(VoiceOf(t, users[response.index]).value) > row.threshold.value)
  {
    var users := VoiceUsers(t, path.uuid.value, order);
    var scores := Scores(t, users, score.value);
    var best := BestOf(scores);
    if best.index >= 0 {
      assert scores[best.index] == best.score;
      CandidatesMayOperate(t, path.uuid.value, now, order, best.index);
    }
  }

  lemma RegistrantMayOperate(t: Tables, r: Request, now: nat)
    requires Possible(t, r, now) && MarkOf(t, r, now).Register?
    ensures PathOf(r).Some? && PathOf(r).value.uuid.Some?
    ensures var path, mark := PathOf(r).value, MarkOf(t, r, now);
      && (mark.key == path.raw || mark.key == path.uuid.value)
      && mark.seconds == Seconds(now)
      && MayOperate(t, path.uuid.value, mark.user, now)
  {
    if r.VerifyVoice? {
      CandidatesMayOperate(t, r.path.uuid.value, now, r.order, Respond(t, r, now).response.index);
    }
  }

  // ---- One key over a run ----

  function EntryOf(t: Tables, key: string): Option<Command> {
    if key in t.recent then Some(t.recent[key]) else None
  }

  function KeyWrite(mark: Mark, key: string): Write<Command> {
    match mark
    case Register(k, user, seconds) => if k == key then Put(Command(user, seconds)) else Keep
    case Spend(k, _, _) => if k == key then Clear else Keep
    case Idle => Keep
  }

  function KeyWrites(marks: seq<Mark>, key: string): seq<Write<Command>> {
    seq(|marks|, i requires 0 <= i < |marks| => KeyWrite(marks[i], key))
  }

  // Mark `i` registered under the key, and nothing has happened to the key since.
  predicate Stands(marks: seq<Mark>, n: nat, key: string, i: nat) { Last(KeyWrites(marks, key), n, i) }

  function Marks(ts: seq<Tables>, es: seq<Step>): (marks: seq<Mark>)
    requires IsRun(ts, es)
  {
    seq(|es|, i requires 0 <= i < |es| => MarkOf(ts[i], es[i].request, es[i].now))
  }

  lemma StepEntry(t: Tables, r: Request, now: nat, key: string)
    requires Possible(t, r, now)
    ensures EntryOf(Respond(t, r, now).tables, key) == Written(EntryOf(t, key), KeyWrite(MarkOf(t, r, now), key))
  {
    StepRecent(t, r, now);
  }

  // The map holds exactly what stands, whatever was overwritten or left to go stale.
  lemma EntryIs(ts: seq<Tables>, es: seq<Step>, n: nat, key: string, command: Command)
    requires IsRun(ts, es) && n <= |es|
    ensures EntryOf(ts[n], key) == Some(command) <==>
      exists i: nat ::
        && Stands(Marks(ts, es), n, key, i)
        && command == Command(Marks(ts, es)[i].user, Marks(ts, es)[i].seconds)
  {
    var marks := Marks(ts, es);
    var values := seq(|ts|, i requires 0 <= i < |ts| => EntryOf(ts[i], key));
    forall i | 0 <= i < |es| ensures values[i + 1] == Written(values[i], KeyWrites(marks, key)[i]) {
      StepEntry(ts[i], es[i].request, es[i].now, key);
    }
    LastWrite(values, KeyWrites(marks, key), n, command);
    forall i: nat | Stands(marks, n, key, i)
      ensures KeyWrites(marks, key)[i].value == Command(marks[i].user, marks[i].seconds)
    {
    }
  }

  // ---- The log ----

  // Exactly which lock events name a user, and whom: the one whose registration stands
  // under the key of the message, if it is less than five whole seconds old.
  lemma LogNames(ts: seq<Tables>, es: seq<Step>, j: nat, user: Uid)
    requires IsRun(ts, es) && j < |es| && IsLog(es[j].request)
    ensures NamedUser(ts[j], es[j].request, es[j].now) == Some(user) <==>
      exists i: nat ::
        && Stands(Marks(ts, es), j, es[j].request.path.raw, i)
        && Marks(ts, es)[i].user == user
        && Seconds(es[j].now) - Seconds(es[i].now) < 5
  {
    var key, marks := es[j].request.path.raw, Marks(ts, es);
    if EntryOf(ts[j], key).Some? {
      EntryIs(ts, es, j, key, ts[j].recent[key]);
      var i: nat :| Stands(marks, j, key, i) && ts[j].recent[key] == Command(marks[i].user, marks[i].seconds);
      MarkTime(ts, es, i);
    }
    forall i: nat | Stands(marks, j, key, i)
      ensures EntryOf(ts[j], key) == Some(Command(marks[i].user, Seconds(es[i].now)))
    {
      EntryIs(ts, es, j, key, Command(marks[i].user, marks[i].seconds));
      MarkTime(ts, es, i);
    }
  }

  lemma MarkTime(ts: seq<Tables>, es: seq<Step>, i: nat)
    requires IsRun(ts, es) && i < |es| && Marks(ts, es)[i].Register?
    ensures Marks(ts, es)[i].seconds == Seconds(es[i].now)
  {
    RegistrantMayOperate(ts[i], es[i].request, es[i].now);
  }

  // Raw spellings are read by one parser, which reads a canonical spelling as itself.
  predicate Spelled(es: seq<Step>, parse: string -> Option<Uuid>) {
    forall i :: 0 <= i < |es| && PathOf(es[i].request).Some? ==>
      var path := PathOf(es[i].request).value;
      path.uuid == parse(path.raw) && (path.uuid.Some? ==> parse(path.uuid.value) == path.uuid)
  }

  // The registration behind a log that names a user: same key, same device, same user,
  // less than five whole seconds old, and allowed when it was made.
  predicate Explains(ts: seq<Tables>, es: seq<Step>, i: nat, j: nat, user: Uid)
    requires IsRun(ts, es) && i < j < |es| && IsLog(es[j].request)
  {
    && Stands(Marks(ts, es), j, es[j].request.path.raw, i)
    && Marks(ts, es)[i].user == user
    && PathOf(es[i].request).Some?
    && PathOf(es[i].request).value.uuid == es[j].request.path.uuid
    && 0 <= Seconds(es[j].now) - Seconds(es[i].now) < 5
    && MayOperate(ts[i], es[j].request.path.uuid.value, user, es[i].now)
  }

  lemma AttributionIsSound(ts: seq<Tables>, es: seq<Step>, parse: string -> Option<Uuid>, j: nat, user: Uid)
    returns (i: nat)
    requires IsRun(ts, es) && Spelled(es, parse) && j < |es| && IsLog(es[j].request)
    requires NamedUser(ts[j], es[j].request, es[j].now) == Some(user)
    ensures i < j && Explains(ts, es, i, j, user)
    ensures 0 <= es[j].now - es[i].now < 5000
  {
    LogNames(ts, es, j, user);
    i :| Stands(Marks(ts, es), j, es[j].request.path.raw, i)
      && Marks(ts, es)[i].user == user
      && Seconds(es[j].now) - Seconds(es[i].now) < 5;
    SameDevice(ts, es, parse, i, j);
    assert es[i].now <= es[j].now;
  }

  // Equal keys are the same device, and the registrant was allowed to operate it.
  lemma SameDevice(ts: seq<Tables>, es: seq<Step>, parse: string -> Option<Uuid>, i: nat, j: nat)
    requires IsRun(ts, es) && Spelled(es, parse) && i < |es| && j < |es| && IsLog(es[j].request)
    requires Marks(ts, es)[i].Register? && Marks(ts, es)[i].key == es[j].request.path.raw
    ensures PathOf(es[i].request).Some? && PathOf(es[i].request).value.uuid == es[j].request.path.uuid
    ensures MayOperate(ts[i], es[j].request.path.uuid.value, Marks(ts, es)[i].user, es[i].now)
  {
    RegistrantMayOperate(ts[i], es[i].request, es[i].now);
    assert PathOf(es[j].request) == Some(es[j].request.path);
  }

  lemma MarkOfLog(ts: seq<Tables>, es: seq<Step>, j: nat)
    requires IsRun(ts, es) && j < |es| && IsLog(es[j].request) && NamedUser(ts[j], es[j].request, es[j].now).Some?
    ensures Marks(ts, es)[j].Spend? && Marks(ts, es)[j].key == es[j].request.path.raw
  {
  }

  lemma StandsOnce(marks: seq<Mark>, i: nat, j: nat, k: nat, key: string)
    requires j < |marks| && k < |marks| && KeyWrite(marks[j], key) == KeyWrite(marks[k], key) == Clear
    requires Stands(marks, j, key, i) && Stands(marks, k, key, i)
    ensures j == k
  {
    assert KeyWrites(marks, key)[j] == Clear && KeyWrites(marks, key)[k] == Clear;
  }

  // No registration explains two logs.
  lemma AttributionIsInjective(ts: seq<Tables>, es: seq<Step>, i: nat, j: nat, k: nat)
    requires IsRun(ts, es) && i < j < |es| && i < k < |es| && IsLog(es[j].request) && IsLog(es[k].request)
    requires NamedUser(ts[j], es[j].request, es[j].now).Some?
    requires NamedUser(ts[k], es[k].request, es[k].now).Some?
    requires Stands(Marks(ts, es), j, es[j].request.path.raw, i)
    requires Stands(Marks(ts, es), k, es[k].request.path.raw, i)
    ensures j == k
  {
    MarkOfLog(ts, es, j);
    MarkOfLog(ts, es, k);
    StandsOnce(Marks(ts, es), i, j, k, es[j].request.path.raw);
  }
}
