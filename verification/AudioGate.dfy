// The hand-off of recording sessions: two starters (the voice detector and the command
// task) raise a flag and give a binary semaphore, one worker takes the semaphore, runs a
// session and lowers the flag. Every access to the shared variables is one step.
module AudioGate {

  // Next statement of each task.
  datatype Detector = Watch | Listen | DetectorRaise | DetectorGive
  datatype Commander = Receive | TestFlag | CommanderRaise | CommanderGive
  datatype Worker =
    | Take
    | OpenClient | AllocateAudio | Arm | AllocateChunk | Record | OpenConnection | AwaitReply
    | Disarm | Lower | Abort

  // gives, sessions and coalesced are history variables: semaphore gives, takes, and
  // gives that found the semaphore already full.
  datatype State = State(
    enabled: bool,
    gate: bool,
    recording: bool,
    detector: Detector,
    commander: Commander,
    worker: Worker,
    gives: nat,
    sessions: nat,
    coalesced: nat)

  datatype Event =
    | DetectorPass            // reads the flag and starts a frame, or sees it raised
    | FrameQuiet | FrameTriggers
    | DetectorSets | DetectorGives
    | StartArrives | StopArrives
    | CommanderTests | CommanderSets | CommanderGives
    | WorkerTakes
    | ClientFails | ClientOpens
    | AudioAllocFails | AudioAllocated
    | WorkerArms
    | ChunkAllocFails | ChunkAllocated
    | RecordingFull | RecordingStopped
    | ConnectionFails | ConnectionOpens
    | Replied
    | WorkerDisarms | WorkerLowers

  const INIT := State(false, false, false, Watch, Receive, Take, 0, 0, 0)

  predicate Enabled(s: State, e: Event) {
    match e
    case DetectorPass => s.detector == Watch
    case FrameQuiet => s.detector == Listen
    case FrameTriggers => s.detector == Listen
    case DetectorSets => s.detector == DetectorRaise
    case DetectorGives => s.detector == DetectorGive
    case StartArrives => s.commander == Receive
    case StopArrives => s.commander == Receive
    case CommanderTests => s.commander == TestFlag
    case CommanderSets => s.commander == CommanderRaise
    case CommanderGives => s.commander == CommanderGive
    case WorkerTakes => s.worker == Take && s.gate
    case ClientFails => s.worker == OpenClient
    case ClientOpens => s.worker == OpenClient
    case AudioAllocFails => s.worker == AllocateAudio
    case AudioAllocated => s.worker == AllocateAudio
    case WorkerArms => s.worker == Arm
    case ChunkAllocFails => s.worker == AllocateChunk
    case ChunkAllocated => s.worker == AllocateChunk
    case RecordingFull => s.worker == Record
    case RecordingStopped => s.worker == Record && !s.recording
    case ConnectionFails => s.worker == OpenConnection
    case ConnectionOpens => s.worker == OpenConnection
    case Replied => s.worker == AwaitReply
    case WorkerDisarms => s.worker == Disarm
    case WorkerLowers => s.worker == Lower || s.worker == Abort
  }

  function Give(s: State): State {
    s.(gate := true, gives := s.gives + 1, coalesced := s.coalesced + (if s.gate then 1 else 0))
  }

  function Apply(s: State, e: Event): State
    requires Enabled(s, e)
  {
    match e
    case DetectorPass => s.(detector := if s.enabled then Watch else Listen)
    case FrameQuiet => s.(detector := Watch)
    case FrameTriggers => s.(detector := DetectorRaise)
    case DetectorSets => s.(enabled := true, detector := DetectorGive)
    case DetectorGives => Give(s).(detector := Watch)
    case StartArrives => s.(commander := TestFlag)
    case StopArrives => s.(recording := false)
    case CommanderTests => s.(commander := if s.enabled then Receive else CommanderRaise)
    case CommanderSets => s.(enabled := true, commander := CommanderGive)
    case CommanderGives => Give(s).(commander := Receive)
    case WorkerTakes => s.(gate := false, worker := OpenClient, sessions := s.sessions + 1)
    case ClientFails => s.(worker := Abort)
    case ClientOpens => s.(worker := AllocateAudio)
    case AudioAllocFails => s.(worker := Abort)
    case AudioAllocated => s.(worker := Arm)
    case WorkerArms => s.(recording := true, worker := AllocateChunk)
    case ChunkAllocFails => s.(recording := false, worker := Take)
    case ChunkAllocated => s.(worker := Record)
    case RecordingFull => s.(worker := OpenConnection)
    case RecordingStopped => s.(worker := AwaitReply)
    case ConnectionFails => s.(worker := Abort)
    case ConnectionOpens => s.(worker := AwaitReply)
    case Replied => s.(worker := Disarm)
    case WorkerDisarms => s.(recording := false, worker := Lower)
    case WorkerLowers => s.(enabled := false, worker := Take)
  }

  predicate CanRun(s: State, es: seq<Event>)
    decreases |es|, 0
  {
    es == [] || (CanRun(s, es[..|es| - 1]) && Enabled(After(s, es[..|es| - 1]), es[|es| - 1]))
  }

  function After(s: State, es: seq<Event>): State
    requires CanRun(s, es)
    decreases |es|, 1
  {
    if es == [] then s else Apply(After(s, es[..|es| - 1]), es[|es| - 1])
  }

  predicate InSession(s: State) { s.worker != Take }

  predicate GiveOwed(s: State) { s.detector == DetectorGive || s.commander == CommanderGive }

  // A raised flag is always accounted for: a session runs, or one is on its way.
  predicate NoLostWakeup(s: State) {
    s.enabled && !s.gate && !GiveOwed(s) ==> InSession(s)
  }

  // Every give has started a session, is still waiting, or found the gate already full.
  predicate GivesAccounted(s: State) {
    s.gives == s.sessions + s.coalesced + (if s.gate then 1 else 0)
  }

  // The one exit of a session that leaves the flag up with nothing to follow.
  predicate LosesWakeup(s: State, e: Event) {
    e == ChunkAllocFails && s.enabled && !s.gate && !GiveOwed(s)
  }

  lemma StepNoLostWakeup(s: State, e: Event)
    requires NoLostWakeup(s) && Enabled(s, e)
    ensures NoLostWakeup(Apply(s, e)) <==> !LosesWakeup(s, e)
  {
  }

  predicate KeepsWakeups(s: State, es: seq<Event>)
    requires CanRun(s, es)
  {
    es == [] || (&& KeepsWakeups(s, es[..|es| - 1])
                 && !LosesWakeup(After(s, es[..|es| - 1]), es[|es| - 1]))
  }

  lemma {:induction false} NeverLost(es: seq<Event>)
    requires CanRun(INIT, es) && KeepsWakeups(INIT, es)
    ensures NoLostWakeup(After(INIT, es))
  {
    if es != [] {
      NeverLost(es[..|es| - 1]);
      StepNoLostWakeup(After(INIT, es[..|es| - 1]), es[|es| - 1]);
    }
  }

  lemma StepGivesAccounted(s: State, e: Event)
    requires GivesAccounted(s) && Enabled(s, e)
    ensures GivesAccounted(Apply(s, e))
  {
  }

  // No semaphore give disappears: it started a session, is waiting, or met a full gate.
  lemma {:induction false} EveryGiveAccounted(es: seq<Event>)
    requires CanRun(INIT, es)
    ensures GivesAccounted(After(INIT, es))
  {
    if es != [] {
      EveryGiveAccounted(es[..|es| - 1]);
      StepGivesAccounted(After(INIT, es[..|es| - 1]), es[|es| - 1]);
    }
  }

  // The state a lost wake-up leaves: the flag is up, no give is due, the worker waits.
  predicate Unheard(s: State) {
    s.enabled && !s.gate && s.worker == Take && !GiveOwed(s)
  }

  // A starter that tested the flag before it went up has not backed off yet.
  predicate StarterCommitted(s: State) {
    s.detector == Listen || s.detector == DetectorRaise || s.commander == CommanderRaise
  }

  ghost predicate SessionCanStart(s: State) {
    exists es :: CanRun(s, es) && After(s, es).sessions > s.sessions
  }

  lemma {:induction false} DeafForever(s: State, es: seq<Event>)
    requires Unheard(s) && !StarterCommitted(s) && CanRun(s, es)
    ensures Unheard(After(s, es)) && !StarterCommitted(After(s, es)) && After(s, es).sessions == s.sessions
  {
    if es != [] { DeafForever(s, es[..|es| - 1]); }
  }

  lemma Extend(s: State, es: seq<Event>, e: Event)
    requires CanRun(s, es) && Enabled(After(s, es), e)
    ensures CanRun(s, es + [e]) && After(s, es + [e]) == Apply(After(s, es), e)
  {
    assert (es + [e])[..|es|] == es;
  }

  lemma StarterRescues(s: State) returns (es: seq<Event>)
    requires Unheard(s) && StarterCommitted(s)
    ensures CanRun(s, es) && After(s, es).sessions == s.sessions + 1
  {
    es := [];
    if s.commander == CommanderRaise {
      Extend(s, es, CommanderSets);
      es := es + [CommanderSets];
      Extend(s, es, CommanderGives);
      es := es + [CommanderGives];
    } else {
      if s.detector == Listen {
        Extend(s, es, FrameTriggers);
        es := es + [FrameTriggers];
      }
      Extend(s, es, DetectorSets);
      es := es + [DetectorSets];
      Extend(s, es, DetectorGives);
      es := es + [DetectorGives];
    }
    Extend(s, es, WorkerTakes);
    es := es + [WorkerTakes];
  }

  // After a lost wake-up, no run of the three tasks ever starts another session unless a
  // starter was already past its test of the flag.
  lemma LostWakeupIsFinal(s: State)
    requires Unheard(s)
    ensures SessionCanStart(s) <==> StarterCommitted(s)
  {
    if StarterCommitted(s) {
      var es := StarterRescues(s);
      assert CanRun(s, es);
    } else {
      forall es | CanRun(s, es) ensures After(s, es).sessions == s.sessions {
        DeafForever(s, es);
      }
    }
  }

  lemma Next(es: seq<Event>, s: State, e: Event) returns (es': seq<Event>, s': State)
    requires CanRun(INIT, es) && After(INIT, es) == s && Enabled(s, e)
    ensures CanRun(INIT, es') && After(INIT, es') == s' == Apply(s, e)
  {
    Extend(INIT, es, e);
    es', s' := es + [e], Apply(s, e);
  }

  // One start command, up to the session.
  lemma ReachStarted() returns (es: seq<Event>)
    ensures CanRun(INIT, es)
    ensures After(INIT, es) == INIT.(enabled := true, worker := OpenClient, gives := 1, sessions := 1)
  {
    var s := INIT;
    es := [];
    es, s := Next(es, s, StartArrives);
    es, s := Next(es, s, CommanderTests);
    es, s := Next(es, s, CommanderSets);
    es, s := Next(es, s, CommanderGives);
    es, s := Next(es, s, WorkerTakes);
  }

  // The failing exit is reachable: one start command and one failed allocation.
  lemma LossIsReachable() returns (es: seq<Event>)
    ensures CanRun(INIT, es) && Unheard(After(INIT, es)) && !StarterCommitted(After(INIT, es))
  {
    es := ReachStarted();
    var s := After(INIT, es);
    es, s := Next(es, s, ClientOpens);
    es, s := Next(es, s, AudioAllocated);
    es, s := Next(es, s, WorkerArms);
    es, s := Next(es, s, ChunkAllocFails);
  }

  // ---- The flag during a session ----

  // The flag is up while a session runs, waits to start, or is about to be asked for.
  predicate FlagCovers(s: State) {
    InSession(s) || s.gate || GiveOwed(s) ==> s.enabled
  }

  // The end of a session takes down the flag that a starter has raised for the next one.
  predicate Uncovers(s: State, e: Event) {
    e == WorkerLowers && (s.gate || GiveOwed(s))
  }

  lemma StepFlagCovers(s: State, e: Event)
    requires FlagCovers(s) && Enabled(s, e)
    ensures FlagCovers(Apply(s, e)) <==> !Uncovers(s, e)
  {
  }

  predicate KeepsCover(s: State, es: seq<Event>)
    requires CanRun(s, es)
  {
    es == [] || (KeepsCover(s, es[..|es| - 1]) && !Uncovers(After(s, es[..|es| - 1]), es[|es| - 1]))
  }

  // Without such an end the flag is up throughout every session, so the detector starts no
  // frame during one.
  lemma {:induction false} SessionsAreCovered(es: seq<Event>)
    requires CanRun(INIT, es) && KeepsCover(INIT, es)
    ensures var s := After(INIT, es);
      FlagCovers(s) && (InSession(s) && s.detector == Watch ==> Apply(s, DetectorPass).detector == Watch)
  {
    if es != [] {
      SessionsAreCovered(es[..|es| - 1]);
      StepFlagCovers(After(INIT, es[..|es| - 1]), es[|es| - 1]);
    }
  }

  predicate BareSession(s: State) { InSession(s) && !s.enabled }

  // Runs in which no starter raises the flag any more.
  predicate Unraised(es: seq<Event>) {
    forall i :: 0 <= i < |es| ==> es[i] != DetectorSets && es[i] != CommanderSets
  }

  lemma OneEvent(s: State, e: Event)
    requires Enabled(s, e)
    ensures CanRun(s, [e]) && After(s, [e]) == Apply(s, e)
  {
    assert [e][..0] == [];
  }

  lemma TwoEvents(s: State, e: Event, f: Event)
    requires Enabled(s, e) && Enabled(Apply(s, e), f)
    ensures CanRun(s, [e, f]) && After(s, [e, f]) == Apply(Apply(s, e), f)
  {
    OneEvent(s, e);
    assert [e, f][..1] == [e];
  }

  // With one, the next session can run with the flag down.
  lemma UncoveredSession(s: State) returns (es: seq<Event>)
    requires s.worker == Take && !s.enabled && (s.gate || GiveOwed(s))
    ensures CanRun(s, es) && Unraised(es) && BareSession(After(s, es))
  {
    if s.gate {
      OneEvent(s, WorkerTakes);
      es := [WorkerTakes];
    } else if s.detector == DetectorGive {
      TwoEvents(s, DetectorGives, WorkerTakes);
      es := [DetectorGives, WorkerTakes];
    } else {
      TwoEvents(s, CommanderGives, WorkerTakes);
      es := [CommanderGives, WorkerTakes];
    }
  }

  lemma {:induction false} StaysDown(s: State, es: seq<Event>)
    requires s.worker == Take && !s.gate && !GiveOwed(s) && CanRun(s, es) && Unraised(es)
    ensures var s' := After(s, es); s'.worker == Take && !s'.gate && !GiveOwed(s')
  {
    if es != [] { StaysDown(s, es[..|es| - 1]); }
  }

  // The end of a session is followed by one with the flag down, unless a starter raises it
  // in between, exactly if the session was asked for when the flag went down.
  lemma BareSessionIff(s: State, e: Event)
    requires Enabled(s, e) && e == WorkerLowers
    ensures (exists es :: CanRun(Apply(s, e), es) && Unraised(es) && BareSession(After(Apply(s, e), es))) <==> Uncovers(s, e)
  {
    var down := Apply(s, e);
    if Uncovers(s, e) {
      var es := UncoveredSession(down);
      assert CanRun(down, es) && Unraised(es) && BareSession(After(down, es));
    } else {
      forall es | CanRun(down, es) && Unraised(es) ensures !BareSession(After(down, es)) {
        StaysDown(down, es);
      }
    }
  }

  // A start command is past its test of the flag when the detector asks for a session.
  lemma ReachRivals() returns (es: seq<Event>)
    ensures CanRun(INIT, es)
    ensures After(INIT, es) == INIT.(enabled := true, gate := true, commander := CommanderRaise, gives := 1)
  {
    var s := INIT;
    es := [];
    es, s := Next(es, s, StartArrives);
    es, s := Next(es, s, CommanderTests);
    es, s := Next(es, s, DetectorPass);
    es, s := Next(es, s, FrameTriggers);
    es, s := Next(es, s, DetectorSets);
    es, s := Next(es, s, DetectorGives);
  }

  // It raises the flag just before the session of the detector takes it down.
  lemma ReachBare() returns (es: seq<Event>)
    ensures CanRun(INIT, es)
    ensures After(INIT, es) == INIT.(gives := 2, sessions := 2, worker := OpenClient)
  {
    es := ReachRivals();
    var s := After(INIT, es);
    es, s := Next(es, s, WorkerTakes);
    es, s := Next(es, s, ClientFails);
    es, s := Next(es, s, CommanderSets);
    es, s := Next(es, s, WorkerLowers);
    es, s := Next(es, s, CommanderGives);
    es, s := Next(es, s, WorkerTakes);
  }

  // So it happens that the detector listens while the worker records.
  lemma BareSessionIsReachable() returns (es: seq<Event>)
    ensures CanRun(INIT, es)
    ensures var s := After(INIT, es); BareSession(s) && s.worker == Record && s.detector == Listen
  {
    es := ReachBare();
    var s := After(INIT, es);
    es, s := Next(es, s, ClientOpens);
    es, s := Next(es, s, AudioAllocated);
    es, s := Next(es, s, WorkerArms);
    es, s := Next(es, s, ChunkAllocated);
    es, s := Next(es, s, DetectorPass);
  }

  // ---- The recording flag ----

  // An event has happened, and none of certain others since.
  predicate Since(es: seq<Event>, e: Event, ends: set<Event>) {
    exists i :: 0 <= i < |es| && es[i] == e && forall j :: i < j < |es| ==> es[j] !in ends
  }

  lemma SinceStep(es: seq<Event>, e: Event, ends: set<Event>)
    requires es != []
    ensures var n := |es| - 1; Since(es, e, ends) <==> es[n] == e || (Since(es[..n], e, ends) && es[n] !in ends)
  {
    var n := |es| - 1;
    if i :| 0 <= i < n && es[..n][i] == e && (forall j :: i < j < n ==> es[..n][j] !in ends) && es[n] !in ends {
      assert es[i] == e && forall j :: i < j < n ==> es[j] == es[..n][j];
    }
    if i :| 0 <= i < |es| && es[i] == e && forall j :: i < j < |es| ==> es[j] !in ends {
      assert i < n ==> es[..n][i] == e && forall j :: i < j < n ==> es[..n][j] !in ends;
      assert i == n || es[n] !in ends;
    }
  }

  // The flag is up exactly if a recording was armed and since then no STOP has come, no
  // buffer was refused and no session has ended with a reply.
  lemma {:induction false} RecordingIs(es: seq<Event>)
    requires CanRun(INIT, es)
    ensures After(INIT, es).recording <==> Since(es, WorkerArms, {StopArrives, ChunkAllocFails, WorkerDisarms})
  {
    if es != [] {
      RecordingIs(es[..|es| - 1]);
      SinceStep(es, WorkerArms, {StopArrives, ChunkAllocFails, WorkerDisarms});
    }
  }

  // While the worker records, the loop can end early exactly if a STOP has come since it
  // armed; one from before counts for nothing.
  lemma {:induction false} StopEndsRecording(es: seq<Event>)
    requires CanRun(INIT, es) && (After(INIT, es).worker == AllocateChunk || After(INIT, es).worker == Record)
    ensures !After(INIT, es).recording <==> Since(es, StopArrives, {WorkerArms})
    ensures After(INIT, es).worker == Record ==>
      (Enabled(After(INIT, es), RecordingStopped) <==> Since(es, StopArrives, {WorkerArms}))
  {
    var before := es[..|es| - 1];
    var w := After(INIT, before).worker;
    SinceStep(es, StopArrives, {WorkerArms});
    if w == AllocateChunk || w == Record { StopEndsRecording(before); }
  }

  // A connection is opened only for a recording that was not cut short.
  lemma {:induction false} OnlyFullIsSent(es: seq<Event>)
    requires CanRun(INIT, es) && After(INIT, es).worker == OpenConnection
    ensures Since(es, RecordingFull, {RecordingStopped, WorkerArms})
  {
    var before := es[..|es| - 1];
    SinceStep(es, RecordingFull, {RecordingStopped, WorkerArms});
    if After(INIT, before).worker == OpenConnection { OnlyFullIsSent(before); }
  }

  // The flag is taken down only after a reply: a session that finds no connection leaves it
  // as it is.
  lemma {:induction false} RepliedBeforeDisarm(es: seq<Event>)
    requires CanRun(INIT, es) && After(INIT, es).worker == Disarm
    ensures Since(es, Replied, {WorkerTakes})
  {
    var before := es[..|es| - 1];
    SinceStep(es, Replied, {WorkerTakes});
    if After(INIT, before).worker == Disarm { RepliedBeforeDisarm(before); }
  }
}
