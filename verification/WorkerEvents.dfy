/**
  What a user's event comes to in a run: a connection leaves a new thread on the new database, a
  window's call is made, a close disconnects; and why threads stop.
 */
module WorkerEvents {
  import opened Wrappers
  import opened WorkerProtocol
  import opened WorkerSafety
  import opened WorkerProgress

  // ---- the frame's database has its thread ----

  /** Out of its loop, not yet destroyed. */
  predicate LeftLoop(pc: WorkerPc) {
    pc == Reporting || pc == DtorWant || pc == DtorHold || pc == DtorClear || pc == DtorRelease
  }

  /** The frame is destroying the thread object whose `Run` has failed. */
  predicate Undone(pc: MainPc) {
    pc.UndoRelease? || pc.UndoFree?
  }

  /** The newest thread was made on the frame's database; it leaves its loop only when asked or after a failure. */
  predicate Attended(s: State) {
    && (s.frameDb.Some? && !s.pc.MakeHandler? ==>
          && |s.workers| > 0
          && var w := s.workers[|s.workers| - 1];
             w.db == s.frameDb.value && (w.pc == Gone ==> w.stop || Undone(s.pc)))
    && forall i :: 0 <= i < |s.workers| && LeftLoop(s.workers[i].pc) ==> s.workers[i].stop
  }

  lemma StopAttends(held: bool, s: State)
    requires Inv(held, s) && Attended(s) && FrameEnabled(s) && AtStop(s.pc)
    ensures Attended(StopStep(held, s))
  {
  }

  lemma WaitAttends(held: bool, s: State)
    requires Attended(s) && AtWait(s.pc)
    ensures Attended(WaitStep(held, s))
  {
  }

  lemma ReplaceAttends(held: bool, s: State)
    requires Inv(held, s) && Attended(s) && FrameEnabled(s) && AtReplace(s.pc)
    ensures Attended(ReplaceStep(s))
  {
  }

  lemma UndoAttends(held: bool, s: State)
    requires Inv(held, s) && Attended(s) && FrameEnabled(s) && AtUndo(s.pc)
    ensures Attended(UndoStep(held, s))
  {
  }

  lemma OtherAttends(held: bool, s: State)
    requires Inv(held, s) && Attended(s) && FrameEnabled(s) && AtOther(s.pc)
    ensures Attended(OtherStep(held, s))
  {
  }

  lemma ThreadAttends(held: bool, s: State, id: nat, fails: bool)
    requires OldGone(s) && Attended(s) && ThreadEnabled(s, id)
    ensures Attended(ThreadStep(held, s, id, fails))
  {
    assert id == |s.workers| - 1;
  }

  lemma EventAttends(held: bool, s: State, a: Action)
    requires Inv(held, s) && Attended(s) && Enabled(s, a) && a != Proceed && !a.Thread?
    ensures Attended(Apply(held, s, a))
  {
  }

  lemma StepAttends(held: bool, s: State, a: Action)
    requires Inv(held, s) && Attended(s) && Enabled(s, a)
    ensures Attended(Apply(held, s, a))
  {
    match a
    case Proceed =>
      if AtStop(s.pc) {
        StopAttends(held, s);
      } else if AtWait(s.pc) {
        WaitAttends(held, s);
      } else if AtReplace(s.pc) {
        ReplaceAttends(held, s);
      } else if AtUndo(s.pc) {
        UndoAttends(held, s);
      } else {
        OtherAttends(held, s);
      }
    case Thread(id, fails) => ThreadAttends(held, s, id, fails);
    case _ => EventAttends(held, s, a);
  }

  lemma StepOf(held: bool, trace: seq<State>, actions: seq<Action>, k: nat)
    requires IsRun(held, trace, actions) && k < |actions|
    ensures Step(held, trace[k], actions[k], trace[k + 1])
  {
  }

  lemma NextAttends(held: bool, trace: seq<State>, actions: seq<Action>, k: nat)
    requires IsRun(held, trace, actions) && k < |actions| && Attended(trace[k])
    ensures Attended(trace[k + 1])
  {
    RunKeepsInv(held, trace, actions, k);
    StepOf(held, trace, actions, k);
    StepAttends(held, trace[k], actions[k]);
  }

  lemma {:induction false} RunAttends(held: bool, trace: seq<State>, actions: seq<Action>, k: nat)
    requires IsRun(held, trace, actions) && k <= |actions|
    ensures Attended(trace[k])
  {
    if k == 0 {
    } else {
      RunAttends(held, trace, actions, k - 1);
      NextAttends(held, trace, actions, k - 1);
    }
  }

  /**
    An idle frame with a database has a thread that was made on it and started, and that is gone only when it has
    been asked to stop or has failed; without a database it has no handler and all threads are gone.
   */
  lemma IdleFrame(held: bool, s: State)
    requires Reachable(held, s) && s.pc == Idle
    ensures s.frameDb.Some? ==>
              && |s.workers| > 0
              && var w := s.workers[|s.workers| - 1];
                 && w.db == s.frameDb.value && w.pc != Created
                 && (w.pc == Gone ==> w.stop)
                 && (s.handler == Some(|s.workers| - 1) <==> Attached(w.pc))
    ensures s.frameDb.None? ==> s.handler.None? && forall i :: 0 <= i < |s.workers| ==> s.workers[i].pc == Gone
  {
    var trace: seq<State>, actions: seq<Action> :| IsRun(held, trace, actions) && trace[|actions|] == s;
    RunKeepsInv(held, trace, actions, |actions|);
    RunAttends(held, trace, actions, |actions|);
  }

  // ---- a connection ----

  /** The stretch of a run between an event and the moment `k`, when the frame is not idle in between. */
  predicate During(trace: seq<State>, actions: seq<Action>, j: nat, k: nat) {
    && |trace| == |actions| + 1 && j < k <= |actions|
    && forall m :: j < m < k ==> trace[m].pc != Idle
  }

  /** There is one thread more than `n`, the handler, made on `d`, and not asked to stop. */
  predicate Started(s: State, n: nat, d: nat, pc: WorkerPc) {
    |s.workers| == n + 1 && s.workers[n] == Worker(d, pc, false) && s.handler == Some(n)
  }

  /** A connection to `d` is under way, made when there were `n` threads; `failed` says that `Run` has failed. */
  predicate Connecting(s: State, n: nat, d: nat, failed: bool) {
    if AtUndo(s.pc) then failed && |s.workers| == n + 1
    else
      !failed &&
      if AtStop(s.pc) || AtWait(s.pc) then s.pc.goal == Replace(d) && |s.workers| == n
      else if s.pc.FreeOld? || s.pc.Assign? then s.pc.db == d && |s.workers| == n
      else if s.pc.MakeHandler? then s.frameDb == Some(d) && |s.workers| == n
      else s.pc.RunHandler? && s.frameDb == Some(d) && Started(s, n, d, Created)
  }

  /** How a connection ends: with a thread on the database, or without either. */
  predicate Connected(s: State, n: nat, d: nat, failed: bool) {
    && |s.workers| == n + 1
    && (if failed then s.frameDb == None && s.handler == None
        else s.frameDb == Some(d) && Started(s, n, d, TestStop))
  }

  predicate Continues(s: State, n: nat, d: nat, failed: bool) {
    if s.pc == Idle then Connected(s, n, d, failed) else Connecting(s, n, d, failed)
  }

  lemma StopConnects(held: bool, s: State, n: nat, d: nat)
    requires Connecting(s, n, d, false) && FrameEnabled(s) && (AtStop(s.pc) || AtWait(s.pc))
    ensures Connecting(FrameStep(held, s), n, d, false)
  {
  }

  lemma ReplaceConnects(s: State, n: nat, d: nat)
    requires Connecting(s, n, d, false) && AtReplace(s.pc)
    ensures Continues(ReplaceStep(s), n, d, false)
  {
  }

  lemma UndoConnects(held: bool, s: State, n: nat, d: nat)
    requires Connecting(s, n, d, true) && AtUndo(s.pc)
    ensures Continues(UndoStep(held, s), n, d, true)
  {
  }

  lemma FrameConnects(held: bool, s: State, n: nat, d: nat, failed: bool)
    requires Connecting(s, n, d, failed) && FrameEnabled(s)
    ensures Continues(FrameStep(held, s), n, d, failed)
  {
    if AtStop(s.pc) || AtWait(s.pc) {
      StopConnects(held, s, n, d);
    } else if AtReplace(s.pc) {
      ReplaceConnects(s, n, d);
    } else {
      UndoConnects(held, s, n, d);
    }
  }

  lemma ThreadLeavesConnecting(held: bool, s: State, n: nat, d: nat, failed: bool, id: nat, fails: bool)
    requires Inv(held, s) && Connecting(s, n, d, failed) && ThreadEnabled(s, id)
    ensures Continues(ThreadStep(held, s, id, fails), n, d, failed)
  {
    assert id == |s.workers| - 1;
  }

  lemma StepConnects(held: bool, s: State, a: Action, n: nat, d: nat, failed: bool)
    requires Inv(held, s) && Connecting(s, n, d, failed) && Enabled(s, a)
    ensures Continues(Apply(held, s, a), n, d, failed || a == RunFails)
  {
    match a
    case Proceed => FrameConnects(held, s, n, d, failed);
    case Thread(id, fails) => ThreadLeavesConnecting(held, s, n, d, failed, id, fails);
    case _ =>
  }

  /** `Run` has failed since the event. */
  predicate Failed(actions: seq<Action>, j: nat, k: nat)
    requires k <= |actions|
  {
    exists m :: j < m < k && actions[m] == RunFails
  }

  lemma FailedLater(actions: seq<Action>, j: nat, k: nat)
    requires j + 1 < k <= |actions|
    ensures Failed(actions, j, k) <==> Failed(actions, j, k - 1) || actions[k - 1] == RunFails
  {
  }

  lemma ConnectBegins(held: bool, s: State, t: State)
    requires Step(held, s, Connect, t)
    ensures Connecting(t, |s.workers|, s.nextDb, false)
  {
  }

  lemma NextConnects(held: bool, trace: seq<State>, actions: seq<Action>, k: nat, n: nat, d: nat, failed: bool)
    requires IsRun(held, trace, actions) && k < |actions| && Connecting(trace[k], n, d, failed)
    ensures Continues(trace[k + 1], n, d, failed || actions[k] == RunFails)
  {
    RunKeepsInv(held, trace, actions, k);
    StepOf(held, trace, actions, k);
    StepConnects(held, trace[k], actions[k], n, d, failed);
  }

  lemma {:induction false} ConnectContinues(held: bool, trace: seq<State>, actions: seq<Action>, j: nat, k: nat)
    requires IsRun(held, trace, actions) && During(trace, actions, j, k) && actions[j] == Connect
    ensures Continues(trace[k], |trace[j].workers|, trace[j].nextDb, Failed(actions, j, k))
    decreases k
  {
    if k == j + 1 {
      StepOf(held, trace, actions, j);
      ConnectBegins(held, trace[j], trace[k]);
    } else {
      ConnectContinues(held, trace, actions, j, k - 1);
      FailedLater(actions, j, k);
      NextConnects(held, trace, actions, k - 1, |trace[j].workers|, trace[j].nextDb, Failed(actions, j, k - 1));
    }
  }

  /**
    When a connection gives the frame back there is exactly one thread more.  Unless `Run` has failed it is the
    handler, at the start of its loop on the new database; otherwise there is no database.
   */
  lemma ConnectStarts(held: bool, trace: seq<State>, actions: seq<Action>, j: nat, k: nat)
    requires IsRun(held, trace, actions) && During(trace, actions, j, k) && actions[j] == Connect
    requires trace[k].pc == Idle
    ensures
      var s, n, d := trace[k], |trace[j].workers|, trace[j].nextDb;
      && |s.workers| == n + 1
      && (Failed(actions, j, k) ==> s.frameDb == None && s.handler == None)
      && (!Failed(actions, j, k) ==>
            s.frameDb == Some(d) && s.handler == Some(n) && s.workers[n] == Worker(d, TestStop, false))
  {
    ConnectContinues(held, trace, actions, j, k);
  }

  // ---- the same on an infinite behaviour ----

  /** `Run` has failed between two moments. */
  ghost predicate FailedAt(turn: nat -> Turn, n: nat, k: nat) {
    exists m: nat :: n < m < k && turn(m) == Do(RunFails)
  }

  lemma FailedAtLater(turn: nat -> Turn, n: nat, k: nat)
    requires n < k
    ensures FailedAt(turn, n, k + 1) <==> FailedAt(turn, n, k) || turn(k) == Do(RunFails)
  {
    if FailedAt(turn, n, k) {
      var m: nat :| n < m < k && turn(m) == Do(RunFails);
      assert n < m < k + 1;
    }
    if turn(k) == Do(RunFails) {
      assert n < k < k + 1;
    }
  }

  lemma TurnConnects(held: bool, b: nat -> State, turn: nat -> Turn, k: nat, n: nat, d: nat, failed: bool)
    requires IsBehaviour(held, b, turn) && Connecting(b(k), n, d, failed)
    ensures Continues(b(k + 1), n, d, failed || turn(k) == Do(RunFails))
  {
    BehaviourInv(held, b, turn, k);
    assert TurnStep(held, b(k), turn(k), b(k + 1));
    if turn(k).Do? {
      StepConnects(held, b(k), turn(k).action, n, d, failed);
    }
  }

  lemma TurnBegins(held: bool, b: nat -> State, turn: nat -> Turn, n: nat)
    requires IsBehaviour(held, b, turn) && turn(n) == Do(Connect)
    ensures Connecting(b(n + 1), |b(n).workers|, b(n).nextDb, false)
  {
    assert TurnStep(held, b(n), turn(n), b(n + 1));
    ConnectBegins(held, b(n), b(n + 1));
  }

  /** The first idle moment after a connection, with what it has come to. */
  lemma {:induction false} FirstIdle(held: bool, b: nat -> State, turn: nat -> Turn, n: nat, m: nat, k: nat)
    returns (idle: nat)
    requires IsBehaviour(held, b, turn) && n < m <= k && b(k).pc == Idle
    requires Continues(b(m), |b(n).workers|, b(n).nextDb, FailedAt(turn, n, m))
    ensures m <= idle <= k && b(idle).pc == Idle
    ensures Connected(b(idle), |b(n).workers|, b(n).nextDb, FailedAt(turn, n, idle))
    decreases k - m
  {
    if b(m).pc == Idle {
      idle := m;
    } else {
      TurnConnects(held, b, turn, m, |b(n).workers|, b(n).nextDb, FailedAt(turn, n, m));
      FailedAtLater(turn, n, m);
      idle := FirstIdle(held, b, turn, n, m + 1, k);
    }
  }

  /**
    On every fair behaviour a connection gives the frame back with exactly one thread more: the handler, at the start
    of its loop on the new database, unless `Run` has failed in between.
   */
  lemma ConnectFinishes(held: bool, b: nat -> State, turn: nat -> Turn, n: nat) returns (k: nat)
    requires IsBehaviour(held, b, turn) && Fair(b, turn) && turn(n) == Do(Connect)
    ensures k > n && b(k).pc == Idle && |b(k).workers| == |b(n).workers| + 1
    ensures
      var s, i, d := b(k), |b(n).workers|, b(n).nextDb;
      if FailedAt(turn, n, k) then s.frameDb == None && s.handler == None
      else s.frameDb == Some(d) && s.handler == Some(i) && s.workers[i] == Worker(d, TestStop, false)
  {
    EventsFinish(held, b, turn, n);
    var last: nat :| last > n && b(last).pc == Idle;
    TurnBegins(held, b, turn, n);
    assert !FailedAt(turn, n, n + 1);
    k := FirstIdle(held, b, turn, n, n + 1, last);
  }

  // ---- a window's call, and a close ----

  /** At some moment since the event the call was in progress, with the mutex the frame's. */
  ghost predicate Called(trace: seq<State>, j: nat, k: nat, d: nat)
    requires k <= |trace|
  {
    exists m :: j < m < k && trace[m].pc == InMainCall(d) && trace[m].lock == Frame
  }

  /** The call is still to be made, in progress with the mutex the frame's, or over. */
  predicate Calling(s: State, d: nat, called: bool) {
    s.pc == CallWant(d) || (s.pc == InMainCall(d) && s.lock == Frame) || ((s.pc == CallDrop || s.pc == Idle) && called)
  }

  lemma FrameCalls(held: bool, s: State, d: nat, called: bool)
    requires Calling(s, d, called) && s.pc != Idle && FrameEnabled(s)
    ensures Calling(FrameStep(held, s), d, called || s.pc == InMainCall(d))
  {
  }

  lemma ThreadLeavesCalling(held: bool, s: State, d: nat, called: bool, id: nat, fails: bool)
    requires Inv(held, s) && Calling(s, d, called) && s.pc != Idle && ThreadEnabled(s, id)
    ensures Calling(ThreadStep(held, s, id, fails), d, called)
  {
    assert id == |s.workers| - 1;
  }

  lemma StepCalls(held: bool, s: State, a: Action, d: nat, called: bool)
    requires Inv(held, s) && Calling(s, d, called) && s.pc != Idle && Enabled(s, a)
    ensures Calling(Apply(held, s, a), d, called || s.pc == InMainCall(d))
  {
    match a
    case Proceed => FrameCalls(held, s, d, called);
    case Thread(id, fails) => ThreadLeavesCalling(held, s, d, called, id, fails);
    case _ =>
  }

  lemma NextCalls(held: bool, trace: seq<State>, actions: seq<Action>, k: nat, d: nat, called: bool)
    requires IsRun(held, trace, actions) && k < |actions| && Calling(trace[k], d, called) && trace[k].pc != Idle
    ensures Calling(trace[k + 1], d, called || trace[k].pc == InMainCall(d))
  {
    RunKeepsInv(held, trace, actions, k);
    StepOf(held, trace, actions, k);
    StepCalls(held, trace[k], actions[k], d, called);
  }

  lemma CalledLater(trace: seq<State>, j: nat, k: nat, d: nat)
    requires j + 1 < k <= |trace|
    ensures (trace[k - 1].pc == InMainCall(d) && trace[k - 1].lock == Frame) || Called(trace, j, k - 1, d) ==>
              Called(trace, j, k, d)
  {
  }

  lemma CallBegins(held: bool, s: State, t: State, d: nat)
    requires Step(held, s, ViewCall(d), t)
    ensures Calling(t, d, false)
  {
  }

  lemma {:induction false} CallContinues(held: bool, trace: seq<State>, actions: seq<Action>, j: nat, k: nat, d: nat)
    requires IsRun(held, trace, actions) && During(trace, actions, j, k) && actions[j] == ViewCall(d)
    ensures Calling(trace[k], d, Called(trace, j, k, d))
    decreases k
  {
    if k == j + 1 {
      StepOf(held, trace, actions, j);
      CallBegins(held, trace[j], trace[k], d);
    } else {
      CallContinues(held, trace, actions, j, k - 1, d);
      NextCalls(held, trace, actions, k - 1, d, Called(trace, j, k - 1, d));
      CalledLater(trace, j, k, d);
    }
  }

  /** A window's call has been made, under the guard, when the frame is idle again. */
  lemma CallIsMade(held: bool, trace: seq<State>, actions: seq<Action>, j: nat, k: nat, d: nat)
    requires IsRun(held, trace, actions) && During(trace, actions, j, k) && actions[j] == ViewCall(d)
    requires trace[k].pc == Idle
    ensures exists m :: j < m < k && trace[m].pc == InMainCall(d) && trace[m].lock == Frame
  {
    CallContinues(held, trace, actions, j, k, d);
  }

  /** The frame's destructor has been about to disconnect `d`. */
  ghost predicate Disconnected(trace: seq<State>, j: nat, k: nat, d: nat)
    requires k <= |trace|
  {
    exists m :: j < m < k && trace[m].pc == EndDisconnect && trace[m].frameDb == Some(d)
  }

  predicate Closing(s: State, d: nat) {
    s.frameDb == Some(d) &&
    (((AtStop(s.pc) || AtWait(s.pc)) && s.pc.goal == Shutdown) || s.pc.EndWant? || s.pc.EndHold? || s.pc.EndDisconnect?)
  }

  lemma FrameCloses(held: bool, s: State, d: nat)
    requires Closing(s, d) && FrameEnabled(s)
    ensures Closing(FrameStep(held, s), d) || s.pc.EndDisconnect?
  {
  }

  lemma ThreadLeavesClosing(held: bool, s: State, d: nat, id: nat, fails: bool)
    requires Closing(s, d) && ThreadEnabled(s, id)
    ensures Closing(ThreadStep(held, s, id, fails), d)
  {
  }

  lemma StepCloses(held: bool, s: State, a: Action, d: nat)
    requires Closing(s, d) && Enabled(s, a)
    ensures Closing(Apply(held, s, a), d) || s.pc.EndDisconnect?
  {
    match a
    case Proceed => FrameCloses(held, s, d);
    case Thread(id, fails) => ThreadLeavesClosing(held, s, d, id, fails);
    case _ =>
  }

  lemma {:induction false} CloseContinues(held: bool, trace: seq<State>, actions: seq<Action>, j: nat, k: nat, d: nat)
    requires IsRun(held, trace, actions) && j < k <= |actions| && actions[j] == Close && trace[j].frameDb == Some(d)
    ensures Closing(trace[k], d) || Disconnected(trace, j, k, d)
    decreases k
  {
    assert Step(held, trace[k - 1], actions[k - 1], trace[k]);
    if k == j + 1 {
    } else {
      CloseContinues(held, trace, actions, j, k - 1, d);
      if Closing(trace[k - 1], d) {
        StepCloses(held, trace[k - 1], actions[k - 1], d);
      } else {
        var m :| j < m < k - 1 && trace[m].pc == EndDisconnect && trace[m].frameDb == Some(d);
      }
    }
  }

  /** A connected frame that has closed has disconnected its database before. */
  lemma CloseDisconnects(held: bool, trace: seq<State>, actions: seq<Action>, j: nat, k: nat, d: nat)
    requires IsRun(held, trace, actions) && j < k <= |actions| && actions[j] == Close && trace[j].frameDb == Some(d)
    requires trace[k].pc == Ended
    ensures exists m :: j < m < k && trace[m].pc == EndDisconnect && trace[m].frameDb == Some(d)
  {
    CloseContinues(held, trace, actions, j, k, d);
  }

  // ---- why threads stop ----

  /** The step makes thread `i` stop: a failed poll of its own, or the frame's request. */
  predicate Stops(s: State, a: Action, i: nat) {
    i < |s.workers| &&
    ((a == Action.Thread(i, true) && s.workers[i].pc == InCall)
     || (a == Proceed && s.pc.StopDelete? && s.handler == Some(i)))
  }

  lemma FrameStops(held: bool, s: State, i: nat)
    requires Inv(held, s) && FrameEnabled(s) && i < |s.workers|
    ensures i < |FrameStep(held, s).workers|
    ensures FrameStep(held, s).workers[i].stop <==> s.workers[i].stop || Stops(s, Proceed, i)
  {
  }

  lemma NewUnstopped(held: bool, s: State, i: nat)
    requires FrameEnabled(s) && |s.workers| <= i < |FrameStep(held, s).workers|
    ensures !FrameStep(held, s).workers[i].stop
  {
  }

  lemma ThreadStops(held: bool, s: State, id: nat, fails: bool, i: nat)
    requires ThreadEnabled(s, id) && i < |s.workers|
    ensures |ThreadStep(held, s, id, fails).workers| == |s.workers|
    ensures ThreadStep(held, s, id, fails).workers[i].stop
       <==> s.workers[i].stop || Stops(s, Action.Thread(id, fails), i)
  {
  }

  lemma StepStops(held: bool, s: State, a: Action, i: nat)
    requires Inv(held, s) && Enabled(s, a) && i < |Apply(held, s, a).workers|
    ensures Apply(held, s, a).workers[i].stop <==> (i < |s.workers| && s.workers[i].stop) || Stops(s, a, i)
  {
    match a
    case Proceed =>
      if i < |s.workers| {
        FrameStops(held, s, i);
      } else {
        NewUnstopped(held, s, i);
      }
    case Thread(id, fails) =>
      assert |s.workers| == |Apply(held, s, a).workers|;
      ThreadStops(held, s, id, fails, i);
    case _ => assert Apply(held, s, a).workers == s.workers;
  }

  lemma FrameGrows(held: bool, s: State)
    requires FrameEnabled(s)
    ensures |FrameStep(held, s).workers| >= |s.workers|
  {
  }

  lemma StepGrows(held: bool, s: State, a: Action)
    requires Enabled(s, a)
    ensures |Apply(held, s, a).workers| >= |s.workers|
  {
    match a
    case Proceed => FrameGrows(held, s);
    case _ =>
  }

  lemma {:induction false} WorkersGrow(held: bool, trace: seq<State>, actions: seq<Action>, m: nat, k: nat)
    requires IsRun(held, trace, actions) && m <= k <= |actions|
    ensures |trace[m].workers| <= |trace[k].workers|
    decreases k
  {
    if m == k {
    } else {
      WorkersGrow(held, trace, actions, m, k - 1);
      assert Step(held, trace[k - 1], actions[k - 1], trace[k]);
      StepGrows(held, trace[k - 1], actions[k - 1]);
    }
  }

  /** A thread's stop flag is set exactly when one of its polls has failed or the frame has asked it to stop. */
  lemma {:induction false} StopsForCause(held: bool, trace: seq<State>, actions: seq<Action>, k: nat, i: nat)
    requires IsRun(held, trace, actions) && k <= |actions| && i < |trace[k].workers|
    ensures trace[k].workers[i].stop <==> exists m :: 0 <= m < k && Stops(trace[m], actions[m], i)
  {
    if k == 0 {
    } else {
      var s, a := trace[k - 1], actions[k - 1];
      RunKeepsInv(held, trace, actions, k - 1);
      assert Step(held, s, a, trace[k]);
      StepStops(held, s, a, i);
      if i < |s.workers| {
        StopsForCause(held, trace, actions, k - 1, i);
      } else {
        forall m | 0 <= m < k ensures !Stops(trace[m], actions[m], i) {
          WorkersGrow(held, trace, actions, m, k - 1);
        }
      }
    }
  }

  /** A thread that has left its loop was asked to stop, or one of its polls has failed. */
  lemma LeavesForCause(held: bool, trace: seq<State>, actions: seq<Action>, k: nat, i: nat)
    requires IsRun(held, trace, actions) && k <= |actions| && i < |trace[k].workers| && LeftLoop(trace[k].workers[i].pc)
    ensures exists m :: 0 <= m < k && Stops(trace[m], actions[m], i)
  {
    RunAttends(held, trace, actions, k);
    StopsForCause(held, trace, actions, k, i);
  }
}
