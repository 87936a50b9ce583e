/**
  What every interleaving of the frame, its windows and its threads keeps: the frame deletes no
  database while a thread still has a statement that touches it, one thread at most is at work,
  and guarded database calls never overlap.  When a window's own pointer is still good, too.
 */
module WorkerSafety {
  import opened Wrappers
  import opened WorkerProtocol

  /** The stop block has asked the thread to stop, or found none. */
  predicate StopSent(pc: MainPc) {
    pc.StopExit? || pc.WaitWant? || pc.WaitHold? || pc.WaitTest? || pc.WaitExit? || pc.WaitSleep?
  }

  predicate Stopping(pc: MainPc) {
    pc.StopWant? || pc.StopHold? || pc.StopTest? || pc.StopDelete? || StopSent(pc)
  }

  /** After the wait, or before the first thread: nobody is left that could touch a database. */
  predicate Quiet(pc: MainPc) {
    pc.FreeOld? || pc.Assign? || pc.MakeHandler? || pc.UndoFree? || pc.EndWant? || pc.EndHold? || pc.EndDisconnect?
    || pc.EndRelease? || pc.EndFree? || pc.Ended? || pc.UndoRelease?
  }

  /** The thread object exists but does not run. */
  predicate Starting(pc: MainPc) {
    pc.RunHandler? || pc.UndoWant? || pc.UndoHold? || pc.UndoClear?
  }

  predicate HasDb(pc: MainPc) {
    Stopping(pc) || pc.FreeOld? || pc.MakeHandler? || Starting(pc) || pc.UndoRelease? || pc.UndoFree?
    || pc.EndWant? || pc.EndHold? || pc.EndDisconnect? || pc.EndRelease?
  }

  predicate FrameHolds(held: bool, pc: MainPc) {
    match pc
    case StopHold(_) => true
    case WaitHold(_) => true
    case UndoHold => true
    case InMainCall(_) => true
    case CallDrop => true
    case EndHold => true
    case StopTest(_) => held
    case StopDelete(_) => held
    case StopExit(_) => held
    case WaitTest(_) => held
    case WaitExit(_) => held
    case UndoRelease => held
    case EndDisconnect => held
    case EndRelease => held
    case _ => false
  }

  predicate ThreadHolds(pc: WorkerPc) {
    pc == InCall || pc == DropGuard || pc == DtorHold || pc == DtorRelease
  }

  /** The new database the frame has been given and not yet installed. */
  function Pending(pc: MainPc): set<nat> {
    if Stopping(pc) then (match pc.goal case Replace(d) => {d} case Shutdown => {})
    else if pc.FreeOld? || pc.Assign? then {pc.db}
    else {}
  }

  /** Every thread but the newest is gone. */
  predicate OldGone(s: State) {
    forall i :: 0 <= i < |s.workers| - 1 ==> s.workers[i].pc == Gone
  }

  /**
    `m_handler` and the mutex are the newest thread's as long as its program counter says so, on the frame's
    database.
   */
  predicate NewestOwns(s: State) {
    if |s.workers| == 0 then s.handler == None
    else
      var k := |s.workers| - 1;
      var w := s.workers[k];
      && s.handler == (if Attached(w.pc) then Some(k) else None)
      && (s.lock == Owner.Thread(k) <==> ThreadHolds(w.pc))
      && (w.pc != Gone ==> s.frameDb == Some(w.db))
  }

  /** Where the newest thread can be while the frame is where it is. */
  predicate NewestWorks(held: bool, s: State) {
    if |s.workers| == 0 then !Starting(s.pc)
    else
      var w := s.workers[|s.workers| - 1];
      && (w.pc != Gone ==> !Quiet(s.pc))
      && (w.pc == Created <==> Starting(s.pc))
      && (StopSent(s.pc) && Attached(w.pc) ==> w.stop)
      && (held ==> w.pc != DtorClear)
      && (!held ==> w.pc != DtorRelease)
      && (held && s.pc.StopDelete? ==> Attached(w.pc))
  }

  /** The databases alive are the frame's and the one it is about to install: none is leaked. */
  predicate DbInv(s: State) {
    && s.live == Installed(s) + Pending(s.pc)
    && Installed(s) !! Pending(s.pc)
    && (forall d :: d in s.live ==> d < s.nextDb)
    && (HasDb(s.pc) ==> s.frameDb.Some?)
    && (s.pc.Assign? || s.pc.Ended? ==> s.frameDb.None?)
  }

  /**
    Documents' pointers are older than any database to come, and no connection's database is one of a Create
    Database.
   */
  predicate ViewInv(s: State) {
    && (forall d :: d in s.views.documents ==> d < s.nextDb && d !in s.views.extra)
    && (forall d :: d in s.views.extra ==> d < s.nextDb && d !in s.live)
    && (AtView(s.pc) ==> s.pc.db in s.views.documents)
  }

  predicate LockInv(held: bool, s: State) {
    && (s.lock == Frame <==> FrameHolds(held, s.pc))
    && (s.lock.Thread? ==> s.lock.id == |s.workers| - 1)
    && (s.pc.UndoClear? ==> !held)
    && (s.pc.UndoRelease? ==> held)
  }

  /** With a guard that spans the test, the stop finds a thread. */
  predicate DeleteAfterFirst(held: bool, s: State) {
    held && s.pc.StopDelete? ==> |s.workers| > 0
  }

  predicate ThreadInv(held: bool, s: State) {
    OldGone(s) && NewestOwns(s) && NewestWorks(held, s) && DeleteAfterFirst(held, s)
  }

  predicate Inv(held: bool, s: State) {
    DbInv(s) && ViewInv(s) && LockInv(held, s) && ThreadInv(held, s)
  }

  /** What a user does at an idle frame. */
  predicate IsEvent(a: Action) {
    a.Connect? || a.Close? || a.OpenView? || a.ViewCall? || a.CreateDatabase?
  }

  lemma StopKeepsDb(held: bool, s: State)
    requires DbInv(s) && FrameEnabled(s) && AtStop(s.pc)
    ensures DbInv(StopStep(held, s))
  {
  }

  lemma StopKeepsLock(held: bool, s: State)
    requires LockInv(held, s) && ThreadInv(held, s) && FrameEnabled(s) && AtStop(s.pc)
    ensures LockInv(held, StopStep(held, s))
  {
  }

  lemma StopKeepsOld(held: bool, s: State)
    requires LockInv(held, s) && ThreadInv(held, s) && FrameEnabled(s) && AtStop(s.pc)
    ensures OldGone(StopStep(held, s))
  {
  }

  lemma StopKeepsOwns(held: bool, s: State)
    requires LockInv(held, s) && ThreadInv(held, s) && FrameEnabled(s) && AtStop(s.pc)
    ensures NewestOwns(StopStep(held, s))
  {
  }

  lemma StopSendKeepsWorks(held: bool, s: State)
    requires LockInv(held, s) && ThreadInv(held, s) && s.pc.StopDelete?
    ensures NewestWorks(held, StopStep(held, s)) && DeleteAfterFirst(held, StopStep(held, s))
  {
  }

  lemma StopPassKeepsWorks(held: bool, s: State)
    requires LockInv(held, s) && ThreadInv(held, s) && FrameEnabled(s) && AtStop(s.pc) && !s.pc.StopDelete?
    ensures NewestWorks(held, StopStep(held, s)) && DeleteAfterFirst(held, StopStep(held, s))
  {
  }

  lemma StopKeepsWorks(held: bool, s: State)
    requires LockInv(held, s) && ThreadInv(held, s) && FrameEnabled(s) && AtStop(s.pc)
    ensures NewestWorks(held, StopStep(held, s)) && DeleteAfterFirst(held, StopStep(held, s))
  {
    if s.pc.StopDelete? {
      StopSendKeepsWorks(held, s);
    } else {
      StopPassKeepsWorks(held, s);
    }
  }

  lemma WaitKeepsDb(held: bool, s: State)
    requires DbInv(s) && FrameEnabled(s) && AtWait(s.pc)
    ensures DbInv(WaitStep(held, s))
  {
  }

  lemma WaitKeepsLock(held: bool, s: State)
    requires LockInv(held, s) && ThreadInv(held, s) && FrameEnabled(s) && AtWait(s.pc)
    ensures LockInv(held, WaitStep(held, s))
  {
  }

  lemma WaitKeepsOld(held: bool, s: State)
    requires LockInv(held, s) && ThreadInv(held, s) && FrameEnabled(s) && AtWait(s.pc)
    ensures OldGone(WaitStep(held, s))
  {
  }

  lemma WaitKeepsOwns(held: bool, s: State)
    requires LockInv(held, s) && ThreadInv(held, s) && FrameEnabled(s) && AtWait(s.pc)
    ensures NewestOwns(WaitStep(held, s))
  {
  }

  lemma WaitKeepsWorks(held: bool, s: State)
    requires LockInv(held, s) && ThreadInv(held, s) && FrameEnabled(s) && AtWait(s.pc)
    ensures NewestWorks(held, WaitStep(held, s)) && DeleteAfterFirst(held, WaitStep(held, s))
  {
  }

  lemma ReplaceKeepsDb(held: bool, s: State)
    requires DbInv(s) && FrameEnabled(s) && AtReplace(s.pc)
    ensures DbInv(ReplaceStep(s))
  {
  }

  lemma ReplaceKeepsLock(held: bool, s: State)
    requires LockInv(held, s) && ThreadInv(held, s) && FrameEnabled(s) && AtReplace(s.pc)
    ensures LockInv(held, ReplaceStep(s))
  {
  }

  lemma ReplaceKeepsOld(held: bool, s: State)
    requires LockInv(held, s) && ThreadInv(held, s) && FrameEnabled(s) && AtReplace(s.pc)
    ensures OldGone(ReplaceStep(s))
  {
  }

  lemma ReplaceKeepsOwns(held: bool, s: State)
    requires LockInv(held, s) && ThreadInv(held, s) && FrameEnabled(s) && AtReplace(s.pc)
    ensures NewestOwns(ReplaceStep(s))
  {
  }

  lemma ReplaceKeepsWorks(held: bool, s: State)
    requires LockInv(held, s) && ThreadInv(held, s) && FrameEnabled(s) && AtReplace(s.pc)
    ensures NewestWorks(held, ReplaceStep(s)) && DeleteAfterFirst(held, ReplaceStep(s))
  {
  }

  lemma UndoKeepsDb(held: bool, s: State)
    requires DbInv(s) && FrameEnabled(s) && AtUndo(s.pc)
    ensures DbInv(UndoStep(held, s))
  {
  }

  lemma UndoKeepsLock(held: bool, s: State)
    requires LockInv(held, s) && ThreadInv(held, s) && FrameEnabled(s) && AtUndo(s.pc)
    ensures LockInv(held, UndoStep(held, s))
  {
  }

  lemma UndoKeepsOld(held: bool, s: State)
    requires LockInv(held, s) && ThreadInv(held, s) && FrameEnabled(s) && AtUndo(s.pc)
    ensures OldGone(UndoStep(held, s))
  {
  }

  lemma UndoKeepsOwns(held: bool, s: State)
    requires LockInv(held, s) && ThreadInv(held, s) && FrameEnabled(s) && AtUndo(s.pc)
    ensures NewestOwns(UndoStep(held, s))
  {
  }

  lemma UndoKeepsWorks(held: bool, s: State)
    requires LockInv(held, s) && ThreadInv(held, s) && FrameEnabled(s) && AtUndo(s.pc)
    ensures NewestWorks(held, UndoStep(held, s)) && DeleteAfterFirst(held, UndoStep(held, s))
  {
  }

  lemma OtherKeepsDb(held: bool, s: State)
    requires DbInv(s) && FrameEnabled(s) && AtOther(s.pc)
    ensures DbInv(OtherStep(held, s))
  {
  }

  lemma OtherKeepsLock(held: bool, s: State)
    requires LockInv(held, s) && ThreadInv(held, s) && FrameEnabled(s) && AtOther(s.pc)
    ensures LockInv(held, OtherStep(held, s))
  {
  }

  lemma OtherKeepsOld(held: bool, s: State)
    requires LockInv(held, s) && ThreadInv(held, s) && FrameEnabled(s) && AtOther(s.pc)
    ensures OldGone(OtherStep(held, s))
  {
  }

  lemma OtherKeepsOwns(held: bool, s: State)
    requires LockInv(held, s) && ThreadInv(held, s) && FrameEnabled(s) && AtOther(s.pc)
    ensures NewestOwns(OtherStep(held, s))
  {
  }

  lemma OtherKeepsWorks(held: bool, s: State)
    requires LockInv(held, s) && ThreadInv(held, s) && FrameEnabled(s) && AtOther(s.pc)
    ensures NewestWorks(held, OtherStep(held, s)) && DeleteAfterFirst(held, OtherStep(held, s))
  {
  }

  lemma EventKeepsDb(held: bool, s: State, a: Action)
    requires DbInv(s) && s.pc == Idle && Enabled(s, a) && IsEvent(a)
    ensures DbInv(EventStep(s, a))
  {
  }

  lemma EventKeepsLock(held: bool, s: State, a: Action)
    requires LockInv(held, s) && ThreadInv(held, s) && s.pc == Idle && Enabled(s, a)
    requires IsEvent(a)
    ensures LockInv(held, EventStep(s, a))
  {
  }

  lemma EventKeepsOld(held: bool, s: State, a: Action)
    requires LockInv(held, s) && ThreadInv(held, s) && s.pc == Idle && Enabled(s, a)
    requires IsEvent(a)
    ensures OldGone(EventStep(s, a))
  {
  }

  lemma EventKeepsOwns(held: bool, s: State, a: Action)
    requires LockInv(held, s) && ThreadInv(held, s) && s.pc == Idle && Enabled(s, a)
    requires IsEvent(a)
    ensures NewestOwns(EventStep(s, a))
  {
  }

  lemma EventKeepsWorks(held: bool, s: State, a: Action)
    requires LockInv(held, s) && ThreadInv(held, s) && s.pc == Idle && Enabled(s, a)
    requires IsEvent(a)
    ensures NewestWorks(held, EventStep(s, a)) && DeleteAfterFirst(held, EventStep(s, a))
  {
  }

  lemma StopKeepsViews(held: bool, s: State)
    requires DbInv(s) && ViewInv(s) && FrameEnabled(s) && AtStop(s.pc)
    ensures ViewInv(StopStep(held, s))
  {
  }

  lemma WaitKeepsViews(held: bool, s: State)
    requires DbInv(s) && ViewInv(s) && FrameEnabled(s) && AtWait(s.pc)
    ensures ViewInv(WaitStep(held, s))
  {
  }

  lemma ReplaceKeepsViews(held: bool, s: State)
    requires DbInv(s) && ViewInv(s) && FrameEnabled(s) && AtReplace(s.pc)
    ensures ViewInv(ReplaceStep(s))
  {
  }

  lemma UndoKeepsViews(held: bool, s: State)
    requires DbInv(s) && ViewInv(s) && FrameEnabled(s) && AtUndo(s.pc)
    ensures ViewInv(UndoStep(held, s))
  {
  }

  lemma OtherKeepsViews(held: bool, s: State)
    requires DbInv(s) && ViewInv(s) && FrameEnabled(s) && AtOther(s.pc)
    ensures ViewInv(OtherStep(held, s))
  {
  }

  lemma EventKeepsViews(held: bool, s: State, a: Action)
    requires DbInv(s) && ViewInv(s) && s.pc == Idle && Enabled(s, a) && IsEvent(a)
    ensures ViewInv(EventStep(s, a))
  {
  }

  lemma FailureKeeps(held: bool, s: State)
    requires Inv(held, s) && s.pc == RunHandler
    ensures Inv(held, s.(pc := UndoWant))
  {
  }

  lemma CancelKeeps(held: bool, s: State)
    requires Inv(held, s) && s.pc.Creating?
    ensures Inv(held, s.(pc := Idle))
  {
  }

  lemma ThreadKeepsDb(held: bool, s: State, id: nat, fails: bool)
    requires DbInv(s) && ThreadEnabled(s, id)
    ensures DbInv(ThreadStep(held, s, id, fails))
  {
  }

  lemma ThreadKeepsLock(held: bool, s: State, id: nat, fails: bool)
    requires LockInv(held, s) && ThreadInv(held, s) && ThreadEnabled(s, id)
    ensures LockInv(held, ThreadStep(held, s, id, fails))
  {
    assert id == |s.workers| - 1;
  }

  lemma ThreadKeepsOld(held: bool, s: State, id: nat, fails: bool)
    requires LockInv(held, s) && ThreadInv(held, s) && ThreadEnabled(s, id)
    ensures OldGone(ThreadStep(held, s, id, fails))
  {
    assert id == |s.workers| - 1;
  }

  lemma ThreadKeepsOwns(held: bool, s: State, id: nat, fails: bool)
    requires LockInv(held, s) && ThreadInv(held, s) && ThreadEnabled(s, id)
    ensures NewestOwns(ThreadStep(held, s, id, fails))
  {
    assert id == |s.workers| - 1;
  }

  lemma ThreadKeepsWorks(held: bool, s: State, id: nat, fails: bool)
    requires LockInv(held, s) && ThreadInv(held, s) && ThreadEnabled(s, id)
    ensures NewestWorks(held, ThreadStep(held, s, id, fails)) && DeleteAfterFirst(held, ThreadStep(held, s, id, fails))
  {
    assert id == |s.workers| - 1;
  }

  lemma StopKeepsInv(held: bool, s: State)
    requires Inv(held, s) && FrameEnabled(s) && AtStop(s.pc)
    ensures Inv(held, StopStep(held, s))
  {
    StopKeepsDb(held, s);
    StopKeepsViews(held, s);
    StopKeepsLock(held, s);
    StopKeepsOld(held, s);
    StopKeepsOwns(held, s);
    StopKeepsWorks(held, s);
  }

  lemma WaitKeepsInv(held: bool, s: State)
    requires Inv(held, s) && FrameEnabled(s) && AtWait(s.pc)
    ensures Inv(held, WaitStep(held, s))
  {
    WaitKeepsDb(held, s);
    WaitKeepsViews(held, s);
    WaitKeepsLock(held, s);
    WaitKeepsOld(held, s);
    WaitKeepsOwns(held, s);
    WaitKeepsWorks(held, s);
  }

  lemma ReplaceKeepsInv(held: bool, s: State)
    requires Inv(held, s) && FrameEnabled(s) && AtReplace(s.pc)
    ensures Inv(held, ReplaceStep(s))
  {
    ReplaceKeepsDb(held, s);
    ReplaceKeepsViews(held, s);
    ReplaceKeepsLock(held, s);
    ReplaceKeepsOld(held, s);
    ReplaceKeepsOwns(held, s);
    ReplaceKeepsWorks(held, s);
  }

  lemma UndoKeepsInv(held: bool, s: State)
    requires Inv(held, s) && FrameEnabled(s) && AtUndo(s.pc)
    ensures Inv(held, UndoStep(held, s))
  {
    UndoKeepsDb(held, s);
    UndoKeepsViews(held, s);
    UndoKeepsLock(held, s);
    UndoKeepsOld(held, s);
    UndoKeepsOwns(held, s);
    UndoKeepsWorks(held, s);
  }

  lemma OtherKeepsInv(held: bool, s: State)
    requires Inv(held, s) && FrameEnabled(s) && AtOther(s.pc)
    ensures Inv(held, OtherStep(held, s))
  {
    OtherKeepsDb(held, s);
    OtherKeepsViews(held, s);
    OtherKeepsLock(held, s);
    OtherKeepsOld(held, s);
    OtherKeepsOwns(held, s);
    OtherKeepsWorks(held, s);
  }

  lemma EventKeepsInv(held: bool, s: State, a: Action)
    requires Inv(held, s) && s.pc == Idle && Enabled(s, a) && IsEvent(a)
    ensures Inv(held, EventStep(s, a))
  {
    EventKeepsDb(held, s, a);
    EventKeepsViews(held, s, a);
    EventKeepsLock(held, s, a);
    EventKeepsOld(held, s, a);
    EventKeepsOwns(held, s, a);
    EventKeepsWorks(held, s, a);
  }

  lemma ThreadKeepsViews(held: bool, s: State, id: nat, fails: bool)
    requires ViewInv(s) && ThreadEnabled(s, id)
    ensures ViewInv(ThreadStep(held, s, id, fails))
  {
  }

  lemma ThreadKeepsInv(held: bool, s: State, id: nat, fails: bool)
    requires Inv(held, s) && ThreadEnabled(s, id)
    ensures Inv(held, ThreadStep(held, s, id, fails))
  {
    ThreadKeepsDb(held, s, id, fails);
    ThreadKeepsViews(held, s, id, fails);
    ThreadKeepsLock(held, s, id, fails);
    ThreadKeepsOld(held, s, id, fails);
    ThreadKeepsOwns(held, s, id, fails);
    ThreadKeepsWorks(held, s, id, fails);
  }

  lemma FrameKeepsInv(held: bool, s: State)
    requires Inv(held, s) && FrameEnabled(s)
    ensures Inv(held, FrameStep(held, s))
  {
    if AtStop(s.pc) {
      StopKeepsInv(held, s);
    } else if AtWait(s.pc) {
      WaitKeepsInv(held, s);
    } else if AtReplace(s.pc) {
      ReplaceKeepsInv(held, s);
    } else if AtUndo(s.pc) {
      UndoKeepsInv(held, s);
    } else {
      OtherKeepsInv(held, s);
    }
  }

  lemma StepKeepsInv(held: bool, s: State, a: Action, t: State)
    requires Inv(held, s) && Step(held, s, a, t)
    ensures Inv(held, t)
  {
    match a
    case Proceed => FrameKeepsInv(held, s);
    case Thread(id, fails) => ThreadKeepsInv(held, s, id, fails);
    case RunFails => FailureKeeps(held, s);
    case CreateCancelled => CancelKeeps(held, s);
    case _ => EventKeepsInv(held, s, a);
  }

  lemma {:induction false} RunKeepsInv(held: bool, trace: seq<State>, actions: seq<Action>, k: nat)
    requires IsRun(held, trace, actions) && k <= |actions|
    ensures Inv(held, trace[k])
  {
    if k == 0 {
    } else {
      RunKeepsInv(held, trace, actions, k - 1);
      StepKeepsInv(held, trace[k - 1], actions[k - 1], trace[k]);
    }
  }

  lemma FrameKeepsViews(held: bool, s: State)
    requires FrameEnabled(s) && !s.pc.Creating?
    ensures FrameStep(held, s).views == s.views && !FrameStep(held, s).pc.Creating?
  {
  }

  lemma ThreadLeavesViews(held: bool, s: State, id: nat, fails: bool)
    requires ThreadEnabled(s, id)
    ensures ThreadStep(held, s, id, fails).views == s.views && ThreadStep(held, s, id, fails).pc == s.pc
  {
  }

  lemma KeepsReplaced(held: bool, s: State, a: Action, t: State)
    requires Step(held, s, a, t) && !a.CreateDatabase? && !s.pc.Creating?
    ensures t.views.replaced == s.views.replaced && t.views.extra == s.views.extra && !t.pc.Creating?
  {
    match a
    case Proceed => FrameKeepsViews(held, s);
    case Thread(id, fails) => ThreadLeavesViews(held, s, id, fails);
    case _ =>
  }

  /** Without a Create Database no view deletes or makes a database. */
  lemma {:induction false} NothingReplaced(held: bool, trace: seq<State>, actions: seq<Action>, k: nat)
    requires IsRun(held, trace, actions) && k <= |actions|
    requires forall i :: 0 <= i < k ==> !actions[i].CreateDatabase?
    ensures trace[k].views.replaced == {} && trace[k].views.extra == {} && !trace[k].pc.Creating?
  {
    if k == 0 {
    } else {
      NothingReplaced(held, trace, actions, k - 1);
      KeepsReplaced(held, trace[k - 1], actions[k - 1], trace[k]);
    }
  }

  lemma ReachableInv(held: bool, s: State)
    requires Reachable(held, s)
    ensures Inv(held, s)
  {
    var trace: seq<State>, actions: seq<Action> :| IsRun(held, trace, actions) && trace[|actions|] == s;
    RunKeepsInv(held, trace, actions, |actions|);
  }

  // ---- main results: they hold for both readings of the guards unless `held` is named ----

  /**
    A thread that may still touch its database finds it alive unless a view's Create Database has deleted it, and so
    does the frame.  A view finds its document's database alive exactly when it is still the frame's, too: a
    reconnect deletes it under the open windows.
   */
  lemma NoUseAfterDelete(held: bool, s: State)
    requires Reachable(held, s)
    ensures forall i :: 0 <= i < |s.workers| && MayTouch(s.workers[i].pc) ==>
              (s.workers[i].db in Alive(s) <==> s.workers[i].db !in s.views.replaced)
    ensures FrameTouches(s).Some? && !AtView(s.pc) ==>
              (FrameTouches(s).value in Alive(s) <==> FrameTouches(s).value !in s.views.replaced)
    ensures AtView(s.pc) ==>
              (s.pc.db in Alive(s) <==> s.frameDb == Some(s.pc.db) && s.pc.db !in s.views.replaced)
  {
    ReachableInv(held, s);
  }

  /**
    In a run without a Create Database threads, and the frame but for its views' statements, find their databases
    alive.
   */
  lemma AliveWithoutCreate(held: bool, trace: seq<State>, actions: seq<Action>, k: nat)
    requires IsRun(held, trace, actions) && k <= |actions|
    requires forall i :: 0 <= i < k ==> !actions[i].CreateDatabase?
    ensures
      var s := trace[k];
      && (forall i :: 0 <= i < |s.workers| && MayTouch(s.workers[i].pc) ==> s.workers[i].db in Alive(s))
      && (FrameTouches(s).Some? && !AtView(s.pc) ==> FrameTouches(s).value in Alive(s))
      && (AtView(s.pc) ==> (s.pc.db in Alive(s) <==> s.frameDb == Some(s.pc.db)))
      && Alive(s) == Installed(s) + Pending(s.pc)
  {
    RunKeepsInv(held, trace, actions, k);
    NothingReplaced(held, trace, actions, k);
  }

  /** A statement that deletes a database is the frame's own deletion, or a view's Create Database. */
  lemma WhoDeletes(held: bool, s: State, a: Action, d: nat)
    requires Enabled(s, a) && d in Alive(s) && d !in Alive(Apply(held, s, a))
    ensures a == Proceed
    ensures s.pc == Creating(d) || ((s.pc.FreeOld? || s.pc.UndoFree? || s.pc.EndFree?) && s.frameDb == Some(d))
  {
    match a
    case Proceed =>
    case Thread(id, fails) =>
    case _ =>
  }

  /** No step but a view's Create Database deletes a database that some thread may still touch. */
  lemma DeletesOnlyAbandoned(held: bool, s: State, a: Action, d: nat)
    requires Reachable(held, s) && Enabled(s, a) && d in Alive(s) && d !in Alive(Apply(held, s, a))
    ensures s.pc == Creating(d) || s.handler == None
    ensures s.pc == Creating(d) ||
            forall i :: 0 <= i < |s.workers| && s.workers[i].db == d ==> s.workers[i].pc == Gone
  {
    ReachableInv(held, s);
    WhoDeletes(held, s, a, d);
  }

  /** One thread at most can still touch a database, and `m_handler` is that thread, on `m_db`. */
  lemma OneThreadAtWork(held: bool, s: State)
    requires Reachable(held, s)
    ensures forall i, j ::
              (0 <= i < |s.workers| && 0 <= j < |s.workers| && MayTouch(s.workers[i].pc) && MayTouch(s.workers[j].pc))
              ==> i == j
    ensures s.handler.Some? ==>
              s.handler.value < |s.workers| && s.frameDb == Some(s.workers[s.handler.value].db)
    ensures forall i :: 0 <= i < |s.workers| ==> (s.handler == Some(i) <==> Attached(s.workers[i].pc))
  {
    ReachableInv(held, s);
  }

  /** Polls and the views' database calls exclude each other. */
  lemma CallsNeverOverlap(held: bool, s: State)
    requires Reachable(held, s)
    ensures forall i :: 0 <= i < |s.workers| && s.workers[i].pc == InCall ==> !s.pc.InMainCall?
    ensures forall i, j ::
              (0 <= i < |s.workers| && 0 <= j < |s.workers| && s.workers[i].pc == InCall && s.workers[j].pc == InCall)
              ==> i == j
  {
    ReachableInv(held, s);
  }

  /**
    The databases alive are exactly the frame's and the one being installed, as far as no view has deleted them, and
    those that a Create Database has made and lost; a closed frame leaves only these.
   */
  lemma NoDatabaseLeaks(held: bool, s: State)
    requires Reachable(held, s)
    ensures Alive(s) == (Installed(s) + Pending(s.pc) - s.views.replaced) + s.views.extra
    ensures s.pc.Idle? ==> Alive(s) == (Installed(s) - s.views.replaced) + s.views.extra
    ensures s.pc.Ended? ==> Alive(s) == s.views.extra
  {
    ReachableInv(held, s);
  }

  /** Whoever holds the mutex can go on without it, so nobody waits for it forever in a cycle. */
  lemma NoDeadlock(held: bool, s: State)
    requires Reachable(held, s)
    ensures s.lock == Frame ==> FrameEnabled(s)
    ensures s.lock.Thread? ==> ThreadEnabled(s, s.lock.id)
    ensures !FrameEnabled(s) && !s.pc.Idle? && !s.pc.Ended? ==> s.lock.Thread? && ThreadEnabled(s, s.lock.id)
    ensures forall i: nat :: i < |s.workers| && s.workers[i].pc != Created
                  && s.workers[i].pc != Gone && !ThreadEnabled(s, i)
              ==> s.lock == Frame
  {
    ReachableInv(held, s);
  }

  // ---- which threads still touch their database ----

  lemma FrameStartsNone(held: bool, s: State, i: nat)
    requires Inv(held, s) && FrameEnabled(s) && i < |s.workers|
    ensures i < |FrameStep(held, s).workers|
    ensures !MayTouch(s.workers[i].pc) ==> !MayTouch(FrameStep(held, s).workers[i].pc)
  {
  }

  lemma ThreadStartsNone(held: bool, s: State, id: nat, fails: bool, i: nat)
    requires ThreadEnabled(s, id) && i < |s.workers|
    ensures i < |ThreadStep(held, s, id, fails).workers|
    ensures !MayTouch(s.workers[i].pc) ==> !MayTouch(ThreadStep(held, s, id, fails).workers[i].pc)
  {
  }

  /** A thread at a statement that touches its database may touch it; one that may not never does again. */
  lemma TouchesNoMore(held: bool, s: State, a: Action, t: State, i: nat)
    requires Reachable(held, s) && Step(held, s, a, t) && i < |s.workers|
    ensures Touches(s.workers[i].pc) ==> MayTouch(s.workers[i].pc)
    ensures i < |t.workers| && (!MayTouch(s.workers[i].pc) ==> !MayTouch(t.workers[i].pc))
  {
    ReachableInv(held, s);
    match a
    case Proceed => FrameStartsNone(held, s, i);
    case Thread(id, fails) => ThreadStartsNone(held, s, id, fails, i);
    case _ => assert t.workers == s.workers;
  }

  /** A thread that may touch its database does so now, or its next statement leaves it able to. */
  lemma TouchesAhead(held: bool, s: State, id: nat, fails: bool)
    requires ThreadEnabled(s, id) && MayTouch(s.workers[id].pc) && !Touches(s.workers[id].pc)
    ensures MayTouch(ThreadStep(held, s, id, fails).workers[id].pc)
  {
  }

  // ---- the handler asked to stop ----

  /** `m_handler->Delete()` is about to be called and `m_handler` has been cleared since the test. */
  predicate AsksDeadHandler(s: State) {
    s.pc.StopDelete? && s.handler.None?
  }

  lemma ReachableStep(held: bool, s: State, a: Action)
    requires Reachable(held, s) && Enabled(s, a)
    ensures Reachable(held, Apply(held, s, a))
  {
    var trace: seq<State>, actions: seq<Action> :| IsRun(held, trace, actions) && trace[|actions|] == s;
    var t := Apply(held, s, a);
    assert IsRun(held, trace + [t], actions + [a]);
    assert (trace + [t])[|actions + [a]|] == t;
  }

  lemma InitReachable(held: bool)
    ensures Reachable(held, Init())
  {
    assert IsRun(held, [Init()], []);
    assert [Init()][0] == Init();
  }

  /** The only thread started and running, the frame about to stop it. */
  function Playing(pc: WorkerPc, stop: bool, lock: Owner): State {
    State({0}, 1, Some(0), Some(0), [Worker(0, pc, stop)], lock, StopWant(Shutdown), NO_VIEWS)
  }

  lemma Plays(s: State, a: Action, t: State)
    requires Reachable(false, s) && Step(false, s, a, t)
    ensures Reachable(false, t)
  {
    ReachableStep(false, s, a);
  }

  /** Connected, the first thread started. */
  function Running(views: Views): State {
    State({0}, 1, Some(0), Some(0), [Worker(0, TestStop, false)], NoOne, Idle, views)
  }

  lemma FirstThreadRunning()
    ensures Reachable(false, Running(NO_VIEWS))
  {
    var assigning := State({0}, 1, None, None, [], NoOne, Assign(0), NO_VIEWS);
    var making := State({0}, 1, Some(0), None, [], NoOne, MakeHandler, NO_VIEWS);
    var made := State({0}, 1, Some(0), Some(0), [Worker(0, Created, false)], NoOne, RunHandler, NO_VIEWS);
    InitReachable(false);
    Plays(Init(), Connect, assigning);
    Plays(assigning, Proceed, making);
    Plays(making, Proceed, made);
    Plays(made, Proceed, Running(NO_VIEWS));
  }

  lemma FirstThreadPlaying()
    ensures Reachable(false, Playing(TestStop, false, NoOne))
  {
    FirstThreadRunning();
    Plays(Running(NO_VIEWS), Close, Playing(TestStop, false, NoOne));
  }

  // ---- databases deleted under open windows ----

  /** A window open on the first database. */
  const ONE_WINDOW := Views({0}, {}, {})

  lemma WindowOpened()
    ensures Reachable(false, Running(ONE_WINDOW))
  {
    FirstThreadRunning();
    Plays(Running(NO_VIEWS), OpenView, Running(ONE_WINDOW));
  }

  /** The frame on its way from the first database to the second, with that window open. */
  function Reconnecting(pc: MainPc, w: WorkerPc, stop: bool, lock: Owner): State {
    State({0, 1}, 2, Some(0), if Attached(w) then Some(0) else None, [Worker(0, w, stop)], lock, pc, ONE_WINDOW)
  }

  lemma ReconnectStops()
    ensures Reachable(false, Reconnecting(WaitWant(Replace(1)), TestStop, true, NoOne))
  {
    var g := Replace(1);
    WindowOpened();
    Plays(Running(ONE_WINDOW), Connect, Reconnecting(StopWant(g), TestStop, false, NoOne));
    Plays(Reconnecting(StopWant(g), TestStop, false, NoOne), Proceed,
          Reconnecting(StopHold(g), TestStop, false, Frame));
    Plays(Reconnecting(StopHold(g), TestStop, false, Frame), Proceed,
          Reconnecting(StopTest(g), TestStop, false, NoOne));
    Plays(Reconnecting(StopTest(g), TestStop, false, NoOne), Proceed,
          Reconnecting(StopDelete(g), TestStop, false, NoOne));
    Plays(Reconnecting(StopDelete(g), TestStop, false, NoOne), Proceed,
          Reconnecting(StopExit(g), TestStop, true, NoOne));
    Plays(Reconnecting(StopExit(g), TestStop, true, NoOne), Proceed, Reconnecting(WaitWant(g), TestStop, true, NoOne));
  }

  lemma ReconnectStopped()
    ensures Reachable(false, Reconnecting(WaitWant(Replace(1)), Gone, true, NoOne))
  {
    var g := Replace(1);
    var w, id, poll := WaitWant(g), Owner.Thread(0), Action.Thread(0, false);
    ReconnectStops();
    Plays(Reconnecting(w, TestStop, true, NoOne), poll, Reconnecting(w, Reporting, true, NoOne));
    Plays(Reconnecting(w, Reporting, true, NoOne), poll, Reconnecting(w, DtorWant, true, NoOne));
    Plays(Reconnecting(w, DtorWant, true, NoOne), poll, Reconnecting(w, DtorHold, true, id));
    Plays(Reconnecting(w, DtorHold, true, id), poll, Reconnecting(w, DtorClear, true, NoOne));
    Plays(Reconnecting(w, DtorClear, true, NoOne), poll, Reconnecting(w, Gone, true, NoOne));
  }

  lemma ReconnectWaits()
    ensures Reachable(false, Reconnecting(FreeOld(1), Gone, true, NoOne))
  {
    var g := Replace(1);
    ReconnectStopped();
    Plays(Reconnecting(WaitWant(g), Gone, true, NoOne), Proceed, Reconnecting(WaitHold(g), Gone, true, Frame));
    Plays(Reconnecting(WaitHold(g), Gone, true, Frame), Proceed, Reconnecting(WaitTest(g), Gone, true, NoOne));
    Plays(Reconnecting(WaitTest(g), Gone, true, NoOne), Proceed, Reconnecting(FreeOld(1), Gone, true, NoOne));
  }

  /** Reconnected, the window still open. */
  function Reconnected(frameDb: Option<nat>, handler: Option<nat>, workers: seq<Worker>, pc: MainPc): State {
    State({1}, 2, frameDb, handler, workers, NoOne, pc, ONE_WINDOW)
  }

  /** Connect, open a window, connect again, use the window: its call finds its database deleted. */
  lemma ReconnectUnderWindow()
    ensures exists s :: Reachable(false, s) && s.pc == CallWant(0) && 0 !in Alive(s)
  {
    var gone, made, run := Worker(0, Gone, true), Worker(1, Created, false), Worker(1, TestStop, false);
    var used := Reconnected(Some(1), Some(1), [gone, run], CallWant(0));
    ReconnectWaits();
    Plays(Reconnecting(FreeOld(1), Gone, true, NoOne), Proceed, Reconnected(None, None, [gone], Assign(1)));
    Plays(Reconnected(None, None, [gone], Assign(1)), Proceed, Reconnected(Some(1), None, [gone], MakeHandler));
    Plays(Reconnected(Some(1), None, [gone], MakeHandler), Proceed,
          Reconnected(Some(1), Some(1), [gone, made], RunHandler));
    Plays(Reconnected(Some(1), Some(1), [gone, made], RunHandler), Proceed,
          Reconnected(Some(1), Some(1), [gone, run], Idle));
    Plays(Reconnected(Some(1), Some(1), [gone, run], Idle), ViewCall(0), used);
    assert 0 !in Alive(used);
  }

  /** A window's Create Database deletes the database under the thread that polls it. */
  lemma CreateUnderThread()
    ensures exists s :: Reachable(false, s) && |s.workers| == 1 && Touches(s.workers[0].pc)
                        && s.workers[0].db !in Alive(s)
  {
    var creating := Running(ONE_WINDOW).(pc := Creating(0));
    var created := State({0}, 2, Some(0), Some(0), [Worker(0, TestStop, false)], NoOne, Idle, Views({0}, {0}, {1}));
    var polling := created.(workers := [Worker(0, WantGuard, false)]);
    WindowOpened();
    Plays(Running(ONE_WINDOW), CreateDatabase(0), creating);
    Plays(creating, Proceed, created);
    Plays(created, Action.Thread(0, false), polling);
    assert polling.workers[0].db !in Alive(polling);
  }

  /** A thread that has stopped by itself and is about to clear `m_handler`, the frame closing. */
  lemma SelfStoppedThread()
    ensures Reachable(false, Playing(DtorClear, true, NoOne))
  {
    var thread := Owner.Thread(0);
    var poll := Action.Thread(0, true);
    FirstThreadPlaying();
    Plays(Playing(TestStop, false, NoOne), poll, Playing(WantGuard, false, NoOne));
    Plays(Playing(WantGuard, false, NoOne), poll, Playing(InCall, false, thread));
    Plays(Playing(InCall, false, thread), poll, Playing(DropGuard, true, thread));
    Plays(Playing(DropGuard, true, thread), poll, Playing(Asleep, true, NoOne));
    Plays(Playing(Asleep, true, NoOne), poll, Playing(TestStop, true, NoOne));
    Plays(Playing(TestStop, true, NoOne), poll, Playing(Reporting, true, NoOne));
    Plays(Playing(Reporting, true, NoOne), poll, Playing(DtorWant, true, NoOne));
    Plays(Playing(DtorWant, true, NoOne), poll, Playing(DtorHold, true, thread));
    Plays(Playing(DtorHold, true, thread), poll, Playing(DtorClear, true, NoOne));
  }

  /**
    `Delete()` is called on a handler that still exists in every run exactly when the guard
    spans the test and the call.  With the temporaries of the code a thread that stops by
    itself can clear `m_handler` in between.
   */
  lemma DeleteMeetsLiveHandler(held: bool)
    ensures held <==> forall s :: Reachable(held, s) ==> !AsksDeadHandler(s)
  {
    if held {
      forall s | Reachable(held, s) ensures !AsksDeadHandler(s) {
        ReachableInv(held, s);
      }
    } else {
      SelfStoppedThread();
      var s := Playing(DtorClear, true, NoOne);
      ReachableStep(false, s, Proceed);
      s := Apply(false, s, Proceed);
      ReachableStep(false, s, Proceed);
      s := Apply(false, s, Proceed);
      ReachableStep(false, s, Proceed);
      s := Apply(false, s, Proceed);
      ReachableStep(false, s, Action.Thread(0, true));
      s := Apply(false, s, Action.Thread(0, true));
      assert Reachable(held, s) && AsksDeadHandler(s);
    }
  }
}
