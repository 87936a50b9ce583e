/**
  The life of the polling thread (`NewTableHandler`) beside the frame that starts, stops and
  waits for it (`MainFrame::Connect`, `OnClose`, `~MainFrame`), as a state machine over the
  program counters of both.  One mutex is shared by all of them.

  `held` says how long the unnamed guards live.  `false` is the code: each of them is a
  temporary that releases the mutex before the next statement.  `true` is a guard with a name,
  which releases it at the end of the enclosing block.
 */
module WorkerProtocol {

  import opened Wrappers

  /** Where the thread is.  The `Dtor` states are its destructor. */
  datatype WorkerPc =
    | Created       // constructed, `Run` not called yet
    | TestStop      // about to evaluate `TestDestroy()`
    | WantGuard     // about to lock for a poll
    | InCall        // inside `m_db->NewTableCreation`
    | DropGuard     // the call is over, the guard still held
    | Asleep
    | Reporting     // showing the collected messages
    | DtorWant      // about to lock in the destructor
    | DtorHold      // has locked
    | DtorClear     // temporary guard gone, `m_handler` still to be cleared
    | DtorRelease   // `m_handler` cleared, named guard still held
    | Gone

  datatype Worker = Worker(db: nat, pc: WorkerPc, stop: bool)

  /** Why the frame stops the thread: to replace the database by a new one, or to close. */
  datatype Goal = Replace(db: nat) | Shutdown

  datatype MainPc =
    | Idle
    // stop the thread
    | StopWant(goal: Goal) | StopHold(goal: Goal) | StopTest(goal: Goal) | StopDelete(goal: Goal) | StopExit(goal: Goal)
    // wait for it
    | WaitWant(goal: Goal) | WaitHold(goal: Goal) | WaitTest(goal: Goal) | WaitExit(goal: Goal) | WaitSleep(goal: Goal)
    // replace the database and start a new thread
    | FreeOld(db: nat) | Assign(db: nat) | MakeHandler | RunHandler
    // `Run` failed: delete the handler and the database
    | UndoWant | UndoHold | UndoClear | UndoRelease | UndoFree
    // a database call made by a view under a named guard, on its document's pointer
    | CallWant(db: nat) | InMainCall(db: nat) | CallDrop
    // a view's Create Database, which deletes its document's database
    | Creating(db: nat)
    // the frame's destructor
    | EndWant | EndHold | EndDisconnect | EndRelease | EndFree | Ended

  datatype Owner = NoOne | Frame | Thread(id: nat)

  /**
    What the views have to do with databases: those that windows were opened on, whose documents keep the pointer;
    those deleted by a view's Create Database; and those made there, which nobody keeps.
   */
  datatype Views = Views(documents: set<nat>, replaced: set<nat>, extra: set<nat>)

  const NO_VIEWS := Views({}, {}, {})

  /** `workers` holds every thread ever made; its index is the thread's identity. */
  datatype State = State(
    live: set<nat>,          // database objects made by a connection and not yet deleted by the frame
    nextDb: nat,
    frameDb: Option<nat>,    // MainFrame::m_db
    handler: Option<nat>,    // MainFrame::m_handler
    workers: seq<Worker>,
    lock: Owner,
    pc: MainPc,
    views: Views)

  datatype Action =
    | Proceed                // the frame's next statement
    | Connect                // `ConnectToDb` returned a new database
    | Close
    | OpenView               // a window is opened on the frame's database
    | ViewCall(db: nat)      // CreateIndex, GetTableProperties or GetFieldProperties, on a document's database
    | CreateDatabase(db: nat)
    | CreateCancelled
    | RunFails
    | Thread(id: nat, fails: bool)   // a statement of one thread; `fails` is the result of a poll

  function Init(): State {
    State({}, 0, None, None, [], NoOne, Idle, NO_VIEWS)
  }

  predicate ThreadEnabled(s: State, id: nat) {
    && id < |s.workers|
    && match s.workers[id].pc
       case Created => false
       case Gone => false
       case WantGuard => s.lock == NoOne
       case DtorWant => s.lock == NoOne
       case _ => true
  }

  predicate FrameEnabled(s: State) {
    match s.pc
    case Idle => false
    case Ended => false
    case StopWant(_) => s.lock == NoOne
    case WaitWant(_) => s.lock == NoOne
    case UndoWant => s.lock == NoOne
    case CallWant(_) => s.lock == NoOne
    case EndWant => s.lock == NoOne
    case _ => true
  }

  predicate Enabled(s: State, a: Action) {
    match a
    case Proceed => FrameEnabled(s)
    case Connect => s.pc == Idle
    case Close => s.pc == Idle
    case OpenView => s.pc == Idle && s.frameDb.Some?
    case ViewCall(d) => s.pc == Idle && d in s.views.documents
    case CreateDatabase(d) => s.pc == Idle && d in s.views.documents
    case CreateCancelled => s.pc.Creating?
    case RunFails => s.pc == RunHandler
    case Thread(id, _) => ThreadEnabled(s, id)
  }

  function SetWorker(s: State, id: nat, w: Worker): State
    requires id < |s.workers|
  {
    s.(workers := s.workers[id := w])
  }

  /** One statement of thread `id` (newtablehandler.cpp, destructor and `Entry`). */
  function ThreadStep(held: bool, s: State, id: nat, fails: bool): State
    requires ThreadEnabled(s, id)
  {
    var w := s.workers[id];
    match w.pc
    case TestStop => SetWorker(s, id, w.(pc := if w.stop then Reporting else WantGuard))
    case WantGuard => SetWorker(s, id, w.(pc := InCall)).(lock := Owner.Thread(id))
    case InCall => SetWorker(s, id, w.(pc := DropGuard, stop := w.stop || fails))
    case DropGuard => SetWorker(s, id, w.(pc := Asleep)).(lock := NoOne)
    case Asleep => SetWorker(s, id, w.(pc := TestStop))
    case Reporting => SetWorker(s, id, w.(pc := DtorWant))
    case DtorWant => SetWorker(s, id, w.(pc := DtorHold)).(lock := Owner.Thread(id))
    case DtorHold =>
      if held then SetWorker(s, id, w.(pc := DtorRelease)).(handler := None)
      else SetWorker(s, id, w.(pc := DtorClear)).(lock := NoOne)
    case DtorClear => SetWorker(s, id, w.(pc := Gone)).(handler := None)
    case DtorRelease => SetWorker(s, id, w.(pc := Gone)).(lock := NoOne)
    case _ => s
  }

  /** `m_handler->Delete()`: ask the thread to stop. */
  function RequestStop(s: State): State {
    if s.handler.Some? && s.handler.value < |s.workers|
    then SetWorker(s, s.handler.value, s.workers[s.handler.value].(stop := true))
    else s
  }

  /** The thread object whose `Run` failed is destroyed by the frame. */
  function DropHandler(s: State): State {
    if s.handler.Some? && s.handler.value < |s.workers|
    then SetWorker(s, s.handler.value, s.workers[s.handler.value].(pc := Gone)).(handler := None)
    else s
  }

  function Delete(s: State): State {
    s.(live := if s.frameDb.Some? then s.live - {s.frameDb.value} else s.live, frameDb := None)
  }

  /** Leave a block whose guard, when it has a name, is released here. */
  function LeaveBlock(held: bool, s: State): State {
    if held then s.(lock := NoOne) else s
  }

  /** The end of the statement that made the guard: a temporary is released here. */
  function EndStatement(held: bool, s: State): State {
    if held then s else s.(lock := NoOne)
  }

  function AfterWait(g: Goal): MainPc {
    match g
    case Replace(d) => FreeOld(d)
    case Shutdown => EndWant
  }

  /** The block that asks the thread to stop. */
  function StopStep(held: bool, s: State): State {
    match s.pc
    case StopWant(g) => s.(lock := Frame, pc := StopHold(g))
    case StopHold(g) => EndStatement(held, s).(pc := StopTest(g))
    case StopTest(g) => s.(pc := if s.handler.Some? then StopDelete(g) else StopExit(g))
    case StopDelete(g) => RequestStop(s).(pc := StopExit(g))
    case StopExit(g) => LeaveBlock(held, s).(pc := WaitWant(g))
    case _ => s
  }

  /** The loop that waits for `m_handler` to be cleared. */
  function WaitStep(held: bool, s: State): State {
    match s.pc
    case WaitWant(g) => s.(lock := Frame, pc := WaitHold(g))
    case WaitHold(g) => EndStatement(held, s).(pc := WaitTest(g))
    case WaitTest(g) =>
      if s.handler.None? then LeaveBlock(held, s).(pc := AfterWait(g)) else s.(pc := WaitExit(g))
    case WaitExit(g) => LeaveBlock(held, s).(pc := WaitSleep(g))
    case WaitSleep(g) => s.(pc := WaitWant(g))
    case _ => s
  }

  /** A new database and a new thread. */
  function ReplaceStep(s: State): State {
    match s.pc
    case FreeOld(d) => Delete(s).(pc := Assign(d))
    case Assign(d) => s.(frameDb := Some(d), pc := MakeHandler)
    case MakeHandler =>
      if s.frameDb.None? then s.(pc := Idle)
      else
        var w := Worker(s.frameDb.value, Created, false);
        s.(handler := Some(|s.workers|), workers := s.workers + [w], pc := RunHandler)
    case RunHandler =>
      if s.handler.Some? && s.handler.value < |s.workers|
      then SetWorker(s, s.handler.value, s.workers[s.handler.value].(pc := TestStop)).(pc := Idle)
      else s.(pc := Idle)
    case _ => s
  }

  /** After a failed `Run`. */
  function UndoStep(held: bool, s: State): State {
    match s.pc
    case UndoWant => s.(lock := Frame, pc := UndoHold)
    case UndoHold =>
      if held then DropHandler(s).(pc := UndoRelease) else s.(lock := NoOne, pc := UndoClear)
    case UndoClear => DropHandler(s).(pc := UndoFree)
    case UndoRelease => s.(lock := NoOne, pc := UndoFree)
    case UndoFree => Delete(s).(handler := None, pc := Idle)
    case _ => s
  }

  /** `delete db1`: the document's database; the new one is kept in a local variable. */
  function Recreate(s: State, d: nat): State {
    s.(nextDb := s.nextDb + 1,
       views := s.views.(replaced := s.views.replaced + {d}, extra := s.views.extra + {s.nextDb}))
  }

  /** A view's database call, its Create Database, and the frame's destructor. */
  function OtherStep(held: bool, s: State): State {
    match s.pc
    case CallWant(d) => s.(lock := Frame, pc := InMainCall(d))
    case InMainCall(_) => s.(pc := CallDrop)
    case CallDrop => s.(lock := NoOne, pc := Idle)
    case Creating(d) => Recreate(s, d).(pc := Idle)
    case EndWant => s.(lock := Frame, pc := EndHold)
    case EndHold => EndStatement(held, s).(pc := EndDisconnect)
    case EndDisconnect => s.(pc := EndRelease)
    case EndRelease => LeaveBlock(held, s).(pc := EndFree)
    case EndFree => Delete(s).(pc := Ended)
    case _ => s
  }

  predicate AtStop(pc: MainPc) {
    pc.StopWant? || pc.StopHold? || pc.StopTest? || pc.StopDelete? || pc.StopExit?
  }

  predicate AtWait(pc: MainPc) {
    pc.WaitWant? || pc.WaitHold? || pc.WaitTest? || pc.WaitExit? || pc.WaitSleep?
  }

  predicate AtReplace(pc: MainPc) {
    pc.FreeOld? || pc.Assign? || pc.MakeHandler? || pc.RunHandler?
  }

  predicate AtUndo(pc: MainPc) {
    pc.UndoWant? || pc.UndoHold? || pc.UndoClear? || pc.UndoRelease? || pc.UndoFree?
  }

  /** In a view's call, in the destructor, or at rest. */
  predicate AtOther(pc: MainPc) {
    !AtStop(pc) && !AtWait(pc) && !AtReplace(pc) && !AtUndo(pc)
  }

  /** One statement of the frame. */
  function FrameStep(held: bool, s: State): State
    requires FrameEnabled(s)
  {
    if AtStop(s.pc) then StopStep(held, s)
    else if AtWait(s.pc) then WaitStep(held, s)
    else if AtReplace(s.pc) then ReplaceStep(s)
    else if AtUndo(s.pc) then UndoStep(held, s)
    else OtherStep(held, s)
  }

  /** The frame's database. */
  function Installed(s: State): set<nat> {
    if s.frameDb.Some? then {s.frameDb.value} else {}
  }

  /** What a user's event starts when the frame is idle. */
  function EventStep(s: State, a: Action): State
    requires s.pc == Idle
  {
    match a
    case Connect =>
      var t := s.(live := s.live + {s.nextDb}, nextDb := s.nextDb + 1);
      t.(pc := if s.frameDb.Some? then StopWant(Replace(s.nextDb)) else Assign(s.nextDb))
    case Close => s.(pc := if s.frameDb.Some? then StopWant(Shutdown) else EndFree)
    case OpenView => s.(views := s.views.(documents := s.views.documents + Installed(s)))
    case ViewCall(d) => s.(pc := CallWant(d))
    case CreateDatabase(d) => s.(pc := Creating(d))
    case _ => s
  }

  function Apply(held: bool, s: State, a: Action): State
    requires Enabled(s, a)
  {
    match a
    case Proceed => FrameStep(held, s)
    case RunFails => s.(pc := UndoWant)
    case CreateCancelled => s.(pc := Idle)
    case Thread(id, fails) => ThreadStep(held, s, id, fails)
    case _ => EventStep(s, a)
  }

  predicate Step(held: bool, s: State, a: Action, t: State) {
    Enabled(s, a) && t == Apply(held, s, a)
  }

  /** `trace` is a run and `actions` the statements it executes, in order. */
  predicate IsRun(held: bool, trace: seq<State>, actions: seq<Action>) {
    && |trace| == |actions| + 1
    && trace[0] == Init()
    && forall i :: 0 <= i < |actions| ==> Step(held, trace[i], actions[i], trace[i + 1])
  }

  ghost predicate Reachable(held: bool, s: State) {
    exists trace: seq<State>, actions: seq<Action> :: IsRun(held, trace, actions) && trace[|actions|] == s
  }

  /** The database objects that exist. */
  function Alive(s: State): set<nat> {
    (s.live - s.views.replaced) + s.views.extra
  }

  // ---- what a thread does with its database ----

  /** The statement at `pc` dereferences the thread's database pointer. */
  predicate Touches(pc: WorkerPc) {
    pc == WantGuard || pc == InCall || pc == DtorWant
  }

  /** The thread has such a statement now or later. */
  predicate MayTouch(pc: WorkerPc) {
    match pc
    case DtorHold => false
    case DtorClear => false
    case DtorRelease => false
    case Gone => false
    case _ => true
  }

  /** The destructor has not yet cleared `m_handler`. */
  predicate Attached(pc: WorkerPc) {
    pc != DtorRelease && pc != Gone
  }

  /** The frame's next statement is one of a view, on its document's pointer. */
  predicate AtView(pc: MainPc) {
    pc.CallWant? || pc.InMainCall? || pc.Creating?
  }

  /** The database the frame's next statement dereferences, if it does. */
  function FrameTouches(s: State): Option<nat> {
    match s.pc
    case StopWant(_) => s.frameDb
    case WaitWant(_) => s.frameDb
    case UndoWant =>   // the thread's own pointer, used by its destructor
      if s.handler.Some? && s.handler.value < |s.workers| then Some(s.workers[s.handler.value].db) else None
    case UndoFree => s.frameDb
    case CallWant(d) => Some(d)
    case InMainCall(d) => Some(d)
    case Creating(d) => Some(d)
    case EndWant => s.frameDb
    case EndDisconnect => s.frameDb
    case _ => None
  }
}
