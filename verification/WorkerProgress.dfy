/**
  The wait loops of `Connect` and `OnClose` end: on every infinite behaviour that is strongly
  fair to the frame and to the newest thread, a frame that has asked for the stop gets out of
  its loop, with `m_handler` cleared.
 */
module WorkerProgress {
  import opened Wrappers
  import opened WorkerProtocol
  import opened WorkerSafety

  /** What happens at one moment: nothing, or one statement. */
  datatype Turn = Pause | Do(action: Action)

  predicate TurnStep(held: bool, s: State, turn: Turn, t: State) {
    match turn
    case Pause => t == s
    case Do(a) => Step(held, s, a, t)
  }

  ghost predicate IsBehaviour(held: bool, b: nat -> State, turn: nat -> Turn) {
    && b(0) == Init()
    && forall n: nat :: TurnStep(held, b(n), turn(n), b(n + 1))
  }

  predicate FrameTurn(turn: Turn) {
    turn == Do(Proceed)
  }

  predicate ThreadTurn(turn: Turn, id: nat) {
    turn.Do? && turn.action.Thread? && turn.action.id == id
  }

  ghost predicate FrameEnabledFrom(b: nat -> State, n: nat) {
    exists m: nat :: m >= n && FrameEnabled(b(m))
  }

  ghost predicate FrameMovesFrom(turn: nat -> Turn, n: nat) {
    exists m: nat :: m >= n && FrameTurn(turn(m))
  }

  ghost predicate ThreadEnabledFrom(b: nat -> State, id: nat, n: nat) {
    exists m: nat :: m >= n && ThreadEnabled(b(m), id)
  }

  ghost predicate ThreadMovesFrom(turn: nat -> Turn, id: nat, n: nat) {
    exists m: nat :: m >= n && ThreadTurn(turn(m), id)
  }

  /** Strong fairness: who is able to move again and again does move again and again. */
  ghost predicate FairToFrame(b: nat -> State, turn: nat -> Turn) {
    (forall n: nat :: FrameEnabledFrom(b, n)) ==> (forall n: nat :: FrameMovesFrom(turn, n))
  }

  ghost predicate FairToThread(b: nat -> State, turn: nat -> Turn, id: nat) {
    (forall n: nat :: ThreadEnabledFrom(b, id, n)) ==> (forall n: nat :: ThreadMovesFrom(turn, id, n))
  }

  ghost predicate Fair(b: nat -> State, turn: nat -> Turn) {
    FairToFrame(b, turn) && forall id: nat :: FairToThread(b, turn, id)
  }

  lemma {:induction false} BehaviourInv(held: bool, b: nat -> State, turn: nat -> Turn, n: nat)
    requires IsBehaviour(held, b, turn)
    ensures Inv(held, b(n))
  {
    if n == 0 {
    } else {
      BehaviourInv(held, b, turn, n - 1);
      assert TurnStep(held, b(n - 1), turn(n - 1), b(n));
      if turn(n - 1).Do? {
        StepKeepsInv(held, b(n - 1), turn(n - 1).action, b(n));
      }
    }
  }

  // ---- the rank of a thread that has been asked to stop ----

  function ThreadRank(pc: WorkerPc): nat {
    match pc
    case Created => 10
    case WantGuard => 9
    case InCall => 8
    case DropGuard => 7
    case Asleep => 6
    case TestStop => 5
    case Reporting => 4
    case DtorWant => 3
    case DtorHold => 2
    case DtorClear => 1
    case DtorRelease => 1
    case Gone => 0
  }

  /** Every statement of a thread asked to stop brings it one step nearer to its end. */
  lemma RankFalls(held: bool, s: State, id: nat, fails: bool)
    requires ThreadEnabled(s, id)
    requires s.workers[id].stop || ThreadRank(s.workers[id].pc) < 5
    ensures
      var w := ThreadStep(held, s, id, fails).workers[id];
      ThreadRank(w.pc) == ThreadRank(s.workers[id].pc) - 1 && (w.stop || ThreadRank(w.pc) < 5)
  {
  }

  /** The rank of the newest thread; 0 when there is none, or when it is gone. */
  function Rank(s: State): nat {
    if |s.workers| == 0 then 0 else ThreadRank(s.workers[|s.workers| - 1].pc)
  }

  /** What one moment of the wait may change. */
  predicate Waited(s: State, turn: Turn, t: State) {
    && |t.workers| == |s.workers|
    && (!FrameTurn(turn) ==> t.pc == s.pc)
    && (|s.workers| == 0 || !ThreadTurn(turn, |s.workers| - 1) ==> t.workers == s.workers)
    && (|s.workers| > 0 && ThreadTurn(turn, |s.workers| - 1) ==> Rank(t) == Rank(s) - 1)
  }

  lemma FrameWaits(held: bool, s: State)
    requires Inv(held, s) && StopSent(s.pc) && FrameEnabled(s)
    ensures Waited(s, Do(Proceed), FrameStep(held, s))
  {
  }

  lemma ThreadWaits(held: bool, s: State, id: nat, fails: bool)
    requires Inv(held, s) && StopSent(s.pc) && ThreadEnabled(s, id)
    ensures id == |s.workers| - 1 && Waited(s, Do(Action.Thread(id, fails)), ThreadStep(held, s, id, fails))
  {
    assert id == |s.workers| - 1;
    RankFalls(held, s, id, fails);
  }

  lemma WaitTurn(held: bool, s: State, turn: Turn, t: State)
    requires Inv(held, s) && StopSent(s.pc) && TurnStep(held, s, turn, t)
    ensures Waited(s, turn, t)
  {
    if turn.Do? {
      match turn.action
      case Proceed => FrameWaits(held, s);
      case Thread(id, fails) => ThreadWaits(held, s, id, fails);
      case _ =>
    }
  }

  lemma FrameLeaves(held: bool, s: State)
    requires StopSent(s.pc) && FrameEnabled(s)
    ensures
      var t := FrameStep(held, s);
      (StopSent(t.pc) && t.pc.goal == s.pc.goal) || (t.pc == AfterWait(s.pc.goal) && t.handler == None)
  {
  }

  /** The loop is left only for what the stop was asked for, with `m_handler` cleared. */
  lemma WaitLeft(held: bool, s: State, turn: Turn, t: State)
    requires Inv(held, s) && StopSent(s.pc) && TurnStep(held, s, turn, t)
    ensures (StopSent(t.pc) && t.pc.goal == s.pc.goal) || (t.pc == AfterWait(s.pc.goal) && t.handler == None)
  {
    if turn == Do(Proceed) {
      FrameLeaves(held, s);
    } else {
      WaitTurn(held, s, turn, t);
    }
  }

  ghost predicate WaitsFrom(b: nat -> State, n: nat) {
    forall m: nat :: m >= n ==> StopSent(b(m).pc)
  }

  ghost predicate AllWaited(b: nat -> State, turn: nat -> Turn, n: nat) {
    forall m: nat :: m >= n ==> Waited(b(m), turn(m), b(m + 1))
  }

  lemma WaitingTurns(held: bool, b: nat -> State, turn: nat -> Turn, n: nat)
    requires IsBehaviour(held, b, turn) && WaitsFrom(b, n)
    ensures AllWaited(b, turn, n)
  {
    forall m: nat | m >= n ensures Waited(b(m), turn(m), b(m + 1)) {
      BehaviourInv(held, b, turn, m);
      WaitTurn(held, b(m), turn(m), b(m + 1));
    }
  }

  lemma {:induction false} WaitKeeps(b: nat -> State, turn: nat -> Turn, n: nat, m: nat)
    requires AllWaited(b, turn, n) && n <= m
    ensures |b(m).workers| == |b(n).workers| && Rank(b(m)) <= Rank(b(n))
  {
    if n == m {
    } else {
      WaitKeeps(b, turn, n, m - 1);
      assert Waited(b(m - 1), turn(m - 1), b(m));
    }
  }

  /** While neither moves, nothing changes for either. */
  lemma {:induction false} ThreadRests(b: nat -> State, turn: nat -> Turn, n: nat, m: nat)
    requires AllWaited(b, turn, n) && n <= m && |b(n).workers| > 0
    requires forall i: nat :: n <= i < m ==> !ThreadTurn(turn(i), |b(n).workers| - 1)
    ensures b(m).workers == b(n).workers
  {
    if n == m {
    } else {
      ThreadRests(b, turn, n, m - 1);
      assert Waited(b(m - 1), turn(m - 1), b(m));
    }
  }

  lemma {:induction false} FrameRests(b: nat -> State, turn: nat -> Turn, n: nat, m: nat)
    requires AllWaited(b, turn, n) && n <= m
    requires forall i: nat :: n <= i < m ==> !FrameTurn(turn(i))
    ensures b(m).pc == b(n).pc
  {
    if n == m {
    } else {
      FrameRests(b, turn, n, m - 1);
      assert Waited(b(m - 1), turn(m - 1), b(m));
    }
  }

  lemma {:induction false} FirstFrameTurn(turn: nat -> Turn, n: nat, m: nat) returns (k: nat)
    requires n <= m && FrameTurn(turn(m))
    ensures n <= k && FrameTurn(turn(k)) && forall i: nat :: n <= i < k ==> !FrameTurn(turn(i))
    decreases m - n
  {
    if FrameTurn(turn(n)) {
      k := n;
    } else {
      k := FirstFrameTurn(turn, n + 1, m);
    }
  }

  /** A frame that can always move does: its next move starts from the program counter it has. */
  lemma FrameMoves(held: bool, b: nat -> State, turn: nat -> Turn, n: nat) returns (k: nat)
    requires IsBehaviour(held, b, turn) && FairToFrame(b, turn) && WaitsFrom(b, n)
    requires forall m: nat :: m >= n ==> FrameEnabled(b(m))
    ensures k >= n && FrameTurn(turn(k)) && b(k).pc == b(n).pc && b(k + 1) == FrameStep(held, b(k))
  {
    forall i: nat ensures FrameEnabledFrom(b, i) {
      var m := if i > n then i else n;
      assert FrameEnabled(b(m));
    }
    assert FrameMovesFrom(turn, n);
    var m: nat :| m >= n && FrameTurn(turn(m));
    k := FirstFrameTurn(turn, n, m);
    WaitingTurns(held, b, turn, n);
    FrameRests(b, turn, n, k);
    assert TurnStep(held, b(k), turn(k), b(k + 1));
  }

  /** How many statements the waiting frame is from giving the mutex back. */
  function HoldRank(pc: MainPc): nat {
    match pc
    case WaitHold(_) => 3
    case WaitTest(_) => 2
    case _ => 1
  }

  /** The frame does not keep the mutex from a thread that waits for it. */
  lemma {:induction false} GuardComesFree(held: bool, b: nat -> State, turn: nat -> Turn, n: nat) returns (k: nat)
    requires IsBehaviour(held, b, turn) && FairToFrame(b, turn) && WaitsFrom(b, n)
    requires forall m: nat :: m >= n ==> FrameEnabled(b(m)) && !b(m).lock.Thread?
    ensures k >= n && b(k).lock == NoOne
    decreases HoldRank(b(n).pc)
  {
    if b(n).lock == NoOne {
      k := n;
    } else {
      var i := FrameMoves(held, b, turn, n);
      BehaviourInv(held, b, turn, n);
      BehaviourInv(held, b, turn, i);
      BehaviourInv(held, b, turn, i + 1);
      if b(i + 1).lock == NoOne {
        k := i + 1;
      } else {
        k := GuardComesFree(held, b, turn, i + 1);
      }
    }
  }

  /** A thread that does not move is able to move, again and again. */
  lemma RestingThreadEnabled(held: bool, b: nat -> State, turn: nat -> Turn, n: nat, i: nat)
    requires IsBehaviour(held, b, turn) && FairToFrame(b, turn) && WaitsFrom(b, n) && Rank(b(n)) > 0
    requires !ThreadMovesFrom(turn, |b(n).workers| - 1, n)
    ensures ThreadEnabledFrom(b, |b(n).workers| - 1, i)
  {
    var id: nat := |b(n).workers| - 1;
    var j := if i > n then i else n;
    WaitingTurns(held, b, turn, n);
    forall m: nat | m >= n
      ensures b(m).workers == b(n).workers
      ensures b(m).lock == NoOne ==> ThreadEnabled(b(m), id)
      ensures ThreadEnabled(b(m), id) || (FrameEnabled(b(m)) && !b(m).lock.Thread?)
    {
      ThreadRests(b, turn, n, m);
      BehaviourInv(held, b, turn, m);
    }
    if m: nat :| m >= j && ThreadEnabled(b(m), id) {
      assert m >= i;
    } else {
      var k := GuardComesFree(held, b, turn, j);
    }
  }

  /** The newest thread moves again as long as it is not gone. */
  lemma ThreadMoves(held: bool, b: nat -> State, turn: nat -> Turn, n: nat) returns (k: nat)
    requires IsBehaviour(held, b, turn) && Fair(b, turn) && WaitsFrom(b, n) && Rank(b(n)) > 0
    ensures k >= n && ThreadTurn(turn(k), |b(n).workers| - 1)
  {
    var id: nat := |b(n).workers| - 1;
    assert FairToThread(b, turn, id);
    if !ThreadMovesFrom(turn, id, n) {
      forall i: nat ensures ThreadEnabledFrom(b, id, i) {
        RestingThreadEnabled(held, b, turn, n, i);
      }
    }
    k :| k >= n && ThreadTurn(turn(k), id);
  }

  /** Sooner or later the newest thread is gone. */
  lemma {:induction false} ThreadEnds(held: bool, b: nat -> State, turn: nat -> Turn, n: nat) returns (k: nat)
    requires IsBehaviour(held, b, turn) && Fair(b, turn) && WaitsFrom(b, n)
    ensures k >= n && Rank(b(k)) == 0
    decreases Rank(b(n))
  {
    if Rank(b(n)) == 0 {
      k := n;
    } else {
      var i := ThreadMoves(held, b, turn, n);
      WaitingTurns(held, b, turn, n);
      WaitKeeps(b, turn, n, i);
      assert Waited(b(i), turn(i), b(i + 1));
      k := ThreadEnds(held, b, turn, i + 1);
    }
  }

  /** How many statements the frame is from its test of `m_handler`. */
  function TestRank(pc: MainPc): nat {
    match pc
    case WaitExit(_) => 5
    case WaitSleep(_) => 4
    case StopExit(_) => 4
    case WaitWant(_) => 3
    case WaitHold(_) => 2
    case _ => 1
  }

  /** With `m_handler` null every statement of the waiting frame brings it nearer to the test, and the test out. */
  lemma TestNearer(held: bool, s: State)
    requires StopSent(s.pc) && FrameEnabled(s) && s.handler == None && StopSent(FrameStep(held, s).pc)
    ensures TestRank(FrameStep(held, s).pc) < TestRank(s.pc)
  {
  }

  lemma NobodyLeft(held: bool, s: State)
    requires Inv(held, s) && StopSent(s.pc) && Rank(s) == 0
    ensures FrameEnabled(s) && s.handler == None
  {
  }

  lemma NobodyLeftFrom(held: bool, b: nat -> State, turn: nat -> Turn, n: nat)
    requires IsBehaviour(held, b, turn) && WaitsFrom(b, n) && Rank(b(n)) == 0
    ensures forall m: nat :: m >= n ==> Rank(b(m)) == 0 && FrameEnabled(b(m)) && b(m).handler == None
  {
    WaitingTurns(held, b, turn, n);
    forall m: nat | m >= n ensures Rank(b(m)) == 0 && FrameEnabled(b(m)) && b(m).handler == None {
      WaitKeeps(b, turn, n, m);
      BehaviourInv(held, b, turn, m);
      NobodyLeft(held, b(m));
    }
  }

  /** With every thread gone the frame cannot go on waiting. */
  lemma {:induction false} WaitOver(held: bool, b: nat -> State, turn: nat -> Turn, n: nat)
    requires IsBehaviour(held, b, turn) && FairToFrame(b, turn) && Rank(b(n)) == 0
    ensures !WaitsFrom(b, n)
    decreases TestRank(b(n).pc)
  {
    if WaitsFrom(b, n) {
      NobodyLeftFrom(held, b, turn, n);
      var k := FrameMoves(held, b, turn, n);
      TestNearer(held, b(k));
      WaitOver(held, b, turn, k + 1);
    }
  }

  lemma {:induction false} FirstExit(held: bool, b: nat -> State, turn: nat -> Turn, n: nat, m: nat) returns (k: nat)
    requires IsBehaviour(held, b, turn) && n <= m && StopSent(b(n).pc) && !StopSent(b(m).pc)
    ensures k >= n && b(k).pc == AfterWait(b(n).pc.goal) && b(k).handler == None
    decreases m - n
  {
    BehaviourInv(held, b, turn, n);
    assert TurnStep(held, b(n), turn(n), b(n + 1));
    WaitLeft(held, b(n), turn(n), b(n + 1));
    if StopSent(b(n + 1).pc) {
      k := FirstExit(held, b, turn, n + 1, m);
    } else {
      k := n + 1;
    }
  }

  /**
    The wait loop ends: from any moment after the stop request there is a later one at which
    the frame has left the loop, for what it wanted to do next, and `m_handler` is null.
   */
  lemma WaitLoopEnds(held: bool, b: nat -> State, turn: nat -> Turn, n: nat)
    requires IsBehaviour(held, b, turn) && Fair(b, turn) && StopSent(b(n).pc)
    ensures exists k: nat :: k >= n && b(k).pc == AfterWait(b(n).pc.goal) && b(k).handler == None
  {
    if WaitsFrom(b, n) {
      var k := ThreadEnds(held, b, turn, n);
      assert WaitsFrom(b, k);
      WaitOver(held, b, turn, k);
    } else {
      var m: nat :| m >= n && !StopSent(b(m).pc);
      var k := FirstExit(held, b, turn, n, m);
    }
  }

  // ---- the frame comes to rest ----

  predicate AtRest(pc: MainPc) {
    pc.Idle? || pc.Ended?
  }

  /** On the way to the end of the frame. */
  predicate Closing(pc: MainPc) {
    if AtStop(pc) || AtWait(pc) then pc.goal.Shutdown?
    else pc.EndWant? || pc.EndHold? || pc.EndDisconnect? || pc.EndRelease? || pc.EndFree? || pc.Ended?
  }

  /** How far the frame is from rest, the wait loop counted as one. */
  function FrameRank(pc: MainPc): nat {
    match pc
    case StopWant(_) => 34
    case StopHold(_) => 33
    case StopTest(_) => 32
    case StopDelete(_) => 31
    case FreeOld(_) => 20
    case Assign(_) => 19
    case MakeHandler => 18
    case RunHandler => 17
    case UndoWant => 16
    case UndoHold => 15
    case UndoClear => 14
    case UndoRelease => 14
    case UndoFree => 13
    case CallWant(_) => 12
    case InMainCall(_) => 11
    case Creating(_) => 10
    case CallDrop => 10
    case EndWant => 9
    case EndHold => 8
    case EndDisconnect => 7
    case EndRelease => 6
    case EndFree => 5
    case Idle => 0
    case Ended => 0
    case _ => 30
  }

  /** Another place on the same way, nearer to rest. */
  predicate Nearer(pc: MainPc, next: MainPc) {
    next != pc && FrameRank(next) < FrameRank(pc) && (Closing(next) <==> Closing(pc))
  }

  lemma StopNearer(held: bool, s: State)
    requires AtStop(s.pc) && !StopSent(s.pc)
    ensures Nearer(s.pc, StopStep(held, s).pc)
  {
  }

  lemma ReplaceNearer(s: State)
    requires AtReplace(s.pc)
    ensures Nearer(s.pc, ReplaceStep(s).pc)
  {
  }

  lemma UndoNearer(held: bool, s: State)
    requires AtUndo(s.pc)
    ensures Nearer(s.pc, UndoStep(held, s).pc)
  {
  }

  lemma OtherNearer(held: bool, s: State)
    requires AtOther(s.pc) && !AtRest(s.pc)
    ensures Nearer(s.pc, OtherStep(held, s).pc)
  {
  }

  /** A statement of the frame outside the wait loop brings it nearer to rest, on the same way. */
  lemma FrameNearer(held: bool, s: State)
    requires FrameEnabled(s) && !StopSent(s.pc)
    ensures Nearer(s.pc, FrameStep(held, s).pc)
  {
    if AtStop(s.pc) {
      StopNearer(held, s);
    } else if AtReplace(s.pc) {
      ReplaceNearer(s);
    } else if AtUndo(s.pc) {
      UndoNearer(held, s);
    } else {
      OtherNearer(held, s);
    }
  }

  lemma TurnNearer(held: bool, s: State, turn: Turn, t: State)
    requires TurnStep(held, s, turn, t) && !StopSent(s.pc) && !AtRest(s.pc) && t.pc != s.pc
    ensures Nearer(s.pc, t.pc)
  {
    match turn.action
    case Proceed => FrameNearer(held, s);
    case RunFails =>
    case CreateCancelled =>
    case _ =>
  }

  /** How many statements a thread is from giving the mutex back. */
  function ReleaseRank(pc: WorkerPc): nat {
    match pc
    case InCall => 2
    case DropGuard => 1
    case DtorHold => 2
    case _ => 1
  }

  /** The rank of the thread that holds the mutex; 0 when it is free. */
  function LockRank(s: State): nat {
    if s.lock.Thread? && |s.workers| > 0 then ReleaseRank(s.workers[|s.workers| - 1].pc) else 0
  }

  /** The mutex is given back, or is nearer to that. */
  predicate LessHeld(s: State, t: State) {
    t.lock == NoOne || (t.lock == s.lock && LockRank(t) < LockRank(s))
  }

  /** What may happen at a moment that leaves the frame where it is. */
  predicate Stayed(s: State, turn: Turn, t: State) {
    && |t.workers| == |s.workers|
    && (|s.workers| == 0 || !ThreadTurn(turn, |s.workers| - 1) ==> t.workers == s.workers && t.lock == s.lock)
    && (|s.workers| > 0 && ThreadTurn(turn, |s.workers| - 1) && s.lock.Thread? ==> LessHeld(s, t))
  }

  lemma ThreadStays(held: bool, s: State, id: nat, fails: bool)
    requires Inv(held, s) && ThreadEnabled(s, id)
    ensures id == |s.workers| - 1 && |ThreadStep(held, s, id, fails).workers| == |s.workers|
    ensures s.lock.Thread? ==> LessHeld(s, ThreadStep(held, s, id, fails))
  {
  }

  lemma FrameMustMove(held: bool, s: State)
    requires FrameEnabled(s)
    ensures FrameStep(held, s).pc != s.pc
  {
  }

  lemma StayTurn(held: bool, s: State, turn: Turn, t: State)
    requires Inv(held, s) && TurnStep(held, s, turn, t) && t.pc == s.pc && !AtRest(s.pc)
    ensures Stayed(s, turn, t) && !FrameTurn(turn)
  {
    if turn.Do? {
      match turn.action
      case Proceed => FrameMustMove(held, s);
      case Thread(id, fails) => ThreadStays(held, s, id, fails);
      case _ =>
    }
  }

  ghost predicate StaysFrom(b: nat -> State, n: nat) {
    forall m: nat :: m >= n ==> b(m).pc == b(n).pc
  }

  ghost predicate AllStayed(b: nat -> State, turn: nat -> Turn, n: nat) {
    forall m: nat :: m >= n ==> Stayed(b(m), turn(m), b(m + 1)) && !FrameTurn(turn(m))
  }

  lemma StayingTurns(held: bool, b: nat -> State, turn: nat -> Turn, n: nat)
    requires IsBehaviour(held, b, turn) && StaysFrom(b, n) && !AtRest(b(n).pc)
    ensures AllStayed(b, turn, n)
  {
    forall m: nat | m >= n ensures Stayed(b(m), turn(m), b(m + 1)) && !FrameTurn(turn(m)) {
      BehaviourInv(held, b, turn, m);
      assert TurnStep(held, b(m), turn(m), b(m + 1));
      assert b(m).pc == b(n).pc && b(m + 1).pc == b(n).pc;
      StayTurn(held, b(m), turn(m), b(m + 1));
    }
  }

  lemma {:induction false} HolderRests(b: nat -> State, turn: nat -> Turn, n: nat, m: nat)
    requires AllStayed(b, turn, n) && n <= m && |b(n).workers| > 0
    requires forall i: nat :: n <= i < m ==> !ThreadTurn(turn(i), |b(n).workers| - 1)
    ensures b(m).workers == b(n).workers && b(m).lock == b(n).lock
  {
    if n == m {
    } else {
      HolderRests(b, turn, n, m - 1);
      assert Stayed(b(m - 1), turn(m - 1), b(m));
    }
  }

  lemma {:induction false} FirstThreadTurn(turn: nat -> Turn, id: nat, n: nat, m: nat) returns (k: nat)
    requires n <= m && ThreadTurn(turn(m), id)
    ensures n <= k && ThreadTurn(turn(k), id) && forall i: nat :: n <= i < k ==> !ThreadTurn(turn(i), id)
    decreases m - n
  {
    if ThreadTurn(turn(n), id) {
      k := n;
    } else {
      k := FirstThreadTurn(turn, id, n + 1, m);
    }
  }

  /** A thread that holds the mutex moves. */
  lemma HolderMoves(held: bool, b: nat -> State, turn: nat -> Turn, n: nat) returns (k: nat)
    requires IsBehaviour(held, b, turn) && Fair(b, turn) && AllStayed(b, turn, n) && b(n).lock.Thread?
    ensures |b(n).workers| > 0 && k >= n && ThreadTurn(turn(k), |b(n).workers| - 1)
    ensures b(k).workers == b(n).workers && b(k).lock == b(n).lock
  {
    BehaviourInv(held, b, turn, n);
    var id: nat := |b(n).workers| - 1;
    assert FairToThread(b, turn, id);
    if !ThreadMovesFrom(turn, id, n) {
      forall i: nat ensures ThreadEnabledFrom(b, id, i) {
        var m := if i > n then i else n;
        HolderRests(b, turn, n, m);
        assert ThreadEnabled(b(m), id);
      }
    }
    var m: nat :| m >= n && ThreadTurn(turn(m), id);
    k := FirstThreadTurn(turn, id, n, m);
    HolderRests(b, turn, n, k);
  }

  /** A thread that holds the mutex gives it back, or comes nearer to that. */
  lemma HolderStep(held: bool, b: nat -> State, turn: nat -> Turn, n: nat) returns (k: nat)
    requires IsBehaviour(held, b, turn) && Fair(b, turn) && AllStayed(b, turn, n) && b(n).lock.Thread?
    ensures k > n && (b(k).lock == NoOne || (b(k).lock.Thread? && LockRank(b(k)) < LockRank(b(n))))
  {
    var i := HolderMoves(held, b, turn, n);
    assert Stayed(b(i), turn(i), b(i + 1));
    k := i + 1;
  }

  lemma LaterStayed(b: nat -> State, turn: nat -> Turn, n: nat, k: nat)
    requires AllStayed(b, turn, n) && n <= k
    ensures AllStayed(b, turn, k)
  {
  }

  /** The mutex a waiting frame wants comes free, whatever the thread does with it. */
  lemma {:induction false} MutexComesFree(held: bool, b: nat -> State, turn: nat -> Turn, n: nat) returns (k: nat)
    requires IsBehaviour(held, b, turn) && Fair(b, turn) && AllStayed(b, turn, n) && b(n).lock != Frame
    ensures k >= n && b(k).lock == NoOne
    decreases LockRank(b(n))
  {
    if b(n).lock == NoOne {
      k := n;
    } else {
      k := HolderStep(held, b, turn, n);
      if b(k).lock != NoOne {
        LaterStayed(b, turn, n, k);
        k := MutexComesFree(held, b, turn, k);
      }
    }
  }

  lemma StayingEnabled(held: bool, b: nat -> State, turn: nat -> Turn, n: nat, i: nat)
    requires IsBehaviour(held, b, turn) && Fair(b, turn) && StaysFrom(b, n) && !AtRest(b(n).pc)
    ensures FrameEnabledFrom(b, i)
  {
    var j := if i > n then i else n;
    BehaviourInv(held, b, turn, j);
    assert b(j).pc == b(n).pc;
    if FrameEnabled(b(j)) {
      assert j >= i;
    } else {
      StayingTurns(held, b, turn, n);
      var k := MutexComesFree(held, b, turn, j);
      assert b(k).pc == b(n).pc;
      assert FrameEnabled(b(k)) && k >= i;
    }
  }

  /** Outside the wait loop a frame that is not at rest does not stay where it is. */
  lemma FrameGoesOn(held: bool, b: nat -> State, turn: nat -> Turn, n: nat)
    requires IsBehaviour(held, b, turn) && Fair(b, turn) && !AtRest(b(n).pc)
    ensures !StaysFrom(b, n)
  {
    if StaysFrom(b, n) {
      forall i: nat ensures FrameEnabledFrom(b, i) {
        StayingEnabled(held, b, turn, n, i);
      }
      assert FrameMovesFrom(turn, n);
      StayingTurns(held, b, turn, n);
    }
  }

  lemma {:induction false} FirstChange(b: nat -> State, n: nat, m: nat) returns (k: nat)
    requires n <= m && b(m).pc != b(n).pc
    ensures n <= k && b(k).pc == b(n).pc && b(k + 1).pc != b(n).pc
    decreases m - n
  {
    if b(n + 1).pc != b(n).pc {
      k := n;
    } else {
      k := FirstChange(b, n + 1, m);
    }
  }

  /** Where the frame rests in the end. */
  predicate RestsAs(closing: bool, pc: MainPc) {
    if closing then pc.Ended? else pc.Idle?
  }

  lemma RestOf(pc: MainPc)
    requires AtRest(pc)
    ensures RestsAs(Closing(pc), pc)
  {
  }

  /** On every fair behaviour the frame comes to rest: at its end when it is closing, idle otherwise. */
  lemma {:induction false} ComesToRest(held: bool, b: nat -> State, turn: nat -> Turn, n: nat) returns (k: nat)
    requires IsBehaviour(held, b, turn) && Fair(b, turn)
    ensures k >= n && RestsAs(Closing(b(n).pc), b(k).pc)
    decreases FrameRank(b(n).pc)
  {
    if AtRest(b(n).pc) {
      RestOf(b(n).pc);
      k := n;
    } else if StopSent(b(n).pc) {
      WaitLoopEnds(held, b, turn, n);
      var i: nat :| i >= n && b(i).pc == AfterWait(b(n).pc.goal) && b(i).handler == None;
      k := ComesToRest(held, b, turn, i);
    } else {
      FrameGoesOn(held, b, turn, n);
      var m: nat :| m >= n && b(m).pc != b(n).pc;
      var i := FirstChange(b, n, m);
      assert TurnStep(held, b(i), turn(i), b(i + 1));
      TurnNearer(held, b(i), turn(i), b(i + 1));
      k := ComesToRest(held, b, turn, i + 1);
    }
  }

  /**
    What a user starts is finished on every fair behaviour, against a thread that keeps polling,
    stops by itself or never started: closing ends the frame, a connection or a view's call gives
    it back.
   */
  lemma EventsFinish(held: bool, b: nat -> State, turn: nat -> Turn, n: nat)
    requires IsBehaviour(held, b, turn) && Fair(b, turn)
    ensures turn(n) == Do(Close) ==> exists k: nat :: k > n && b(k).pc == Ended
    ensures turn(n) == Do(Connect) ==> exists k: nat :: k > n && b(k).pc == Idle
    ensures turn(n).Do? && (turn(n).action.ViewCall? || turn(n).action.CreateDatabase?) ==>
              exists k: nat :: k > n && b(k).pc == Idle
  {
    assert TurnStep(held, b(n), turn(n), b(n + 1));
    var k := ComesToRest(held, b, turn, n + 1);
    assert turn(n) == Do(Close) ==> Closing(b(n + 1).pc);
    assert turn(n).Do? && IsEvent(turn(n).action) && turn(n) != Do(Close) ==> !Closing(b(n + 1).pc);
    assert k > n;
  }
}
