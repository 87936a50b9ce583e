/**
  Why the progress results ask for strong fairness: under weak fairness the frame can take the
  mutex again each time before the thread's destructor does, and wait forever.
 */
module WorkerFairness {
  import opened Wrappers
  import opened WorkerProtocol
  import opened WorkerSafety
  import opened WorkerProgress

  ghost predicate FrameAlwaysEnabled(b: nat -> State, n: nat) {
    forall m: nat :: m >= n ==> FrameEnabled(b(m))
  }

  ghost predicate ThreadAlwaysEnabled(b: nat -> State, id: nat, n: nat) {
    forall m: nat :: m >= n ==> ThreadEnabled(b(m), id)
  }

  /** Weak fairness: who is able to move from some moment on moves again and again. */
  ghost predicate WeaklyFairToFrame(b: nat -> State, turn: nat -> Turn) {
    (exists n: nat :: FrameAlwaysEnabled(b, n)) ==> forall n: nat :: FrameMovesFrom(turn, n)
  }

  ghost predicate WeaklyFairToThread(b: nat -> State, turn: nat -> Turn, id: nat) {
    (exists n: nat :: ThreadAlwaysEnabled(b, id, n)) ==> forall n: nat :: ThreadMovesFrom(turn, id, n)
  }

  ghost predicate WeaklyFair(b: nat -> State, turn: nat -> Turn) {
    WeaklyFairToFrame(b, turn) && forall id: nat :: WeaklyFairToThread(b, turn, id)
  }

  // ---- the behaviour ----

  /** Closing, with the first thread where it is; a guard held when it has a name. */
  function Closes(pc: MainPc, w: WorkerPc, stop: bool, lock: Owner): State {
    State({0}, 1, Some(0), Some(0), [Worker(0, w, stop)], lock, pc, NO_VIEWS)
  }

  function InBlock(held: bool): Owner {
    if held then Frame else NoOne
  }

  /** How many statements it takes to get the thread to its destructor and the frame to its loop. */
  const SETUP: nat := 12

  /** The state after `n` of them. */
  function SetupState(held: bool, n: nat): State {
    var g := Shutdown;
    match n
    case 0 => Init()
    case 1 => State({0}, 1, None, None, [], NoOne, Assign(0), NO_VIEWS)
    case 2 => State({0}, 1, Some(0), None, [], NoOne, MakeHandler, NO_VIEWS)
    case 3 => Closes(RunHandler, Created, false, NoOne)
    case 4 => Closes(Idle, TestStop, false, NoOne)
    case 5 => Closes(StopWant(g), TestStop, false, NoOne)
    case 6 => Closes(StopHold(g), TestStop, false, Frame)
    case 7 => Closes(StopTest(g), TestStop, false, InBlock(held))
    case 8 => Closes(StopDelete(g), TestStop, false, InBlock(held))
    case 9 => Closes(StopExit(g), TestStop, true, InBlock(held))
    case 10 => Closes(WaitWant(g), TestStop, true, NoOne)
    case 11 => Closes(WaitWant(g), Reporting, true, NoOne)
    case _ => Closes(WaitWant(g), DtorWant, true, NoOne)
  }

  function SetupAction(n: nat): Action {
    match n
    case 0 => Connect
    case 4 => Close
    case 10 => Action.Thread(0, false)
    case 11 => Action.Thread(0, false)
    case _ => Proceed
  }

  /** The round of the wait loop, the thread wanting the mutex all the time. */
  function Round(held: bool, k: nat): State {
    var g := Shutdown;
    match k
    case 0 => Closes(WaitWant(g), DtorWant, true, NoOne)
    case 1 => Closes(WaitHold(g), DtorWant, true, Frame)
    case 2 => Closes(WaitTest(g), DtorWant, true, InBlock(held))
    case 3 => Closes(WaitExit(g), DtorWant, true, InBlock(held))
    case _ => Closes(WaitSleep(g), DtorWant, true, NoOne)
  }

  function StateAt(held: bool, n: nat): State {
    if n < SETUP then SetupState(held, n) else Round(held, (n - SETUP) % 5)
  }

  function TurnAt(n: nat): Turn {
    Do(if n < SETUP then SetupAction(n) else Proceed)
  }

  lemma ConnectStep(held: bool, n: nat)
    requires n < 5
    ensures Step(held, SetupState(held, n), SetupAction(n), SetupState(held, n + 1))
  {
  }

  lemma StopStepAt(held: bool, n: nat)
    requires 5 <= n < 10
    ensures Step(held, SetupState(held, n), SetupAction(n), SetupState(held, n + 1))
  {
  }

  lemma SetupStep(held: bool, n: nat)
    requires n < SETUP
    ensures Step(held, SetupState(held, n), SetupAction(n), SetupState(held, n + 1))
  {
    if n < 5 {
      ConnectStep(held, n);
    } else if n < 10 {
      StopStepAt(held, n);
    }
  }

  lemma RoundStep(held: bool, k: nat)
    requires k < 5
    ensures Step(held, Round(held, k), Proceed, Round(held, (k + 1) % 5))
  {
  }

  lemma NextState(held: bool, n: nat)
    ensures TurnStep(held, StateAt(held, n), TurnAt(n), StateAt(held, n + 1))
  {
    if n < SETUP {
      SetupStep(held, n);
    } else {
      RoundStep(held, (n - SETUP) % 5);
      assert (n + 1 - SETUP) % 5 == ((n - SETUP) % 5 + 1) % 5;
    }
  }

  lemma IsOne(held: bool, b: nat -> State, turn: nat -> Turn)
    requires (forall n: nat :: b(n) == StateAt(held, n)) && (forall n: nat :: turn(n) == TurnAt(n))
    ensures IsBehaviour(held, b, turn)
  {
    forall n: nat ensures TurnStep(held, b(n), turn(n), b(n + 1)) {
      NextState(held, n);
    }
  }

  /** Every five moments the frame has the mutex. */
  lemma Disabled(held: bool, id: nat, n: nat)
    ensures !ThreadEnabled(StateAt(held, SETUP + 5 * n + 1), id)
  {
    assert (SETUP + 5 * n + 1 - SETUP) % 5 == 1;
  }

  /** Under weak fairness alone a behaviour may wait forever, with either reading of the guards. */
  lemma WeakFairnessWaits(held: bool) returns (b: nat -> State, turn: nat -> Turn)
    ensures IsBehaviour(held, b, turn) && WeaklyFair(b, turn)
    ensures StopSent(b(SETUP).pc) && WaitsFrom(b, SETUP)
    ensures !Fair(b, turn)
  {
    b, turn := (n: nat) => StateAt(held, n), (n: nat) => TurnAt(n);
    IsOne(held, b, turn);
    forall n: nat ensures FrameMovesFrom(turn, n) {
      assert FrameTurn(turn(SETUP + n));
    }
    forall id: nat, n: nat ensures !ThreadAlwaysEnabled(b, id, n) {
      Disabled(held, id, n);
      assert !ThreadEnabled(b(SETUP + 5 * n + 1), id);
    }
    assert StopSent(b(SETUP).pc) && WaitsFrom(b, SETUP);
    if Fair(b, turn) {
      WaitLoopEnds(held, b, turn, SETUP);
    }
  }
}
