// The experiment life cycle shared by the belt-conveyor experiment controller
// and the experiment manager: the four states of `ExperimentState` and the
// state each of the five commands leads to. Both controllers guard their
// commands identically; what else they change lives in their own modules.

module Experiments {
  datatype ExperimentState = NotStarted | Running | Paused | Completed

  datatype Command = Start | Pause | Resume | Stop | Reset

  /**
   * The state after a command: Start acts in every state but Running, Pause
   * only in Running, Resume only in Paused, Stop in every state but
   * NotStarted, and Reset always.
   */
  function Transition(state: ExperimentState, command: Command): ExperimentState
  {
    match command
    case Start => Running
    case Pause => if state == Running then Paused else state
    case Resume => if state == Paused then Running else state
    case Stop => if state == NotStarted then NotStarted else Completed
    case Reset => NotStarted
  }

  /** Whether a command changes anything at all, i.e. is not turned away by its guard. */
  predicate Accepts(state: ExperimentState, command: Command)
  {
    match command
    case Start => state != Running
    case Pause => state == Running
    case Resume => state == Paused
    case Stop => state != NotStarted
    case Reset => true
  }

  /**
   * A turned-away command leaves the state as it is; an accepted Start, Pause
   * or Resume always moves it, while Stop on a completed experiment and Reset
   * on one not started are accepted but land where they were.
   */
  lemma RejectedCommandsChangeNothing(state: ExperimentState, command: Command)
    ensures !Accepts(state, command) ==> Transition(state, command) == state
    ensures Accepts(state, command) && command in {Start, Pause, Resume} ==> Transition(state, command) != state
    ensures Accepts(state, command) && Transition(state, command) == state <==>
              (command == Stop && state == Completed) || (command == Reset && state == NotStarted)
  {
  }

  /** Start and Stop are idempotent, and Pause then Resume returns a running experiment to Running. */
  lemma CommandsCompose(state: ExperimentState)
    ensures Transition(Transition(state, Start), Start) == Transition(state, Start) == Running
    ensures Transition(Transition(state, Stop), Stop) == Transition(state, Stop)
    ensures state == Running ==> Transition(Transition(state, Pause), Resume) == Running
    ensures Transition(Transition(state, Reset), Stop) == NotStarted
  {
  }

  /** The state after a sequence of commands. */
  function Run(state: ExperimentState, commands: seq<Command>): ExperimentState
    decreases |commands|
  {
    if |commands| == 0 then state else Run(Transition(state, commands[0]), commands[1..])
  }

  /** Completed is entered only through Stop: a run ending there from another state contains one. */
  lemma {:induction false} CompletedOnlyByStop(state: ExperimentState, commands: seq<Command>)
    requires state != Completed && Run(state, commands) == Completed
    ensures Stop in commands
    decreases |commands|
  {
    var next := Transition(state, commands[0]);
    if commands[0] != Stop {
      assert next != Completed;
      CompletedOnlyByStop(next, commands[1..]);
    }
  }

  /** Paused is entered only through Pause: a run ending there from another state contains one. */
  lemma {:induction false} PausedOnlyByPause(state: ExperimentState, commands: seq<Command>)
    requires state != Paused && Run(state, commands) == Paused
    ensures Pause in commands
    decreases |commands|
  {
    var next := Transition(state, commands[0]);
    if commands[0] != Pause {
      assert next != Paused;
      PausedOnlyByPause(next, commands[1..]);
    }
  }
}
