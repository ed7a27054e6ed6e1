/**
 * What every action shares: its completion state, the wrapper that pairs an
 * action with that state, the error kinds the actions report, and the
 * headline/explanation pairs they describe themselves with.
 */
module Actions {
  import opened Results
  import opened FileTree

  /** `ActionState`: whether the action has run. */
  datatype ActionState = Uncompleted | Progress | Completed

  /** `StatefulAction<A>`: an action together with its state. */
  datatype StatefulAction<A> = StatefulAction(action: A, state: ActionState)

  /** A program and its arguments, as handed to `execute_command`. */
  datatype Command = Command(program: string, args: seq<string>)

  /** The `ActionErrorKind` variants these actions produce. */
  datatype ActionErrorKind =
    | GettingMetadata(path: Path, io: IoError)
    | DirExists(path: Path)
    | PathWasNotDirectory(path: Path)
    | CreateDirectory(path: Path, io: IoError)
    | Rename(from: Path, to: Path, io: IoError)
    | Write(path: Path, io: IoError)
    | Remove(path: Path, io: IoError)
    | CommandFailed(command: Command)

  /** `ActionError`: an error kind tagged with the action that reported it (`Self::error`). */
  datatype ActionError = ActionError(tag: string, kind: ActionErrorKind)

  /** `ActionDescription`: a headline and the reasons behind it. */
  datatype ActionDescription = ActionDescription(description: string, explanation: seq<string>)

  /** `Self::error`, applied to an outcome: an error kind is tagged with the reporting action's tag. */
  function TagError(tag: string, o: Outcome<ActionErrorKind>): (r: Outcome<ActionError>)
    ensures r.Pass? <==> o.Pass?
    ensures r.Fail? ==> r.error == ActionError(tag, o.error)
  {
    match o
    case Pass => Pass
    case Fail(k) => Fail(ActionError(tag, k))
  }
}
