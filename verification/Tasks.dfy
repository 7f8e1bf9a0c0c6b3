/** The task record and its life-cycle states, as far as the manager reasons about them. */
module Tasks {

  datatype Result<+T, +E> = Ok(value: T) | Err(error: E)

  datatype State =
    | Pending
    | Scheduled
    | Running
    | Completed
    | Failed
    | Skipped
    | Interrupted
  {
    predicate IsTerminal() {
      Completed? || Failed? || Skipped? || Interrupted?
    }

    /** The states a dependency may be in when its dependent is dispatched. */
    predicate IsSettled() {
      Completed? || Failed? || Skipped?
    }

    predicate IsActive() {
      Running? || Scheduled?
    }
  }

  const RUN_IF_SUCCESS := "success"
  const RUN_IF_FAILURE := "failure"

  /** A metadata value: a string, or any other value together with its printed form. */
  datatype Value = Str(s: string) | Other(printed: string)
  {
    function Text(): string {
      match this
      case Str(s) => s
      case Other(p) => p
    }
  }

  type Metadata = map<string, Value>

  datatype Task = Task(
    id: string,
    name: string,
    state: State,
    dependsOn: seq<string>,
    runIf: string,
    workflowId: string,
    jobId: string,
    propletId: string,
    broadcast: bool,
    error: string,
    metadata: Metadata)

  predicate UniqueIds(tasks: seq<Task>) {
    forall i, j :: 0 <= i < j < |tasks| ==> tasks[i].id != tasks[j].id
  }
}
