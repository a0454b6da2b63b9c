/** Commands carried by the two queues and the claim predicates of workers. */
module Commands {
  import opened Identifiers

  /** Canonical text of a JSON value; equal values have equal texts. */
  type Value = string

  type StoredError = string

  datatype Command =
    | ContinueRun(runId: Id, workflowName: string)
    | ActivityAttempt(runId: Id, workflowName: string, activityName: string, attemptId: Id, body: Value)
    | TaskAttempt(runId: Id, workflowName: string, taskName: string, attemptId: Id, body: Value)

  /** What a polling worker declares. `Executor.activityNames == None` accepts every activity. */
  datatype Worker =
    | Coordinator(workflowNames: seq<string>)
    | Executor(workflowNames: seq<string>, activityNames: Option<seq<string>>, taskNames: seq<string>)

  /** May this worker claim (or take over) this command? */
  predicate Eligible(worker: Worker, command: Command) {
    match worker
    case Coordinator(names) => command.workflowName in names
    case Executor(names, activities, tasks) =>
      match command
      case ContinueRun(_, _) => false
      case TaskAttempt(_, _, task, _, _) => task in tasks
      case ActivityAttempt(_, workflow, activity, _, _) =>
        workflow in names && (activities.None? || activity in activities.value)
  }
}
