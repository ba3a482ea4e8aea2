/** Canonical events as the rework analysis sees them. */
module ReworkEvents {
  import opened Effort

  datatype Option<+T> = None | Some(value: T)

  datatype Operation = Test | Build | Lint | APICall | Edit | Read | Execute | Other

  datatype Target = Target(file: string, command: string, workingDirectory: string)

  // canonical.Event as far as the analysis looks at it; 0 is the zero time.
  datatype Event = Event(agentId: string, operation: Operation, target: Target, success: Option<bool>,
                         startedAt: int, endedAt: int, observedAt: int, toolName: string, tool: bool,
                         attemptId: string, fingerprint: string, ambiguous: bool)

  predicate Failed(e: Event) {
    e.success == Some(false)
  }

  predicate IsValidation(op: Operation) {
    op.Test? || op.Build? || op.Lint?
  }

  predicate Retryable(op: Operation) {
    op.Execute? || IsValidation(op)
  }

  function EventTime(e: Event): int {
    if e.startedAt != 0 then e.startedAt else e.observedAt
  }

  function EventEnd(e: Event): int {
    if e.endedAt != 0 then e.endedAt else e.observedAt
  }

  function Duration(e: Event): int {
    PositiveDuration(e.startedAt, e.endedAt)
  }

  // The source joins the three parts with NUL bytes; here they stay a tuple.
  datatype RetryKey = RetryKey(agentId: string, operation: Operation, target: string)

  function KeyOf(e: Event): Option<RetryKey> {
    var target := if e.target.command != "" then e.target.command
                  else if e.target.file != "" then e.target.file
                  else if e.toolName != "" then e.toolName
                  else if e.operation.APICall? then "model-api"
                  else "";
    if target == "" then None else Some(RetryKey(e.agentId, e.operation, target))
  }
}
