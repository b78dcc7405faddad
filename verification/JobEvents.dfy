/** The life of a job as crates/rbs-proto/src/job.rs tells it: exit statuses, and events without their payload. */
module JobEvents {
  datatype ExitStatus = Code(code: int) | Signal(signal: int)

  datatype Event = Queued | Started | Output | Exited(status: ExitStatus) | Rejected

  predicate IsTerminal(e: Event) {
    e.Exited? || e.Rejected?
  }

  function ExitCode(s: ExitStatus): int {
    match s case Code(c) => c case Signal(n) => 128 + n
  }

  predicate Success(s: ExitStatus) {
    s == Code(0)
  }
}
