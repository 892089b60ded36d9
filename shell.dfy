/**
 * External commands (`std::process::Command`).  A command is not run here:
 * what it would print and whether it would succeed is an `Outcome` given
 * as a parameter, and an operation reports the invocations it would make,
 * so that "no command is run" is a statement about that list.
 */
module Shell {
  import opened Wrappers
  import opened Text

  /** What `output()` gives: the process ran (with its exit status and streams), or it could not be started. */
  datatype Outcome = Exited(success: bool, stdout: string, stderr: string) | SpawnFailed(error: string)

  /** A program and its arguments. */
  datatype Invocation = Invocation(program: string, args: seq<string>)

  /** The text `if let Ok(output) = …` goes on to parse; a command that did not start yields no lines. */
  function Stdout(o: Outcome): string
  {
    if o.Exited? then o.stdout else ""
  }

  /**
   * The usual ending of a command: `Ok(o) if o.status.success() => Ok(ok)`,
   * `Ok(o) => Err(stderr)`, `Err(e) => Err(e.to_string())`.
   */
  function CommandResult(o: Outcome, ok: string): (r: Result<string, string>)
    ensures r.Ok? <==> o.Exited? && o.success
    ensures r.Ok? ==> r.value == ok
  {
    match o
    case Exited(success, _, stderr) => if success then Ok(ok) else Err(stderr)
    case SpawnFailed(error) => Err(error)
  }
}
