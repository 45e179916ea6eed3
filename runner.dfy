/**
 The command runner of release_push.py (`run`). Spawning the shell is not modelled: what
 the child process produced is an input, and `run` only decides whether the caller sees it
 or an execution error.
 */
module Runner {
  import opened Text

  /** The command lines the release script issues, one constructor per line it formats. */
  datatype Command =
    | StageAll                    // git add -A
    | Status                      // git status --porcelain
    | Commit(message: string)     // git commit -m "<message>"
    | Push(branch: string)        // git push origin <branch>
    | ForcePush(branch: string)   // git push origin <branch> --force
    | Log(count: int)             // git log -n <count> --pretty=format:"%h - %an: %s"

  /** What the child process did: its exit code and its combined stdout/stderr text. */
  datatype ShellResult = ShellResult(code: int, output: string)

  /** The `RuntimeError` that `run` raises, with what its message carries. */
  datatype CommandError = CommandFailed(cmd: Command, code: int, out: Option<string>)

  /** `run` either returns `(returncode, out)` or raises. */
  datatype RunOutcome = Completed(code: int, out: Option<string>) | Raised(error: CommandError)

  /** `run(cmd, check=check, capture=capture)` for a child that behaved as `result` says.
      It raises exactly when `check` is set and the exit code is nonzero; otherwise it hands
      back the exit code, with the output only when it was captured (`None` otherwise). */
  function Run(cmd: Command, check: bool, capture: bool, result: ShellResult): (o: RunOutcome)
    ensures o.Raised? <==> check && result.code != 0
    ensures o.Raised? ==> o.error.cmd == cmd && o.error.code == result.code
    ensures o.Completed? ==> o.code == result.code
    ensures o.Completed? ==> (o.out.Some? <==> capture)
    ensures o.Completed? && capture ==> o.out.value == result.output
  {
    var out := if capture then Some(result.output) else None;
    if check && result.code != 0 then Raised(CommandFailed(cmd, result.code, out))
    else Completed(result.code, out)
  }
}
