/**
 * Values shared by the screamd model: the optional value, the outcome of a
 * fallible call that returns nothing (Rust's `anyhow::Result<()>`), the
 * outcome of one that returns a value (`anyhow::Result<T>`), and the errors
 * those calls can report.
 */
module Base {

  datatype Option<+T> = None | Some(value: T)

  /** How an external command ended, as `std::process::ExitStatus` reports it. */
  datatype ExitStatus = Exited(code: int) | Signalled(signal: int)
  {
    /** `ExitStatus::success`: the command exited with code 0. */
    predicate Success() {
      Exited? && code == 0
    }
  }

  /** The errors the modelled code can propagate with `?` or `bail!`. */
  datatype Error =
    | StateCorrupt                    // state.json was read but is not a JSON string holding an RFC 3339 instant
    | StateWriteFailed                // writing the first-run state.json failed
    | BannerWriteFailed               // writing the dconf override file failed
    | CommandSpawnFailed              // an external command could not be started
    | CommandFailed(status: ExitStatus) // an external command ended without success

  /** Result of a call that yields nothing on success: `Ok(())` or an error. */
  datatype Outcome = Pass | Fail(error: Error)

  /** Result of a call that yields a value on success. */
  datatype Result<+T> = Ok(value: T) | Err(error: Error)
}
