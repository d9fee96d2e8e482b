# screamd lifecycle model

screamd is a host lifecycle daemon. On its first run it stores the current
instant in `state.json`. From then on it works out two deadlines from that
start instant: the warn deadline (start plus `warn_duration_days`) and the
reboot deadline (the warn deadline plus `reboot_duration_days`). Comparing the
current instant with them puts the machine in one of three phases:

- **Warning**: the login banner shows the configured message, and a background
  task broadcasts the warning and sleeps `warn_interval_seconds`, over and
  over. The service itself never returns.
- **RebootPending**: the banner is cleared. The service sleeps 24 hours and
  reboots, over and over, until a reboot call fails.
- **ShutdownPending**: the banner is cleared and the machine is powered off
  once.

The Linux implementation of the OS capability writes the GDM login banner as a
dconf override file and runs `dconf update`, `wall` and `systemctl`.

The model has four modules:

- `Base` (base.dfy): `Option`, `Outcome` (Rust's `Result<()>`), `Result` and
  the errors.
- `EpochStore` (epoch_store.dfy): `load_or_init_state`. The class
  `StateStore` has a `record` field standing for `state.json`, and a pure
  function `LoadOrInit` says what one load does.
- `Lifecycle` (lifecycle.dfy): the deadlines and the phase choice, and
  `run_service`. `run_service` becomes the method `RunFrom` (with its two
  loops) and the method `RunService` (store plus run). `RunFrom` is proved
  equal to the specification function `ServiceRun`. `RunService` returns the
  load error with no OS call when the store fails, and otherwise equals
  `ServiceRun` from the loaded start. Lemmas prove what each phase does.
- `LinuxControl` (linux_control.dfy): the banner file content and its
  quote escaping, with an inverse and a reader for the file. The class
  `LinuxHost` holds the host's files and the commands it has run.

Instants are whole seconds. The OS capability is seen as the trace of calls
made on it (`Event`). The answers of its fallible calls are fixed in advance
(`OsReplies`): one for the banner call, one for the k-th reboot call (Ok(())
past the end of the list), and one for the shutdown call. Each unbounded
loop runs for `fuel` rounds. A run that has not returned by then is
`StillRunning`.

The model follows the code as it stands. A `state.json` that reads as text
but does not decode to an instant is a `StateCorrupt` error. One that cannot
be read at all (missing, unreadable, or not valid UTF-8) is overwritten with
the current instant, so the lifecycle starts over from that instant (in the
Warning phase when `warn_duration_days` > 0). The
reboot phase loops "sleep 24 h, reboot" until a reboot call fails.

## Model

| member | source | states |
|---|---|---|
| `Lifecycle.DeadlinesOrdered` | src/service_core.rs:27-28 | With non-negative day counts, start ≤ warn deadline ≤ reboot deadline, and the reboot deadline is (warn days + reboot days)·86400 s after the start |
| `Lifecycle.WarnDeadline` | src/service_core.rs:27 | The warn deadline lies exactly `warn_duration_days` whole days after the start, and not before the start iff that count is non-negative |
| `Lifecycle.RebootDeadline` | src/service_core.rs:28 | The reboot deadline lies the warn days plus the reboot days after the start, and not before the warn deadline iff the reboot count is non-negative |
| `Lifecycle.PhaseAt` | src/service_core.rs:53-64 | Warning iff now < warn deadline; RebootPending iff warn ≤ now < reboot; ShutdownPending iff now is at or past both deadlines (exactly one phase) |
| `Lifecycle.PhaseBoundaries` | src/service_core.rs:54-56 | An instant equal to the warn deadline is not Warning. With non-negative reboot days, the reboot deadline itself is ShutdownPending, and ShutdownPending holds iff now ≥ reboot deadline |
| `Lifecycle.FirstRebootFailure` | src/service_core.rs:58-61 | Gives the least index of a failing reply among the first n reboot calls, or None iff all n succeed |
| `Lifecycle.ServiceRun` | src/service_core.rs:26-66 | The calls of one run: the first is always the banner call. The run is still going after its rounds iff the banner call succeeded and the phase is Warning, or RebootPending with no failing reboot among the rounds; a ShutdownPending run always returns |
| `Lifecycle.RunFrom` | src/service_core.rs:26-66 | The method runs the banner call, the spawned warning loop and the phase loops for `fuel` rounds. Its status and trace equal `ServiceRun` |
| `Lifecycle.RunService` | src/service_core.rs:21-67 | Loads or creates the start instant and leaves state.json as `LoadOrInit` says. A load error returns at once with no OS call; otherwise the run equals `ServiceRun` from the loaded start |
| `Lifecycle.BannerComesFirst` | src/service_core.rs:33-38 | The first call is always the banner call: the warning message iff now < warn deadline, no banner iff now ≥ warn deadline. A failing banner call ends the run with its error before any other call |
| `Lifecycle.WarningRoundsShape` | src/service_core.rs:45-50 | n warning rounds are 2n events alternating ShowWarning(msg) and Sleep(interval), with n warnings |
| `Lifecycle.RebootRoundsShape` | src/service_core.rs:58-61 | n reboot rounds are 2n events alternating Sleep(86400) and Reboot, with n reboots |
| `Lifecycle.WarningPath` | src/service_core.rs:40-55 | In the Warning phase the trace is SetLoginBanner(Some msg) followed by alternating ShowWarning(msg)/Sleep(interval), one warning per round. It has no Reboot and no Shutdown, and the run never returns |
| `Lifecycle.WarningTraceShape` | src/service_core.rs:40-50 | The Some banner followed by n warning rounds is 2n+1 events, alternating ShowWarning(msg) and Sleep(interval) after the banner, with n warnings and no Reboot or Shutdown |
| `Lifecycle.RebootTraceShape` | src/service_core.rs:56-61 | The cleared banner followed by n reboot rounds is 2n+1 events alternating Sleep(86400) and Reboot after the banner, so each Reboot comes straight after Sleep(86400). There are n reboots and no warning or shutdown |
| `Lifecycle.RebootPath` | src/service_core.rs:56-61 | In the RebootPending phase the trace is exactly the cleared banner followed by alternating Sleep(86400) and Reboot, nothing else, so its length is one plus twice the reboots and every Reboot comes straight after Sleep(86400). No ShowWarning or Shutdown happens. The run returns iff some reboot call within the rounds fails, and then with the error of the first failing call, all earlier calls having succeeded, after exactly that many reboots; otherwise it made one reboot per round |
| `Lifecycle.RebootLoopWithoutFailures` | src/service_core.rs:56-61 | With a capability whose reboot always answers Ok(()), the reboot loop never returns and reboots once per round. The Linux `reboot` (src/linux_control.rs:62-65) is such a capability; that link is informal, the lemma's hypothesis being an empty list of reboot replies |
| `Lifecycle.ShutdownPath` | src/service_core.rs:62-66 | In the ShutdownPending phase the trace is exactly cleared banner then Shutdown, so exactly one shutdown and no reboot. The run returns the shutdown result, so Ok(()) when it succeeds |
| `Lifecycle.FirstRun` | src/service_core.rs:25-28 | On a first run the start is the clock reading taken by the store and is ≤ the phase-evaluation `now` when the clock does not go back. The phase is Warning iff less than the warn duration has elapsed |
| `Lifecycle.WarningTestScenario` | src/service_core.rs:126-161 | Config ("X", 1, 1, 1) started now: the banner is set to "X" and at least one warning is shown |
| `Lifecycle.RebootTestScenarioShutsDown` | src/service_core.rs:163-186 | Config ("X", 0, 1, 1) started two days ago is in the ShutdownPending phase and never reboots |
| `Lifecycle.RebootWindowScenario` | src/service_core.rs:56-61 | The same config started half a day ago is RebootPending. The first reboot comes after a 24-hour sleep, there is one reboot per round, and the run does not return |
| `Lifecycle.ShutdownTestScenario` | src/service_core.rs:188-206 | Config ("X", 0, 0, 1) started a week ago calls shutdown exactly once, never reboots, and returns Ok(()) |
| `EpochStore.LoadOrInit` | src/service_core.rs:69-79 | One load: a readable record is never rewritten, a failed load leaves state.json as it was, and a successful load leaves a record in state.json |
| `EpochStore.ExistingRecordIsKept` | src/service_core.rs:71-74 | A readable state.json is never rewritten. The load returns t iff the text parses to t, and an unparsable record is a StateCorrupt error rather than a re-initialisation |
| `EpochStore.UnreadableRecordIsInitialised` | src/service_core.rs:75-78 | When state.json cannot be read, the current instant is written and returned. If that write fails, the load fails and nothing is stored |
| `EpochStore.EpochIsStable` | src/service_core.rs:69-79 | If encoding round-trips, then once a load succeeds every later load returns the same instant, whatever the clock reads, and leaves state.json unchanged |
| `EpochStore.StateStore.LoadOrInitState` | src/service_core.rs:69-79 | The result and the new content of state.json are those of `LoadOrInit` on the old content |
| `LinuxControl.Escape` | src/linux_control.rs:41 | The escaped message is one character longer than the message for each single quote in it |
| `LinuxControl.EscapeAppend` | src/linux_control.rs:41 | Escaping works character by character: escaping a concatenation concatenates the escapes |
| `LinuxControl.EscapedQuotesFollowBackslash` | src/linux_control.rs:41 | Every single quote in an escaped message comes straight after a backslash |
| `LinuxControl.EscapeStartsWithoutQuote` | src/linux_control.rs:41 | An escaped message never starts with a single quote |
| `LinuxControl.EscapeWithoutQuotes` | src/linux_control.rs:41 | A message without single quotes, backslashes included, is written unchanged |
| `LinuxControl.UnescapeEscape` | src/linux_control.rs:41 | Deleting the character before each single quote of the escaped message recovers the message |
| `LinuxControl.BannerContent` | src/linux_control.rs:34-47 | The file content for a banner: the fixed prefix, the escaped message and the closing quote line, so one character longer than prefix, message and suffix for each single quote; the fixed disabled content for no banner |
| `LinuxControl.BannerContentRoundTrip` | src/linux_control.rs:34-47 | Both the enabled and the disabled file begin with the `[org/gnome/login-screen]` header line. The model's reader `ParseBanner`, which cuts the fixed prefix and suffix off by position, gives back exactly the banner that was set, Some(msg) or None. This is not a claim that dconf reads every such file that way: a message ending in `\` or holding a line break is not read back as written |
| `LinuxControl.TrailingBackslashEscapesClosingQuote` | src/linux_control.rs:36-42 | Backslashes are not escaped: for a message ending in `\`, the closing quote of the banner text comes straight after a backslash |
| `LinuxControl.DconfOutcome` | src/linux_control.rs:51-58 | After the write the result is Ok(()) iff `dconf update` started and exited with code 0. A start failure is an error |
| `LinuxControl.LinuxHost.constructor` | src/linux_control.rs:13-16 | A new control has a warning interval of 3600 s and has run no commands |
| `LinuxControl.LinuxHost.WarnInterval` | src/linux_control.rs:72-74 | Every control reports the one-hour interval that `new` fixed |
| `LinuxControl.LinuxHost.ShowWarning` | src/linux_control.rs:21-26 | Runs `wall` with the message. How it ends is ignored, and no file changes |
| `LinuxControl.LinuxHost.SetLoginBanner` | src/linux_control.rs:30-59 | A failed write is an error with no file change and no dconf run. Otherwise the fixed override path gets the banner content, `dconf update` runs, and its status decides the result |
| `LinuxControl.LinuxHost.Reboot` | src/linux_control.rs:62-65 | Runs `systemctl reboot` and returns Ok(()) however the command ends |
| `LinuxControl.LinuxHost.Shutdown` | src/linux_control.rs:67-70 | Runs `systemctl poweroff` and returns Ok(()) however the command ends |

## Left out

- Concurrency: `tokio::spawn`, `Arc` sharing and the scheduling of the warning task are not modelled. The warning task's rounds appear in the trace right after the banner call. The main flow's `std::future::pending` is the `StillRunning` status. No interleaving is modelled.
- Unbounded loops: the warning loop and the reboot loop run for `fuel` rounds. Claims about "forever" are claims for every `fuel`.
- Clocks: the two `Utc::now()` readings (inside the store and before the phase choice) are parameters. Sub-second precision is dropped.
- Time arithmetic overflow: integers are unbounded, so the panics of `ChronoDuration::days` and of `DateTime + Duration` on out-of-range values are not modelled.
- Parsing and formatting: `serde_json` and chrono's RFC 3339 parse and format are a `Codec` parameter. The only assumption made about them, and only where stated, is that decoding what was encoded gives the same instant.
- File I/O: a failed `fs::write` is modelled as writing nothing, not as a partial write. The error from `serde_json::to_string` on a string is not modelled.
- The `wall`, `dconf` and `systemctl` processes themselves, and the text of the `dconf update failed` message (the error carries the exit status instead).
- `warn_interval` is not part of the capability used by `run_service`, which sleeps `config.warn_interval_seconds`. Only its value, 3600 s, is modelled.
- src/windows_control.rs, src/main.rs (TOML config loading, platform selection), build.rs and src/os_control.rs are not part of this model. The capability interface is the `Event` alphabet.
- Not in the code, so not modelled: debug minute-scaling, a daily reboot time, a shell banner, and a configurable state path. The unit tests set `STATE_PATH`, but the code always reads `state.json`.
- The unit test `reboot_phase_triggers_reboots` expects a reboot within 10 ms. The code sleeps 24 hours before the first reboot, and the model follows the code.

## Findings

| source | as written | input that shows it | evidently intended | confidence | as-written member | corrected member |
|---|---|---|---|---|---|---|
| src/service_core.rs:163-186 | The test starts two days back with no warn day and one reboot day, and expects reboots | start = now − 172800 s, `warn_duration_days` = 0, `reboot_duration_days` = 1: the reboot deadline is now − 86400 s ≤ now, so the run shuts down and never reboots | A start inside the one-day reboot window, such as now − 43200 s, where the run is RebootPending and reboots after each 24-hour sleep | not executed | `Lifecycle.RebootTestScenarioShutsDown` | `Lifecycle.RebootWindowScenario` |
