/**
 * The phase lifecycle of screamd (`run_service` in src/service_core.rs).
 *
 * From the persisted start instant the service derives a warn deadline and a
 * reboot deadline, picks one of three phases by comparing the current instant
 * against them, sets or clears the login banner, and then either keeps
 * warning (and never returns), reboots every 24 hours, or shuts the machine
 * down once.
 *
 * Instants are whole seconds. The OsControl capability is observed as the
 * trace of calls made on it (Event); the answers of its fallible calls are
 * fixed in advance (OsReplies). The two unbounded loops of `run_service` are
 * followed for `fuel` rounds; a run that has not returned after them is
 * StillRunning.
 */
module Lifecycle {
  import opened Base
  import EpochStore

  const DaySeconds: nat := 86400

  /** The pause before each reboot attempt: 24 * 3600 seconds. */
  const RebootPause: nat := 24 * 3600

  /** The service configuration (`Config`); durations are whole days. */
  datatype Config = Config(
    warnMessage: string,
    warnDurationDays: int,
    rebootDurationDays: int,
    warnIntervalSeconds: nat)

  datatype Phase = Warning | RebootPending | ShutdownPending

  /** The calls `run_service` makes on its OsControl capability, and its sleeps. */
  datatype Event =
    | SetLoginBanner(banner: Option<string>)
    | ShowWarning(message: string)
    | Sleep(seconds: nat)
    | Reboot
    | Shutdown

  /** What the capability answers: to the banner call, to the k-th reboot
      call (`reboots[k]`, and Ok(()) past the end of the list), and to the
      shutdown call. `show_warning` has no result. */
  datatype OsReplies = OsReplies(banner: Outcome, reboots: seq<Outcome>, shutdown: Outcome)

  /** Where a run stands after its loops have had their rounds: still running,
      or returned with `Ok(())` (Pass) or an error. */
  datatype Status = StillRunning | Returned(result: Outcome)

  datatype Run = Run(status: Status, trace: seq<Event>)

  /** The start instant plus `warn_duration_days` whole days. */
  function WarnDeadline(start: int, config: Config): (d: int)
    ensures (d - start) % DaySeconds == 0 && (d - start) / DaySeconds == config.warnDurationDays
    ensures start <= d <==> config.warnDurationDays >= 0
  {
    start + config.warnDurationDays * DaySeconds
  }

  /** The warn deadline plus `reboot_duration_days` whole days. */
  function RebootDeadline(start: int, config: Config): (d: int)
    ensures d - start == (config.warnDurationDays + config.rebootDurationDays) * DaySeconds
    ensures WarnDeadline(start, config) <= d <==> config.rebootDurationDays >= 0
  {
    WarnDeadline(start, config) + config.rebootDurationDays * DaySeconds
  }

  /** With non-negative durations the deadlines never precede the start or
      each other, and the reboot deadline lies the two durations after it. */
  lemma DeadlinesOrdered(start: int, config: Config)
    requires config.warnDurationDays >= 0 && config.rebootDurationDays >= 0
    ensures start <= WarnDeadline(start, config) <= RebootDeadline(start, config)
    ensures RebootDeadline(start, config) - start
            == (config.warnDurationDays + config.rebootDurationDays) * DaySeconds
  {
  }

  /** The three-way choice; the comparisons are strict, so an instant on a
      deadline belongs to the later phase. */
  function PhaseAt(now: int, warnDeadline: int, rebootDeadline: int): (p: Phase)
    ensures p == Warning <==> now < warnDeadline
    ensures p == RebootPending <==> warnDeadline <= now < rebootDeadline
    ensures p == ShutdownPending <==> warnDeadline <= now && rebootDeadline <= now
  {
    if now < warnDeadline then Warning
    else if now < rebootDeadline then RebootPending
    else ShutdownPending
  }

  function PhaseOf(config: Config, start: int, now: int): Phase
  {
    PhaseAt(now, WarnDeadline(start, config), RebootDeadline(start, config))
  }

  /** Deadline instants go to the later phase; with non-negative durations the
      phase is exactly the interval `now` falls in. */
  lemma PhaseBoundaries(config: Config, start: int, now: int)
    ensures PhaseOf(config, start, WarnDeadline(start, config)) != Warning
    ensures config.rebootDurationDays >= 0 ==>
              PhaseOf(config, start, RebootDeadline(start, config)) == ShutdownPending
    ensures config.rebootDurationDays >= 0 ==>
              (PhaseOf(config, start, now) == ShutdownPending <==> RebootDeadline(start, config) <= now)
  {
  }

  function RebootReply(os: OsReplies, k: nat): Outcome
  {
    if k < |os.reboots| then os.reboots[k] else Pass
  }

  /** The first of the reboot calls 0 .. n-1 that fails, if any. */
  function FirstRebootFailure(os: OsReplies, n: nat): (k: Option<nat>)
    ensures k.Some? ==> k.value < n && RebootReply(os, k.value).Fail?
    ensures k.Some? ==> forall j :: 0 <= j < k.value ==> RebootReply(os, j).Pass?
    ensures k.None? ==> forall j :: 0 <= j < n ==> RebootReply(os, j).Pass?
  {
    if n == 0 then None
    else
      match FirstRebootFailure(os, n - 1)
      case Some(k) => Some(k)
      case None => if RebootReply(os, n - 1).Fail? then Some(n - 1) else None
  }

  /** n rounds of a loop whose body does a, then b. */
  function Rounds<T>(a: T, b: T, n: nat): seq<T>
  {
    if n == 0 then [] else Rounds(a, b, n - 1) + [a, b]
  }

  /** n rounds of the spawned warning loop. */
  function WarningRounds(message: string, interval: nat, n: nat): seq<Event>
  {
    Rounds(ShowWarning(message), Sleep(interval), n)
  }

  /** n rounds of the reboot loop. */
  function RebootRounds(n: nat): seq<Event>
  {
    Rounds(Sleep(RebootPause), Reboot, n)
  }

  /** The calls of one run of `run_service` from the start instant `start`,
      with the phase evaluated at `now`, each loop given `fuel` rounds. */
  function ServiceRun(config: Config, start: int, now: int, os: OsReplies, fuel: nat): (r: Run)
    ensures r.trace != [] && r.trace[0].SetLoginBanner?
    ensures r.status.StillRunning? <==>
              os.banner.Pass?
              && (PhaseOf(config, start, now) == Warning
                  || (PhaseOf(config, start, now) == RebootPending && FirstRebootFailure(os, fuel).None?))
  {
    var phase := PhaseOf(config, start, now);
    var head := [SetLoginBanner(if phase == Warning then Some(config.warnMessage) else None)];
    if os.banner.Fail? then Run(Returned(os.banner), head)
    else
      match phase
      case Warning =>
        Run(StillRunning, head + WarningRounds(config.warnMessage, config.warnIntervalSeconds, fuel))
      case RebootPending =>
        (match FirstRebootFailure(os, fuel)
         case Some(k) => Run(Returned(RebootReply(os, k)), head + RebootRounds(k + 1))
         case None => Run(StillRunning, head + RebootRounds(fuel)))
      case ShutdownPending =>
        Run(Returned(os.shutdown), head + [Shutdown])
  }

  /** `run_service` after the start instant is known. */
  method RunFrom(config: Config, start: int, now: int, os: OsReplies, fuel: nat)
    returns (status: Status, trace: seq<Event>)
    ensures Run(status, trace) == ServiceRun(config, start, now, os, fuel)
  {
    var warnDeadline := start + config.warnDurationDays * DaySeconds;
    var rebootDeadline := warnDeadline + config.rebootDurationDays * DaySeconds;

    if now < warnDeadline {
      trace := [SetLoginBanner(Some(config.warnMessage))];
    } else {
      trace := [SetLoginBanner(None)];
    }
    if os.banner.Fail? {
      return Returned(os.banner), trace;
    }

    // The spawned warning task.
    if now < warnDeadline {
      var i := 0;
      while i < fuel
        invariant i <= fuel
        invariant trace == [SetLoginBanner(Some(config.warnMessage))]
                           + WarningRounds(config.warnMessage, config.warnIntervalSeconds, i)
      {
        trace := trace + [ShowWarning(config.warnMessage), Sleep(config.warnIntervalSeconds)];
        i := i + 1;
      }
    }

    if now < warnDeadline {
      // `std::future::pending`: the main flow never resumes.
      status := StillRunning;
    } else if now < rebootDeadline {
      var k := 0;
      while k < fuel
        invariant k <= fuel
        invariant trace == [SetLoginBanner(None)] + RebootRounds(k)
        invariant forall j :: 0 <= j < k ==> RebootReply(os, j).Pass?
      {
        trace := trace + [Sleep(RebootPause), Reboot];
        var reply := RebootReply(os, k);
        if reply.Fail? {
          return Returned(reply), trace;
        }
        k := k + 1;
      }
      status := StillRunning;
    } else {
      trace := trace + [Shutdown];
      status := Returned(os.shutdown);
    }
  }

  /** `run_service`: load (or create) the start instant, with the clock
      reading `loadClock` inside the store, then run from it with the phase
      evaluated at `now`. */
  method RunService(config: Config, store: EpochStore.StateStore, loadClock: int, now: int,
                    os: OsReplies, fuel: nat)
    returns (status: Status, trace: seq<Event>)
    modifies store
    ensures var loaded := EpochStore.LoadOrInit(old(store.record), store.writable, loadClock, store.codec);
            && store.record == loaded.record
            && (loaded.result.Err? ==> status == Returned(Fail(loaded.result.error)) && trace == [])
            && (loaded.result.Ok? ==> Run(status, trace) == ServiceRun(config, loaded.result.value, now, os, fuel))
  {
    var start := store.LoadOrInitState(loadClock);
    if start.Err? {
      return Returned(Fail(start.error)), [];
    }
    status, trace := RunFrom(config, start.value, now, os, fuel);
  }

  // ---------------------------------------------------------------------
  // Properties of a run

  /** The first call is always the banner call: the warning message before
      the warn deadline, no banner from then on. A failing banner call ends
      the run with its error before anything else is called. */
  lemma BannerComesFirst(config: Config, start: int, now: int, os: OsReplies, fuel: nat)
    ensures var run := ServiceRun(config, start, now, os, fuel);
            && |run.trace| >= 1
            && (run.trace[0] == SetLoginBanner(Some(config.warnMessage)) <==> now < WarnDeadline(start, config))
            && (run.trace[0] == SetLoginBanner(None) <==> WarnDeadline(start, config) <= now)
    ensures os.banner.Fail? ==>
              var run := ServiceRun(config, start, now, os, fuel);
              |run.trace| == 1 && run.status == Returned(os.banner)
  {
  }

  /** `s` is a, b, a, b, ... */
  ghost predicate Alternates<T>(s: seq<T>, a: T, b: T) {
    forall i :: 0 <= i < |s| ==> s[i] == if i % 2 == 0 then a else b
  }

  /** One more round keeps an even-length alternation alternating. */
  lemma AlternatesAppend<T>(s: seq<T>, a: T, b: T)
    requires |s| % 2 == 0 && Alternates(s, a, b)
    ensures Alternates(s + [a, b], a, b)
  {
    var t := s + [a, b];
    forall i | 0 <= i < |t| ensures t[i] == if i % 2 == 0 then a else b {
      if i < |s| {
        assert t[i] == s[i];
      } else if i == |s| {
        assert t[i] == a;
      } else {
        assert i == |s| + 1 && t[i] == b;
      }
    }
  }

  /** How often `x` occurs after one more round of a and b. */
  lemma RoundCount<T>(s: seq<T>, a: T, b: T, x: T)
    ensures multiset(s + [a, b])[x]
            == multiset(s)[x] + (if x == a then 1 else 0) + (if x == b then 1 else 0)
  {
    assert multiset(s + [a, b]) == multiset(s) + multiset{a} + multiset{b};
  }

  /** n rounds are 2n steps alternating a and b. */
  lemma {:induction false} RoundsAlternate<T>(a: T, b: T, n: nat)
    ensures |Rounds(a, b, n)| == 2 * n && Alternates(Rounds(a, b, n), a, b)
  {
    if n > 0 {
      RoundsAlternate(a, b, n - 1);
      AlternatesAppend(Rounds(a, b, n - 1), a, b);
    }
  }

  /** n rounds hold `x` n times for each of a and b it equals. */
  lemma {:induction false} RoundsCount<T>(a: T, b: T, n: nat, x: T)
    ensures multiset(Rounds(a, b, n))[x] == (if x == a then n else 0) + (if x == b then n else 0)
  {
    if n > 0 {
      RoundsCount(a, b, n - 1, x);
      RoundCount(Rounds(a, b, n - 1), a, b, x);
    }
  }

  /** n rounds are 2n steps alternating a and b, with n of each when the
      two differ. */
  lemma RoundsShape<T>(a: T, b: T, n: nat)
    ensures var r := Rounds(a, b, n);
            && |r| == 2 * n
            && Alternates(r, a, b)
            && (a != b ==> multiset(r)[a] == n && multiset(r)[b] == n)
  {
    RoundsAlternate(a, b, n);
    RoundsCount(a, b, n, a);
    RoundsCount(a, b, n, b);
  }

  lemma WarningRoundsShape(message: string, interval: nat, n: nat)
    ensures var w := WarningRounds(message, interval, n);
            && |w| == 2 * n
            && Alternates(w, ShowWarning(message), Sleep(interval))
            && multiset(w)[ShowWarning(message)] == n
  {
    RoundsShape(ShowWarning(message), Sleep(interval), n);
  }

  lemma RebootRoundsShape(n: nat)
    ensures var r := RebootRounds(n);
            && |r| == 2 * n
            && Alternates(r, Sleep(RebootPause), Reboot)
            && multiset(r)[Reboot] == n
  {
    RoundsShape(Sleep(RebootPause), Reboot, n);
  }

  /** Warning phase: after the banner, warning and sleeping alternate, one
      warning per round; nothing is rebooted or shut down, and the run never
      returns. */
  lemma WarningPath(config: Config, start: int, now: int, os: OsReplies, fuel: nat)
    requires os.banner.Pass? && PhaseOf(config, start, now) == Warning
    ensures var t := ServiceRun(config, start, now, os, fuel).trace;
            && |t| == 1 + 2 * fuel
            && t[0] == SetLoginBanner(Some(config.warnMessage))
            && (forall i :: 1 <= i < |t| ==>
                  t[i] == if i % 2 == 1 then ShowWarning(config.warnMessage) else Sleep(config.warnIntervalSeconds))
            && multiset(t)[ShowWarning(config.warnMessage)] == fuel
            && Reboot !in t && Shutdown !in t
    ensures ServiceRun(config, start, now, os, fuel).status == StillRunning
  {
    var t := [SetLoginBanner(Some(config.warnMessage))]
             + WarningRounds(config.warnMessage, config.warnIntervalSeconds, fuel);
    assert ServiceRun(config, start, now, os, fuel) == Run(StillRunning, t);
    WarningTraceShape(config.warnMessage, config.warnIntervalSeconds, fuel);
  }

  /** The banner call followed by n warning rounds: warnings and sleeps
      alternate after the banner, n warnings, and no reboot or shutdown. */
  lemma WarningTraceShape(message: string, interval: nat, n: nat)
    ensures var t := [SetLoginBanner(Some(message))] + WarningRounds(message, interval, n);
            && |t| == 1 + 2 * n
            && (forall i :: 1 <= i < |t| ==> t[i] == if i % 2 == 1 then ShowWarning(message) else Sleep(interval))
            && multiset(t)[ShowWarning(message)] == n
            && Reboot !in t && Shutdown !in t
  {
    var w := WarningRounds(message, interval, n);
    var t := [SetLoginBanner(Some(message))] + w;
    assert |w| == 2 * n && forall k :: 0 <= k < |w| ==> w[k] == if k % 2 == 0 then ShowWarning(message) else Sleep(interval) by {
      WarningRoundsShape(message, interval, n);
    }
    forall i | 1 <= i < |t| ensures t[i] == if i % 2 == 1 then ShowWarning(message) else Sleep(interval) {
      var j := i - 1;
      assert t[i] == w[j];
      assert j % 2 == 0 <==> i % 2 == 1;
    }
    assert multiset(t)[ShowWarning(message)] == n by {
      WarningRoundsShape(message, interval, n);
      assert multiset(t) == multiset{SetLoginBanner(Some(message))} + multiset(w);
    }
    forall e | e in t ensures e != Reboot && e != Shutdown {
      var i :| 0 <= i < |t| && t[i] == e;
    }
  }

  /** After its first event, `t` alternates 24-hour sleeps and reboots. */
  ghost predicate SleepsThenReboots(t: seq<Event>) {
    forall i :: 1 <= i < |t| ==> t[i] == if i % 2 == 1 then Sleep(RebootPause) else Reboot
  }

  /** A trace that opens with the cleared banner and then alternates sleeps
      and reboots has each reboot right after a 24-hour sleep, and no warning
      or shutdown. */
  lemma SleepsThenRebootsFacts(t: seq<Event>)
    requires |t| >= 1 && t[0] == SetLoginBanner(None) && SleepsThenReboots(t)
    ensures forall i :: 0 <= i < |t| && t[i] == Reboot ==> i >= 1 && t[i - 1] == Sleep(RebootPause)
    ensures forall e :: e in t ==> !e.ShowWarning? && e != Shutdown
  {
    forall i | 0 <= i < |t| && t[i] == Reboot ensures i >= 1 && t[i - 1] == Sleep(RebootPause) {
      assert i % 2 == 0;
      assert (i - 1) % 2 == 1;
    }
    forall e | e in t ensures !e.ShowWarning? && e != Shutdown {
      var i :| 0 <= i < |t| && t[i] == e;
    }
  }

  /** After the banner call, n reboot rounds alternate sleeps and reboots. */
  lemma RebootTraceAlternates(n: nat)
    ensures var t := [SetLoginBanner(None)] + RebootRounds(n);
            |t| == 1 + 2 * n && SleepsThenReboots(t)
  {
    var r := RebootRounds(n);
    var t := [SetLoginBanner(None)] + r;
    assert |r| == 2 * n && forall k :: 0 <= k < |r| ==> r[k] == if k % 2 == 0 then Sleep(RebootPause) else Reboot by {
      RebootRoundsShape(n);
    }
    forall i | 1 <= i < |t| ensures t[i] == if i % 2 == 1 then Sleep(RebootPause) else Reboot {
      var j := i - 1;
      assert t[i] == r[j];
      assert j % 2 == 0 <==> i % 2 == 1;
    }
  }

  /** The banner call followed by n reboot rounds holds n reboots. */
  lemma RebootTraceCount(n: nat)
    ensures multiset([SetLoginBanner(None)] + RebootRounds(n))[Reboot] == n
  {
    var r := RebootRounds(n);
    RebootRoundsShape(n);
    assert multiset([SetLoginBanner(None)] + r) == multiset{SetLoginBanner(None)} + multiset(r);
  }

  /** The banner call followed by n reboot rounds: 2n events alternating
      24-hour sleeps and reboots after the banner, each reboot right after a
      sleep, n reboots, and no warning or shutdown. */
  lemma RebootTraceShape(n: nat)
    ensures var t := [SetLoginBanner(None)] + RebootRounds(n);
            && |t| == 1 + 2 * n
            && SleepsThenReboots(t)
            && (forall i :: 0 <= i < |t| && t[i] == Reboot ==> i >= 1 && t[i - 1] == Sleep(RebootPause))
            && (forall e :: e in t ==> !e.ShowWarning? && e != Shutdown)
            && multiset(t)[Reboot] == n
  {
    RebootTraceAlternates(n);
    SleepsThenRebootsFacts([SetLoginBanner(None)] + RebootRounds(n));
    RebootTraceCount(n);
  }

  /** Reboot-pending phase: after clearing the banner the trace is nothing
      but alternating 24-hour sleeps and reboots, so every reboot is
      immediately preceded by a 24-hour sleep; no warning is shown and no
      shutdown requested. The run returns only when a reboot call fails, and
      then with the error of the first failing call. */
  lemma RebootPath(config: Config, start: int, now: int, os: OsReplies, fuel: nat)
    requires os.banner.Pass? && PhaseOf(config, start, now) == RebootPending
    ensures var t := ServiceRun(config, start, now, os, fuel).trace;
            && t[0] == SetLoginBanner(None)
            && |t| == 1 + 2 * multiset(t)[Reboot]
            && SleepsThenReboots(t)
            && (forall i :: 0 <= i < |t| && t[i] == Reboot ==> i >= 1 && t[i - 1] == Sleep(RebootPause))
            && (forall e :: e in t ==> !e.ShowWarning? && e != Shutdown)
    ensures var run := ServiceRun(config, start, now, os, fuel);
            && (run.status.Returned? <==> exists k :: 0 <= k < fuel && RebootReply(os, k).Fail?)
            && (run.status.Returned? ==>
                  exists k :: 0 <= k < fuel && run.status.result == RebootReply(os, k) && RebootReply(os, k).Fail?
                              && (forall j :: 0 <= j < k ==> RebootReply(os, j).Pass?)
                              && multiset(run.trace)[Reboot] == k + 1)
            && (run.status == StillRunning ==> multiset(run.trace)[Reboot] == fuel)
  {
    var run := ServiceRun(config, start, now, os, fuel);
    var n := if FirstRebootFailure(os, fuel).Some? then FirstRebootFailure(os, fuel).value + 1 else fuel;
    assert run.trace == [SetLoginBanner(None)] + RebootRounds(n);
    RebootTraceShape(n);
    match FirstRebootFailure(os, fuel)
    case Some(k) =>
      assert run.status == Returned(RebootReply(os, k)) && 0 <= k < fuel && RebootReply(os, k).Fail?;
    case None =>
      assert run.status == StillRunning;
  }

  /** With a capability whose reboot calls always answer Ok(()), as the
      Linux one does, the reboot phase never returns and reboots once per
      round. */
  lemma RebootLoopWithoutFailures(config: Config, start: int, now: int, os: OsReplies, fuel: nat)
    requires os.banner.Pass? && os.reboots == [] && PhaseOf(config, start, now) == RebootPending
    ensures var run := ServiceRun(config, start, now, os, fuel);
            run.status == StillRunning && multiset(run.trace)[Reboot] == fuel
  {
    RebootPath(config, start, now, os, fuel);
  }

  /** Shutdown-pending phase: the banner is cleared and shutdown is called
      exactly once, with nothing else; the run returns the shutdown result. */
  lemma ShutdownPath(config: Config, start: int, now: int, os: OsReplies, fuel: nat)
    requires os.banner.Pass? && PhaseOf(config, start, now) == ShutdownPending
    ensures var run := ServiceRun(config, start, now, os, fuel);
            && run.trace == [SetLoginBanner(None), Shutdown]
            && multiset(run.trace)[Shutdown] == 1
            && Reboot !in run.trace
            && run.status == Returned(os.shutdown)
  {
  }

  /** On the first run the start instant is the clock reading taken inside
      the store; if the clock does not go back before the phase is evaluated,
      the start does not lie after `now`, and the run is in the warning phase
      exactly while less than the warn duration has elapsed. */
  lemma FirstRun(config: Config, loadClock: int, now: int, codec: EpochStore.Codec)
    requires loadClock <= now
    ensures var loaded := EpochStore.LoadOrInit(None, true, loadClock, codec);
            && loaded.result == Ok(loadClock)
            && loaded.result.value <= now
            && (PhaseOf(config, loaded.result.value, now) == Warning
                <==> now - loadClock < config.warnDurationDays * DaySeconds)
  {
  }

  // ---------------------------------------------------------------------
  // The scenarios of the unit tests in src/service_core.rs

  /** `warning_phase_sets_banner_and_warns`: just started, one warning day. */
  lemma WarningTestScenario(now: int, os: OsReplies, fuel: nat)
    requires os.banner.Pass? && fuel >= 1
    ensures var run := ServiceRun(Config("X", 1, 1, 1), now, now, os, fuel);
            && run.trace[0] == SetLoginBanner(Some("X"))
            && multiset(run.trace)[ShowWarning("X")] > 0
  {
    WarningPath(Config("X", 1, 1, 1), now, now, os, fuel);
  }

  /** `reboot_phase_triggers_reboots` as written: started two days ago with no
      warn day and one reboot day, the reboot deadline is already a day past,
      so the run shuts down and never reboots. */
  lemma RebootTestScenarioShutsDown(now: int, os: OsReplies, fuel: nat)
    requires os.banner.Pass?
    ensures var config := Config("X", 0, 1, 1);
            && PhaseOf(config, now - 2 * DaySeconds, now) == ShutdownPending
            && Reboot !in ServiceRun(config, now - 2 * DaySeconds, now, os, fuel).trace
  {
    ShutdownPath(Config("X", 0, 1, 1), now - 2 * DaySeconds, now, os, fuel);
  }

  /** The same configuration started half a day ago is in the reboot window:
      with an OS whose reboot calls succeed, the run reboots once per round,
      each time after a 24-hour sleep, and does not return. */
  lemma RebootWindowScenario(now: int, fuel: nat)
    requires fuel >= 1
    ensures var config := Config("X", 0, 1, 1);
            var run := ServiceRun(config, now - DaySeconds / 2, now, OsReplies(Pass, [], Pass), fuel);
            && PhaseOf(config, now - DaySeconds / 2, now) == RebootPending
            && run.trace[1] == Sleep(RebootPause) && run.trace[2] == Reboot
            && multiset(run.trace)[Reboot] == fuel
            && run.status == StillRunning
  {
    var config := Config("X", 0, 1, 1);
    var os := OsReplies(Pass, [], Pass);
    RebootPath(config, now - DaySeconds / 2, now, os, fuel);
    RebootRoundsShape(fuel);
    assert FirstRebootFailure(os, fuel).None?;
  }

  /** `shutdown_after_reboot_phase`: started a week ago with no warn and no
      reboot days; shutdown is called exactly once and the run returns Ok. */
  lemma ShutdownTestScenario(now: int, fuel: nat)
    ensures var run := ServiceRun(Config("X", 0, 0, 1), now - 7 * DaySeconds, now, OsReplies(Pass, [], Pass), fuel);
            && multiset(run.trace)[Shutdown] == 1
            && Reboot !in run.trace
            && run.status == Returned(Pass)
  {
    ShutdownPath(Config("X", 0, 0, 1), now - 7 * DaySeconds, now, OsReplies(Pass, [], Pass), fuel);
  }
}
