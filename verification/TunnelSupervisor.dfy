/** The tunnel supervisor: one child process, restarts with a budget, and the heartbeat that kills. */
module TunnelSupervisor {
  const DEAD_PROBES: nat := 4

  datatype Config = Config(maxRestarts: int, cooldown: int)

  /** What the child's exit code tells: it stays unset while the child runs and when a signal ended it. */
  datatype Child = NotStarted | Unset | Coded

  datatype Verdict = NoAnswer | Good | Dead

  /** A running probe: the address it asks, and which spawn reported that address. */
  datatype Probe = Probe(url: string, reporter: nat)

  /**
   The variables of the supervisor, and what it owns outside: timers, running probes, children.
   Spawns are numbered from one; `reporter` is the number of the spawn that reported the current address.
   */
  datatype State = State(
    cleaning: bool, child: Child, restarts: nat, lastRestartAt: int, reported: bool, currentUrl: string, reporter: nat,
    deadStreak: nat, timers: nat, probes: seq<Probe>, live: nat, spawns: nat)

  /**
   An address line comes from one of the spawns so far; what a child wrote may arrive after its exit. An ok or
   propagating probe is Good; a probe that failed to run is NoAnswer. Running probes may end in any order.
   */
  datatype Event =
    | UrlSeen(url: string, from: nat)
    | SpawnError(neverRan: bool)
    | Exit(now: int, bySignal: bool)
    | TimerFires
    | Heartbeat
    | ProbeDone(which: nat, verdict: Verdict, now: int)
    | Signal

  // ---- what each handler does, as functions

  function Spawned(s: State): State {
    s.(reported := false, child := Unset, live := s.live + 1, spawns := s.spawns + 1)
  }

  function Exited(c: Config, s: State, now: int, bySignal: bool): State {
    var gone := s.(child := if bySignal then s.child else Coded, live := if s.live > 0 then s.live - 1 else 0);
    if s.cleaning then gone
    else if s.restarts + 1 > c.maxRestarts then gone.(restarts := s.restarts + 1)
    else gone.(restarts := s.restarts + 1, lastRestartAt := now, timers := s.timers + 1)
  }

  function Fired(s: State): State {
    var rest := s.(timers := if s.timers > 0 then s.timers - 1 else 0);
    if s.cleaning then rest else Spawned(rest)
  }

  predicate WillKill(c: Config, s: State, now: int) {
    s.deadStreak + 1 >= DEAD_PROBES && now - s.lastRestartAt > c.cooldown
  }

  function Judged(c: Config, s: State, v: Verdict, now: int): State {
    match v
    case NoAnswer => s
    case Good => s.(deadStreak := 0)
    case Dead => s.(deadStreak := if WillKill(c, s, now) then 0 else s.deadStreak + 1)
  }

  predicate Beats(s: State) { !s.cleaning && s.currentUrl != "" && s.child.Unset? }

  /** What the environment can do: only a child that was spawned writes, only a live one exits, only a pending timer fires, only a running probe ends. */
  predicate Enabled(s: State, e: Event) {
    match e
    case UrlSeen(_, from) => 1 <= from <= s.spawns
    case SpawnError(_) => s.live > 0
    case Exit(_, _) => s.live > 0
    case TimerFires => s.timers > 0
    case Heartbeat => true
    case ProbeDone(which, _, _) => which < |s.probes|
    case Signal => true
  }

  function Step(c: Config, s: State, e: Event): State {
    if !Enabled(s, e) then s
    else match e
      case UrlSeen(url, from) => if s.reported || url == "" then s else s.(reported := true, currentUrl := url, reporter := from)
      case SpawnError(neverRan) =>
        s.(cleaning := true, live := if neverRan then s.live - 1 else s.live)
      case Exit(now, bySignal) => Exited(c, s, now, bySignal)
      case TimerFires => Fired(s)
      case Heartbeat => if Beats(s) then s.(probes := s.probes + [Probe(s.currentUrl, s.reporter)]) else s
      case ProbeDone(which, v, now) => Judged(c, s, v, now).(probes := s.probes[..which] + s.probes[which + 1..])
      case Signal => s.(cleaning := true)
  }

  const BOOT: State := Spawned(State(false, NotStarted, 0, 0, false, "", 0, 0, 0, [], 0, 0))

  // ---- the supervisor as an object with handlers

  class Supervisor {
    const config: Config
    var cleaning: bool
    var child: Child
    var restarts: nat
    var lastRestartAt: int
    var reported: bool
    var currentUrl: string
    var reporter: nat
    var deadStreak: nat
    var timers: nat
    var probes: seq<Probe>
    var live: nat
    var spawns: nat

    function Now(): State
      reads this
    {
      State(cleaning, child, restarts, lastRestartAt, reported, currentUrl, reporter, deadStreak, timers, probes, live, spawns)
    }

    constructor (config: Config)
      ensures this.config == config && Now() == BOOT
    {
      this.config := config;
      cleaning, child, restarts, lastRestartAt := false, NotStarted, 0, 0;
      reported, currentUrl, reporter, deadStreak := false, "", 0, 0;
      timers, probes, live, spawns := 0, [], 0, 0;
      new;
      StartChild();
    }

    method StartChild()
      modifies this
      ensures Now() == Spawned(old(Now()))
    {
      reported := false;
      child := Unset;
      live := live + 1;
      spawns := spawns + 1;
    }

    method Report(url: string, from: nat)
      requires 1 <= from <= spawns
      modifies this
      ensures Now() == Step(config, old(Now()), UrlSeen(url, from))
    {
      if reported || url == "" { return; }
      reported := true;
      currentUrl := url;
      reporter := from;
    }

    method OnError(neverRan: bool)
      requires live > 0
      modifies this
      ensures Now() == Step(config, old(Now()), SpawnError(neverRan))
    {
      if neverRan { live := live - 1; }
      cleaning := true;
    }

    method OnExit(now: int, bySignal: bool)
      requires live > 0
      modifies this
      ensures Now() == Step(config, old(Now()), Exit(now, bySignal))
    {
      if !bySignal { child := Coded; }
      live := live - 1;
      if cleaning { return; }
      restarts := restarts + 1;
      if restarts > config.maxRestarts { return; }
      lastRestartAt := now;
      timers := timers + 1;
    }

    method OnTimer()
      requires timers > 0
      modifies this
      ensures Now() == Step(config, old(Now()), TimerFires)
    {
      timers := timers - 1;
      if !cleaning { StartChild(); }
    }

    method OnHeartbeat()
      modifies this
      ensures Now() == Step(config, old(Now()), Heartbeat)
    {
      if cleaning || currentUrl == "" || !child.Unset? { return; }
      probes := probes + [Probe(currentUrl, reporter)];
    }

    method OnProbe(which: nat, verdict: Verdict, now: int) returns (kills: bool)
      requires which < |probes|
      modifies this
      ensures Now() == Step(config, old(Now()), ProbeDone(which, verdict, now))
      ensures kills <==> verdict.Dead? && WillKill(config, old(Now()), now)
    {
      kills := false;
      probes := probes[..which] + probes[which + 1..];
      if verdict.NoAnswer? { return; }
      if verdict.Good? { deadStreak := 0; return; }
      deadStreak := deadStreak + 1;
      if deadStreak >= DEAD_PROBES && now - lastRestartAt > config.cooldown {
        deadStreak := 0;
        kills := true;
      }
    }

    method OnSignal()
      modifies this
      ensures Now() == Step(config, old(Now()), Signal)
    {
      cleaning := true;
    }
  }

  // ---- whole runs

  function Run(c: Config, events: seq<Event>): State {
    if events == [] then BOOT else Step(c, Run(c, events[..|events| - 1]), events[|events| - 1])
  }

  lemma {:induction false} RunSnoc(c: Config, events: seq<Event>, n: nat)
    requires 0 < n <= |events|
    ensures Run(c, events[..n]) == Step(c, Run(c, events[..n - 1]), events[n - 1])
  {
    assert events[..n][..n - 1] == events[..n - 1];
  }

  function Budget(c: Config): nat { if c.maxRestarts > 0 then c.maxRestarts else 0 }

  predicate Safe(c: Config, s: State) {
    s.live + s.timers <= 1 && (s.live == 1 ==> s.child.Unset?)
    && s.spawns + s.timers <= 1 + s.restarts
    && s.spawns + s.timers <= 1 + Budget(c)
    && (s.timers + s.live == 1 && !s.cleaning ==> s.restarts <= Budget(c) && s.spawns + s.timers == 1 + s.restarts)
  }

  /** In every order of events: at most one child or pending respawn, and at most one spawn plus the budget. */
  lemma {:induction false} OneChildWithinBudget(c: Config, events: seq<Event>)
    ensures var s := Run(c, events); s.live + s.timers <= 1 && s.spawns <= 1 + Budget(c)
    ensures Safe(c, Run(c, events))
  {
    if events != [] {
      OneChildWithinBudget(c, events[..|events| - 1]);
    }
  }

  /** Once cleaning is set it stays set and nothing is spawned. */
  lemma {:induction false} NoSpawnAfterCleaning(c: Config, events: seq<Event>, i: nat)
    requires i <= |events| && Run(c, events[..i]).cleaning
    ensures Run(c, events).cleaning && Run(c, events).spawns == Run(c, events[..i]).spawns
    decreases |events|
  {
    var n := |events|;
    if i < n {
      var before := events[..n - 1];
      assert before[..i] == events[..i];
      NoSpawnAfterCleaning(c, before, i);
    } else {
      assert events[..i] == events;
    }
  }
}
