/** Which exits are followed by a new child, how many there are, and what ends supervision. */
module TunnelRestarts {
  import opened TunnelSupervisor

  /** A child that exits is replaced exactly while restarts are left in the budget and nothing has ended supervision. */
  lemma {:induction false} RespawnIff(c: Config, events: seq<Event>, now: int, bySignal: bool)
    requires Run(c, events).live > 0
    ensures var s, t := Run(c, events), Run(c, events + [Exit(now, bySignal)] + [TimerFires]);
      t.spawns == s.spawns + (if !s.cleaning && s.spawns - 1 < c.maxRestarts then 1 else 0)
  {
    var s := Run(c, events);
    OneChildWithinBudget(c, events);
    var exited := events + [Exit(now, bySignal)];
    Last(c, events, Exit(now, bySignal));
    Last(c, exited, TimerFires);
  }

  lemma {:induction false} Last(c: Config, events: seq<Event>, e: Event)
    ensures Run(c, events + [e]) == Step(c, Run(c, events), e)
  {
    assert (events + [e])[..|events|] == events;
  }

  /** n children in a row that exit. */
  function Exits(n: nat): seq<Event> {
    if n == 0 then [] else Exits(n - 1) + [Exit(n, false)] + [TimerFires]
  }

  /** Supervising n restarts in: a child while the budget allows, and nothing pending. */
  predicate After(c: Config, s: State, n: nat) {
    && !s.cleaning && s.timers == 0 && s.live == (if n <= c.maxRestarts || n == 0 then 1 else 0)
    && s.spawns == 1 + (if n <= c.maxRestarts then n else if c.maxRestarts > 0 then c.maxRestarts else 0)
    && (s.live == 1 ==> s.restarts == n)
  }

  lemma {:induction false} OneMoreExit(c: Config, s: State, n: nat, now: int)
    requires After(c, s, n)
    ensures After(c, Step(c, Step(c, s, Exit(now, false)), TimerFires), n + 1)
  {
  }

  lemma {:induction false} AfterExits(c: Config, n: nat)
    ensures After(c, Run(c, Exits(n)), n)
  {
    if n > 0 {
      AfterExits(c, n - 1);
      Last(c, Exits(n - 1), Exit(n, false));
      Last(c, Exits(n - 1) + [Exit(n, false)], TimerFires);
      OneMoreExit(c, Run(c, Exits(n - 1)), n - 1, n);
    }
  }

  /** The budget is used up to the last restart and no further. */
  lemma {:induction false} BudgetIsReached(c: Config, n: nat)
    ensures Run(c, Exits(n)).spawns == 1 + (if n <= c.maxRestarts then n else if c.maxRestarts > 0 then c.maxRestarts else 0)
  {
    AfterExits(c, n);
  }

  /** After an exit the supervisor probes on exactly when the child was ended by a signal, which leaves no exit code. */
  lemma {:induction false} ProbesOnIff(c: Config, events: seq<Event>, now: int, bySignal: bool)
    requires var s := Run(c, events); s.live > 0 && !s.cleaning && s.currentUrl != ""
    ensures var t := Run(c, events + [Exit(now, bySignal)]);
      |Run(c, events + [Exit(now, bySignal)] + [Heartbeat]).probes| == |t.probes| + (if bySignal then 1 else 0)
  {
    OneChildWithinBudget(c, events);
    Last(c, events, Exit(now, bySignal));
    Last(c, events + [Exit(now, bySignal)], Heartbeat);
  }

  /** A signal to the supervisor, or a child that cannot be started, is the end of spawning. */
  lemma {:induction false} NothingAfterEnd(c: Config, events: seq<Event>, i: nat)
    requires i < |events| && (events[i].Signal? || (events[i].SpawnError? && Run(c, events[..i]).live > 0))
    ensures Run(c, events).cleaning && Run(c, events).spawns == Run(c, events[..i]).spawns
  {
    RunSnoc(c, events, i + 1);
    NoSpawnAfterCleaning(c, events, i + 1);
  }
}
