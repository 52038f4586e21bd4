/** The heartbeat of the tunnel supervisor: what a kill follows, how far apart kills are, and whose probes they rest on. */
module TunnelKills {
  import opened TunnelSupervisor

  // ---- the heartbeat

  predicate ProbedAt(c: Config, events: seq<Event>, j: nat, v: Verdict)
    requires j < |events|
  {
    events[j].ProbeDone? && events[j].verdict == v && events[j].which < |Run(c, events[..j]).probes|
  }

  /** The heartbeat kills at event j. */
  predicate KillsAt(c: Config, events: seq<Event>, j: nat)
    requires j < |events|
  {
    ProbedAt(c, events, j, Dead) && WillKill(c, Run(c, events[..j]), events[j].now)
  }

  function DeadIn(c: Config, events: seq<Event>, i: nat, n: nat): nat
    requires i <= n <= |events|
    decreases n
  {
    if i == n then 0 else DeadIn(c, events, i, n - 1) + if ProbedAt(c, events, n - 1, Dead) then 1 else 0
  }

  /** No good verdict and no kill between i and n. */
  predicate Unbroken(c: Config, events: seq<Event>, i: nat, n: nat)
    requires i <= n <= |events|
  {
    forall j :: i <= j < n ==> !ProbedAt(c, events, j, Good) && !KillsAt(c, events, j)
  }

  predicate StreakFrom(c: Config, events: seq<Event>, i: nat, n: nat)
    requires n <= |events|
  {
    i <= n && Unbroken(c, events, i, n) && DeadIn(c, events, i, n) == Run(c, events[..n]).deadStreak
  }

  /** The counter is the number of dead probes since some event after which no good verdict and no kill came. */
  lemma {:induction false} StreakCounts(c: Config, events: seq<Event>, n: nat) returns (i: nat)
    requires n <= |events|
    ensures StreakFrom(c, events, i, n)
    decreases n
  {
    if n == 0 {
      i := 0;
      assert events[..0] == [];
    } else {
      i := StreakCounts(c, events, n - 1);
      StreakExtends(c, events, i, n);
      if ProbedAt(c, events, n - 1, Good) || KillsAt(c, events, n - 1) {
        i := n;
      }
    }
  }

  lemma {:induction false} StreakExtends(c: Config, events: seq<Event>, i: nat, n: nat)
    requires 0 < n <= |events| && StreakFrom(c, events, i, n - 1)
    ensures if ProbedAt(c, events, n - 1, Good) || KillsAt(c, events, n - 1) then StreakFrom(c, events, n, n)
            else StreakFrom(c, events, i, n)
  {
    StreakStep(c, events, n);
  }

  lemma {:induction false} StreakStep(c: Config, events: seq<Event>, n: nat)
    requires 0 < n <= |events|
    ensures Run(c, events[..n]).deadStreak ==
      if ProbedAt(c, events, n - 1, Good) || KillsAt(c, events, n - 1) then 0
      else Run(c, events[..n - 1]).deadStreak + if ProbedAt(c, events, n - 1, Dead) then 1 else 0
  {
    RunSnoc(c, events, n);
  }

  lemma {:induction false} StepRestartTime(c: Config, s: State, e: Event)
    ensures Step(c, s, e).lastRestartAt ==
      if e.Exit? && s.live > 0 && !s.cleaning && s.restarts + 1 <= c.maxRestarts then e.now else s.lastRestartAt
  {
  }

  /** Every kill follows four dead probes with no good verdict and no other kill among them. */
  lemma {:induction false} KillNeedsFourDead(c: Config, events: seq<Event>, j: nat) returns (i: nat)
    requires j < |events| && KillsAt(c, events, j)
    ensures i <= j && DeadIn(c, events, i, j + 1) >= DEAD_PROBES && Unbroken(c, events, i, j)
    ensures forall k :: i <= k <= j ==> !ProbedAt(c, events, k, Good)
  {
    i := StreakCounts(c, events, j);
  }

  // ---- cooldown

  /** An exit at event j that schedules a respawn. */
  predicate RestartsAt(c: Config, events: seq<Event>, j: nat)
    requires j < |events|
  {
    var s := Run(c, events[..j]);
    events[j].Exit? && s.live > 0 && !s.cleaning && s.restarts + 1 <= c.maxRestarts
  }

  predicate NoRestart(c: Config, events: seq<Event>, i: nat, n: nat)
    requires n <= |events|
  {
    forall k :: i <= k < n ==> !RestartsAt(c, events, k)
  }

  lemma {:induction false} LastRestart(c: Config, events: seq<Event>, i: nat, n: nat)
    requires i < n <= |events| && RestartsAt(c, events, i) && NoRestart(c, events, i + 1, n)
    ensures Run(c, events[..n]).lastRestartAt == events[i].now
    decreases n
  {
    RunSnoc(c, events, n);
    StepRestartTime(c, Run(c, events[..n - 1]), events[n - 1]);
    if i < n - 1 {
      LastRestart(c, events, i, n - 1);
      assert !RestartsAt(c, events, n - 1);
    }
  }

  /** A kill comes more than the cooldown after the last exit that led to a respawn. */
  lemma {:induction false} KillAfterCooldown(c: Config, events: seq<Event>, i: nat, j: nat)
    requires i < j < |events| && RestartsAt(c, events, i) && NoRestart(c, events, i + 1, j) && KillsAt(c, events, j)
    ensures events[j].now - events[i].now > c.cooldown
  {
    LastRestart(c, events, i, j);
  }

  // ---- two kills

  lemma {:induction false} RestartTimeKept(c: Config, events: seq<Event>, i: nat, n: nat)
    requires i <= n <= |events| && NoRestart(c, events, i, n)
    ensures Run(c, events[..n]).lastRestartAt == Run(c, events[..i]).lastRestartAt
    decreases n
  {
    if i < n {
      RunSnoc(c, events, n);
      StepRestartTime(c, Run(c, events[..n - 1]), events[n - 1]);
      RestartTimeKept(c, events, i, n - 1);
      assert !RestartsAt(c, events, n - 1);
    }
  }

  /** The last restart in a stretch that has one. */
  lemma {:induction false} FindLastRestart(c: Config, events: seq<Event>, i: nat, n: nat) returns (k: nat)
    requires i <= n <= |events| && !NoRestart(c, events, i, n)
    ensures i <= k < n && RestartsAt(c, events, k) && NoRestart(c, events, k + 1, n)
    decreases n
  {
    if RestartsAt(c, events, n - 1) {
      k := n - 1;
    } else {
      k := FindLastRestart(c, events, i, n - 1);
    }
  }

  /** Restarts in the stretch come no earlier than a given time. */
  predicate RestartsSince(c: Config, events: seq<Event>, i: nat, n: nat, from: int)
    requires n <= |events|
  {
    forall k :: i <= k < n && RestartsAt(c, events, k) ==> from <= events[k].now
  }

  /** Two kills with a restart between them are more than the cooldown apart. */
  lemma {:induction false} KillsApart(c: Config, events: seq<Event>, i: nat, j: nat)
    requires i < j < |events| && KillsAt(c, events, i) && KillsAt(c, events, j)
    requires RestartsSince(c, events, i, j, events[i].now) && !NoRestart(c, events, i, j)
    ensures events[j].now - events[i].now > c.cooldown
  {
    var k := FindLastRestart(c, events, i, j);
    KillAfterCooldown(c, events, k, j);
  }

  /**
   After a kill with no restart since, the fourth dead probe kills again at any later time;
   inside the cooldown it does so exactly when no restart lies between.
   */
  lemma {:induction false} KillsAgainIff(c: Config, events: seq<Event>, i: nat, j: nat)
    requires i < j < |events| && KillsAt(c, events, i) && ProbedAt(c, events, j, Dead)
    requires Unbroken(c, events, i + 1, j) && DeadIn(c, events, i + 1, j) >= DEAD_PROBES - 1
    requires RestartsSince(c, events, i, j, events[i].now)
    requires events[i].now <= events[j].now
    ensures NoRestart(c, events, i, j) ==> KillsAt(c, events, j)
    ensures events[j].now <= events[i].now + c.cooldown ==> (KillsAt(c, events, j) <==> NoRestart(c, events, i, j))
  {
    StreakSince(c, events, i, j);
    if NoRestart(c, events, i, j) {
      RestartTimeKept(c, events, i, j);
    } else {
      var k := FindLastRestart(c, events, i, j);
      LastRestart(c, events, k, j);
    }
  }

  /** After a kill the counter is the number of dead probes since, while no good verdict and no kill comes. */
  lemma {:induction false} StreakSince(c: Config, events: seq<Event>, i: nat, n: nat)
    requires i < n <= |events| && KillsAt(c, events, i) && Unbroken(c, events, i + 1, n)
    ensures Run(c, events[..n]).deadStreak == DeadIn(c, events, i + 1, n)
    decreases n
  {
    StreakStep(c, events, n);
    if i + 1 < n {
      StreakSince(c, events, i, n - 1);
      assert !ProbedAt(c, events, n - 1, Good) && !KillsAt(c, events, n - 1);
    }
  }

  // ---- whose address the probes behind a kill ask

  /** Where the probe at a position among the running ones began. */
  function StartedAt(c: Config, events: seq<Event>, n: nat, i: nat): nat
    requires n <= |events|
    decreases n
  {
    if n == 0 then 0
    else
      var s, e := Run(c, events[..n - 1]), events[n - 1];
      if e.Heartbeat? && i >= |s.probes| then n - 1
      else if e.ProbeDone? && e.which <= i && e.which < |s.probes| then StartedAt(c, events, n - 1, i + 1)
      else StartedAt(c, events, n - 1, i)
  }

  function WithoutProbe(ps: seq<Probe>, which: nat): seq<Probe>
    requires which < |ps|
  {
    ps[..which] + ps[which + 1..]
  }

  lemma {:induction false} ProbeShifts(ps: seq<Probe>, which: nat, i: nat)
    requires which < |ps| && i < |ps| - 1
    ensures WithoutProbe(ps, which)[i] == ps[if i < which then i else i + 1]
  {
  }

  lemma {:induction false} StepProbes(c: Config, s: State, e: Event)
    ensures Step(c, s, e).probes ==
      if e.Heartbeat? && Beats(s) then s.probes + [Probe(s.currentUrl, s.reporter)]
      else if e.ProbeDone? && e.which < |s.probes| then WithoutProbe(s.probes, e.which)
      else s.probes
  {
  }

  /** The probe p began at the heartbeat b, and asks the address that was current then. */
  predicate BeganAt(c: Config, events: seq<Event>, p: Probe, b: nat, n: nat)
    requires n <= |events|
  {
    b < n && events[b].Heartbeat? && Beats(Run(c, events[..b]))
    && p == Probe(Run(c, events[..b]).currentUrl, Run(c, events[..b]).reporter)
  }

  /** A probe running after n events began at the last of them, or was running before it. */
  lemma {:induction false} OneEventBack(c: Config, events: seq<Event>, n: nat, i: nat) returns (k: nat)
    requires 0 < n <= |events| && i < |Run(c, events[..n]).probes|
    ensures var s, now := Run(c, events[..n - 1]), Run(c, events[..n]).probes;
      if k == |s.probes| then
        events[n - 1].Heartbeat? && Beats(s) && now[i] == Probe(s.currentUrl, s.reporter) && StartedAt(c, events, n, i) == n - 1
      else k < |s.probes| && now[i] == s.probes[k] && StartedAt(c, events, n, i) == StartedAt(c, events, n - 1, k)
  {
    var s, e := Run(c, events[..n - 1]), events[n - 1];
    RunSnoc(c, events, n);
    k := PlaceBefore(c, s, e, i);
  }

  /** Where a probe was before an event, the length when the event began it. */
  lemma {:induction false} PlaceBefore(c: Config, s: State, e: Event, i: nat) returns (k: nat)
    requires i < |Step(c, s, e).probes|
    ensures k == if e.ProbeDone? && e.which <= i && e.which < |s.probes| then i + 1 else i
    ensures if k == |s.probes| then e.Heartbeat? && Beats(s) && Step(c, s, e).probes[i] == Probe(s.currentUrl, s.reporter)
            else k < |s.probes| && Step(c, s, e).probes[i] == s.probes[k]
  {
    StepProbes(c, s, e);
    k := i;
    if e.ProbeDone? && e.which < |s.probes| {
      ProbeShifts(s.probes, e.which, i);
      if i >= e.which { k := i + 1; }
    }
  }

  /** Every running probe began at a heartbeat. */
  lemma {:induction false} StartedMeans(c: Config, events: seq<Event>, n: nat, i: nat)
    requires n <= |events| && i < |Run(c, events[..n]).probes|
    ensures BeganAt(c, events, Run(c, events[..n]).probes[i], StartedAt(c, events, n, i), n)
    decreases n
  {
    assert events[..0] == [];
    if n > 0 {
      var k := OneEventBack(c, events, n, i);
      if k < |Run(c, events[..n - 1]).probes| { StartedMeans(c, events, n - 1, k); }
    }
  }

  /** The probe that ends at event m, and where it began. */
  function ProbeOf(c: Config, events: seq<Event>, m: nat): Probe
    requires m < |events| && ProbedAt(c, events, m, Dead)
  {
    Run(c, events[..m]).probes[events[m].which]
  }

  function BeatOf(c: Config, events: seq<Event>, m: nat): nat
    requires m < |events| && events[m].ProbeDone?
  {
    StartedAt(c, events, m, events[m].which)
  }

  /** The probe ending at m asks an address reported by the child that is current at j. */
  predicate OwnProbe(c: Config, events: seq<Event>, m: nat, j: nat)
    requires m < |events| && ProbedAt(c, events, m, Dead) && j <= |events|
  {
    ProbeOf(c, events, m).reporter == Run(c, events[..j]).spawns
  }

  /** The first heartbeat of the dead probes from i to j. */
  predicate FirstBeat(c: Config, events: seq<Event>, i: nat, j: nat, first: nat)
    requires j < |events|
  {
    (exists m :: i <= m <= j && ProbedAt(c, events, m, Dead) && BeatOf(c, events, m) == first)
    && forall m :: i <= m <= j && ProbedAt(c, events, m, Dead) ==> first <= BeatOf(c, events, m)
  }

  lemma {:induction false} FindFirstBeat(c: Config, events: seq<Event>, i: nat, j: nat) returns (first: nat)
    requires i <= j < |events| && ProbedAt(c, events, j, Dead)
    ensures FirstBeat(c, events, i, j, first)
  {
    first := BeatOf(c, events, j);
    var m := j;
    while m > i
      invariant i <= m <= j
      invariant exists k :: i <= k <= j && ProbedAt(c, events, k, Dead) && BeatOf(c, events, k) == first
      invariant forall k :: m <= k <= j && ProbedAt(c, events, k, Dead) ==> first <= BeatOf(c, events, k)
    {
      m := m - 1;
      if ProbedAt(c, events, m, Dead) && BeatOf(c, events, m) < first { first := BeatOf(c, events, m); }
    }
  }

  /** A respawn at event k. */
  predicate SpawnsAt(c: Config, events: seq<Event>, k: nat)
    requires k < |events|
  {
    Respawns(Run(c, events[..k]), events[k])
  }

  predicate Respawns(s: State, e: Event) { e.TimerFires? && s.timers > 0 && !s.cleaning }

  /** The address that is current was reported by the current child. */
  predicate Owned(s: State) { s.reporter == s.spawns }

  /** Addresses come from spawns so far, and the current child's own is not replaced. */
  predicate Numbered(s: State) { s.reporter <= s.spawns && (Owned(s) ==> s.reported) }

  lemma {:induction false} StepNumbers(c: Config, s: State, e: Event)
    requires Numbered(s)
    ensures var t := Step(c, s, e);
      Numbered(t) && t.spawns == s.spawns + (if Respawns(s, e) then 1 else 0) && (Owned(s) && !Respawns(s, e) ==> Owned(t))
  {
  }

  predicate NoSpawn(c: Config, events: seq<Event>, i: nat, n: nat)
    requires n <= |events|
  {
    forall k :: i <= k < n ==> !SpawnsAt(c, events, k)
  }

  lemma {:induction false} RunNumbered(c: Config, events: seq<Event>)
    ensures Numbered(Run(c, events))
  {
    if events != [] {
      RunNumbered(c, events[..|events| - 1]);
      StepNumbers(c, Run(c, events[..|events| - 1]), events[|events| - 1]);
    }
  }

  /** Spawn numbers only grow, by the respawns; while they stand still the child's own address stays. */
  lemma {:induction false} SpawnsGrow(c: Config, events: seq<Event>, i: nat, n: nat)
    requires i <= n <= |events|
    ensures var s, t := Run(c, events[..i]), Run(c, events[..n]);
      s.spawns <= t.spawns && (s.spawns == t.spawns <==> NoSpawn(c, events, i, n)) && (Owned(s) && NoSpawn(c, events, i, n) ==> Owned(t))
    decreases n
  {
    if i < n {
      SpawnsGrow(c, events, i, n - 1);
      LastStep(c, events, n);
      NoSpawnSnoc(c, events, i, n);
    }
  }

  lemma {:induction false} NoSpawnSnoc(c: Config, events: seq<Event>, i: nat, n: nat)
    requires i < n <= |events|
    ensures NoSpawn(c, events, i, n) <==> NoSpawn(c, events, i, n - 1) && !SpawnsAt(c, events, n - 1)
  {
  }

  lemma {:induction false} LastStep(c: Config, events: seq<Event>, n: nat)
    requires 0 < n <= |events|
    ensures var s, t := Run(c, events[..n - 1]), Run(c, events[..n]);
      t.spawns == s.spawns + (if SpawnsAt(c, events, n - 1) then 1 else 0) && (Owned(s) && !SpawnsAt(c, events, n - 1) ==> Owned(t))
  {
    RunSnoc(c, events, n);
    RunNumbered(c, events[..n - 1]);
    StepNumbers(c, Run(c, events[..n - 1]), events[n - 1]);
  }

  /**
   The dead probes behind a kill all ask the killed child's own address exactly when that was
   the current one at the first of their heartbeats and no respawn came since.
   */
  lemma {:induction false} KillIsOwnIff(c: Config, events: seq<Event>, i: nat, j: nat, first: nat)
    requires i <= j < |events| && KillsAt(c, events, j) && FirstBeat(c, events, i, j, first)
    ensures first < j
    ensures (forall m :: i <= m <= j && ProbedAt(c, events, m, Dead) ==> OwnProbe(c, events, m, j))
      <==> Owned(Run(c, events[..first])) && NoSpawn(c, events, first, j)
  {
    var f :| i <= f <= j && ProbedAt(c, events, f, Dead) && BeatOf(c, events, f) == first;
    ProbeIsOwnIff(c, events, f, j);
    if Owned(Run(c, events[..first])) && NoSpawn(c, events, first, j) {
      forall m | i <= m <= j && ProbedAt(c, events, m, Dead) ensures OwnProbe(c, events, m, j) {
        ProbeIsOwnIff(c, events, m, j);
        LaterBeat(c, events, first, BeatOf(c, events, m), j);
      }
    }
  }

  lemma {:induction false} ProbeIsOwnIff(c: Config, events: seq<Event>, m: nat, j: nat)
    requires m <= j < |events| && ProbedAt(c, events, m, Dead)
    ensures BeatOf(c, events, m) < m
    ensures OwnProbe(c, events, m, j) <==> Owned(Run(c, events[..BeatOf(c, events, m)])) && NoSpawn(c, events, BeatOf(c, events, m), j)
  {
    var b := BeatOf(c, events, m);
    StartedMeans(c, events, m, events[m].which);
    RunNumbered(c, events[..b]);
    SpawnsGrow(c, events, b, j);
  }

  lemma {:induction false} LaterBeat(c: Config, events: seq<Event>, first: nat, b: nat, j: nat)
    requires first <= b <= j <= |events| && Owned(Run(c, events[..first])) && NoSpawn(c, events, first, j)
    ensures Owned(Run(c, events[..b]))
  {
    SpawnsGrow(c, events, first, b);
  }

  /** Every kill follows four dead probes, and whose address they ask is decided at their first heartbeat. */
  lemma {:induction false} KillTraced(c: Config, events: seq<Event>, j: nat) returns (i: nat, first: nat)
    requires j < |events| && KillsAt(c, events, j)
    ensures i <= j && DeadIn(c, events, i, j + 1) >= DEAD_PROBES && Unbroken(c, events, i, j)
    ensures first < j && FirstBeat(c, events, i, j, first)
    ensures (forall m :: i <= m <= j && ProbedAt(c, events, m, Dead) ==> OwnProbe(c, events, m, j))
      <==> Owned(Run(c, events[..first])) && NoSpawn(c, events, first, j)
  {
    i := KillNeedsFourDead(c, events, j);
    first := FindFirstBeat(c, events, i, j);
    KillIsOwnIff(c, events, i, j, first);
  }

  /** While every address line comes from a child that is still the latest, its own address is current exactly when it has reported. */
  lemma {:induction false} OwnedMeansReported(c: Config, events: seq<Event>)
    requires forall k :: 0 <= k < |events| && events[k].UrlSeen? ==> events[k].from == Run(c, events[..k]).spawns
    ensures Owned(Run(c, events)) <==> Run(c, events).reported
  {
    RunNumbered(c, events);
    if events != [] {
      var before := events[..|events| - 1];
      RunNumbered(c, before);
      assert forall k :: 0 <= k < |before| ==> before[..k] == events[..k];
      OwnedMeansReported(c, before);
      StepNumbers(c, Run(c, before), events[|events| - 1]);
    }
  }

  // ---- runs that break both promises, one probe every twenty seconds

  const BEAT: int := 20000

  lemma {:induction false} RunOne(c: Config, events: seq<Event>, e: Event)
    ensures Run(c, events + [e]) == Step(c, Run(c, events), e)
  {
    assert (events + [e])[..|events|] == events;
  }

  /** One heartbeat whose probe ends dead before the next. */
  function Round(now: int): seq<Event> { [Heartbeat, ProbeDone(0, Dead, now)] }

  /** n rounds after time t, a beat apart. */
  function Rounds(t: int, n: nat): seq<Event> { if n == 0 then [] else Rounds(t, n - 1) + Round(t + BEAT * n) }

  lemma {:induction false} OneRound(c: Config, events: seq<Event>, now: int)
    requires var s := Run(c, events); Beats(s) && s.probes == []
    ensures var s, all := Run(c, events), events + Round(now);
      Run(c, all) == s.(deadStreak := if WillKill(c, s, now) then 0 else s.deadStreak + 1)
      && Run(c, all[..|events| + 1]).reported == s.reported && Run(c, all[..|events| + 1]).spawns == s.spawns
      && (WillKill(c, s, now) ==> KillsAt(c, all, |events| + 1))
  {
    var s, beat := Run(c, events), events + [Heartbeat];
    RunOne(c, events, Heartbeat);
    RunOne(c, beat, ProbeDone(0, Dead, now));
    assert events + Round(now) == beat + [ProbeDone(0, Dead, now)];
    assert (events + Round(now))[..|events| + 1] == beat;
  }

  lemma {:induction false} ManyRounds(c: Config, events: seq<Event>, t: int, n: nat)
    requires var s := Run(c, events);
      Beats(s) && s.probes == [] && (s.deadStreak + n < DEAD_PROBES || t + BEAT * n - s.lastRestartAt <= c.cooldown)
    ensures var s := Run(c, events); Run(c, events + Rounds(t, n)) == s.(deadStreak := s.deadStreak + n)
  {
    if n == 0 {
      assert events + Rounds(t, 0) == events;
    } else {
      var mid := events + Rounds(t, n - 1);
      ManyRounds(c, events, t, n - 1);
      assert !WillKill(c, Run(c, mid), t + BEAT * n);
      OneRound(c, mid, t + BEAT * n);
      RoundsSnoc(events, t, n);
    }
  }

  lemma {:induction false} RoundsSnoc(events: seq<Event>, t: int, n: nat)
    requires n > 0
    ensures events + Rounds(t, n) == events + Rounds(t, n - 1) + Round(t + BEAT * n)
  {
  }

  /** Four rounds past the cooldown end in a kill. */
  lemma {:induction false} FourRoundsKill(c: Config, events: seq<Event>, t: int)
    requires var s := Run(c, events); Beats(s) && s.probes == [] && s.deadStreak == 0 && t + BEAT * 4 - s.lastRestartAt > c.cooldown
    ensures var all := events + Rounds(t, 4);
      |all| == |events| + 8 && KillsAt(c, all, |events| + 7) && all[|events| + 7] == ProbeDone(0, Dead, t + BEAT * 4)
      && Run(c, all) == Run(c, events)
  {
    ManyRounds(c, events, t, 3);
    OneRound(c, events + Rounds(t, 3), t + BEAT * 4);
    assert Rounds(t, 4) == Rounds(t, 3) + Round(t + BEAT * 4);
    RoundsLength(t, 3);
    assert events + Rounds(t, 4) == events + Rounds(t, 3) + Round(t + BEAT * 4);
  }

  lemma {:induction false} RoundsLength(t: int, n: nat)
    ensures |Rounds(t, n)| == 2 * n
  {
    if n > 0 { RoundsLength(t, n - 1); }
  }

  lemma {:induction false} KillStays(c: Config, events: seq<Event>, more: seq<Event>, j: nat)
    requires j < |events| && KillsAt(c, events, j)
    ensures KillsAt(c, events + more, j)
  {
    assert (events + more)[..j] == events[..j];
  }

  lemma {:induction false} FirstAddress(c: Config)
    ensures var s := Run(c, [UrlSeen("u", 1)]); Beats(s) && s.reported && s == BOOT.(reported := true, currentUrl := "u", reporter := 1)
  {
    assert Run(c, []) == BOOT && [UrlSeen("u", 1)] == [] + [UrlSeen("u", 1)];
    RunOne(c, [], UrlSeen("u", 1));
  }

  /** With the default heartbeat and cooldown, a child that outlives a kill is killed again eighty seconds later. */
  lemma {:induction false} KillsCloserThanCooldown(c: Config, t: int) returns (events: seq<Event>, i: nat, j: nat)
    requires c.cooldown > BEAT * 4 && t >= c.cooldown
    ensures i < j < |events| && KillsAt(c, events, i) && KillsAt(c, events, j) && events[j].now - events[i].now < c.cooldown
  {
    var first := [UrlSeen("u", 1)];
    FirstAddress(c);
    var once := first + Rounds(t, 4);
    FourRoundsKill(c, first, t);
    events := once + Rounds(t + BEAT * 4, 4);
    FourRoundsKill(c, once, t + BEAT * 4);
    i, j := |first| + 7, |once| + 7;
    KillStays(c, once, Rounds(t + BEAT * 4, 4), i);
    assert events[i] == once[i];
  }

  /** How many rounds after an exit it takes until one ends past the cooldown, and at least four. */
  function RoundsPastCooldown(c: Config): (n: nat)
    ensures n >= DEAD_PROBES && BEAT * n > c.cooldown && (n == DEAD_PROBES || BEAT * (n - 1) <= c.cooldown)
  {
    if c.cooldown < BEAT * 4 then 4 else c.cooldown / BEAT + 1
  }

  /** The address outlives a respawn: a child that has reported none is killed for its predecessor's. */
  lemma {:induction false} KillBeforeOwnAddress(c: Config, t: int) returns (events: seq<Event>, j: nat)
    requires c.maxRestarts >= 1
    ensures j < |events| && KillsAt(c, events, j) && !Run(c, events[..j]).reported && Run(c, events[..j]).spawns == 2
  {
    var n := RoundsPastCooldown(c);
    var before := StaleRounds(c, t, n);
    var now := t + BEAT * n;
    StaleKill(c, before, now);
    events, j := before + Round(now), |before| + 1;
  }

  lemma {:induction false} StaleKill(c: Config, before: seq<Event>, now: int)
    requires var s := Run(c, before); Beats(s) && s.probes == [] && WillKill(c, s, now) && !s.reported && s.spawns == 2
    ensures var all, j := before + Round(now), |before| + 1;
      |all| == j + 1 && KillsAt(c, all, j) && !Run(c, all[..j]).reported && Run(c, all[..j]).spawns == 2
  {
    OneRound(c, before, now);
  }

  /** All rounds but the last one past the cooldown, against the first child's address. */
  lemma {:induction false} StaleRounds(c: Config, t: int, n: nat) returns (events: seq<Event>)
    requires c.maxRestarts >= 1 && n > 0 && (n == DEAD_PROBES || BEAT * (n - 1) <= c.cooldown)
    ensures var s := Run(c, events);
      Beats(s) && s.probes == [] && s.deadStreak == n - 1 && s.lastRestartAt == t && !s.reported && s.spawns == 2
  {
    var back := [UrlSeen("u", 1), Exit(t, false), TimerFires];
    SecondChild(c, t);
    ManyRounds(c, back, t, n - 1);
    events := back + Rounds(t, n - 1);
  }

  /** A respawned child with the address of the first. */
  lemma {:induction false} SecondChild(c: Config, t: int)
    requires c.maxRestarts >= 1
    ensures var s := Run(c, [UrlSeen("u", 1), Exit(t, false), TimerFires]);
      Beats(s) && s.probes == [] && s.deadStreak == 0 && s.lastRestartAt == t && !s.reported && s.spawns == 2
  {
    var first := [UrlSeen("u", 1)];
    FirstAddress(c);
    RunOne(c, first, Exit(t, false));
    RunOne(c, first + [Exit(t, false)], TimerFires);
    assert first + [Exit(t, false)] + [TimerFires] == [UrlSeen("u", 1), Exit(t, false), TimerFires];
  }
}
