// The retention purge is invisible to detection: a run with purges and the same run without them
// produce the same outputs, provided no lookup looks back past a cutoff that has been purged.

module LedgerPurge {
  import opened Options
  import opened Devices
  import opened Events
  import opened Ledger
  import opened Pipeline
  import opened Solo

  function WithoutSweeps(steps: seq<Step>): (r: seq<Step>)
    ensures forall step :: step in r ==> !step.Sweep?
  {
    if steps == [] then []
    else if steps[0].Sweep? then WithoutSweeps(steps[1..])
    else [steps[0]] + WithoutSweeps(steps[1..])
  }

  // The run without its purges takes the same steps and yields the same rows, the same jobs and the
  // same outputs: every event recorded and every change returned, in the same order.
  ghost predicate Invisible(cfg: Config, s: State, steps: seq<Step>) {
    && Runs(cfg, s, steps) && Runs(cfg, s, WithoutSweeps(steps))
    && var purged, kept := Run(cfg, s, steps), Run(cfg, s, WithoutSweeps(steps));
       && purged.trace == kept.trace && purged.db.rows == kept.db.rows
       && purged.jobs == kept.jobs && purged.requests == kept.requests && purged.now == kept.now
  }

  // ---- The simulation ----

  predicate Checking(job: Job) {
    job.Recording? && job.phase.Check?
  }

  // The latest cutoff purged so far.
  function Horizon(step: Step, h: int): int {
    if step.Sweep? && step.cutoff > h then step.cutoff else h
  }

  function LastHorizon(steps: seq<Step>, h: int): int {
    if steps == [] then h else LastHorizon(steps[1..], Horizon(steps[0], h))
  }

  // A lookup does not look back past the horizon.
  predicate InSight(cfg: Config, s: State, step: Step, h: int) {
    step.Advance? && step.scanner in s.jobs && Checking(s.jobs[step.scanner])
    ==> h <= s.jobs[step.scanner].phase.clock - cfg.dedup
  }

  ghost predicate Covered(cfg: Config, s: State, steps: seq<Step>, h: int)
    decreases |steps|
  {
    steps == [] ||
    (&& Enabled(cfg, s, steps[0]) && InSight(cfg, s, steps[0], h)
     && Covered(cfg, Next(cfg, s, steps[0]), steps[1..], Horizon(steps[0], h)))
  }

  // `t` is `s` but for stored events older than the horizon.
  ghost predicate Agree(s: State, t: State, h: int) {
    && t == s.(db := s.db.(log := t.db.log))
    && Since(s.db.log, h) == Since(t.db.log, h)
  }

  lemma AgreeSwept(s: State, t: State, h: int, cutoff: int)
    requires Agree(s, t, h)
    ensures Agree(s.(db := Purge(s.db, cutoff)), t, Horizon(Sweep(cutoff), h))
  {
    var later := Horizon(Sweep(cutoff), h);
    SinceTwice(s.db.log, cutoff, later);
    SinceTwice(s.db.log, h, later);
    SinceTwice(t.db.log, h, later);
  }

  lemma AgreeWithout(s: State, t: State, h: int, mac: string)
    requires Agree(s, t, h)
    ensures Since(Without(s.db.log, mac), h) == Since(Without(t.db.log, mac), h)
  {
    SinceWithout(s.db.log, h, mac);
    SinceWithout(t.db.log, h, mac);
  }

  // A lookup no older than the horizon cannot tell the two logs apart.
  lemma SameAnswer(log: seq<Event>, other: seq<Event>, h: int, e: Event, since: int)
    requires Since(log, h) == Since(other, h) && h <= since
    ensures DuplicateSince(log, e, since) == DuplicateSince(other, e, since)
  {
    if DuplicateSince(log, e, since) {
      var x :| x in log && SameKey(x, e) && x.createdOn >= since;
      SinceHas(log, h, x);
      SinceHas(other, h, x);
      assert x in other;
    }
    if DuplicateSince(other, e, since) {
      var x :| x in other && SameKey(x, e) && x.createdOn >= since;
      SinceHas(log, h, x);
      SinceHas(other, h, x);
      assert x in log;
    }
  }

  lemma AgreeFinished(s: State, t: State, h: int, scanner: Scanner, task: Task, accepted: bool)
    requires Agree(s, t, h)
    ensures Agree(Finished(s, scanner, task, accepted), Finished(t, scanner, task, accepted), h)
  {
    FinishedFrame(s, scanner, task, accepted);
  }

  lemma AgreeStored(s: State, t: State, h: int, e: Event)
    requires Agree(s, t, h)
    ensures Agree(Stored(s, e), Stored(t, e), h)
  {
    SinceAppend(s.db.log, e, h);
    SinceAppend(t.db.log, e, h);
  }

  lemma AgreeRecording(cfg: Config, s: State, t: State, h: int, scanner: Scanner, task: Task, phase: Phase)
    requires Agree(s, t, h) && (phase.Check? ==> h <= phase.clock - cfg.dedup)
    ensures Agree(AdvanceRecording(cfg, s, scanner, task, phase), AdvanceRecording(cfg, t, scanner, task, phase), h)
  {
    match phase
    case Check(createdOn, clock) =>
      var e := MakeEvent(task.device, TaskEventType(task), scanner, createdOn, clock);
      SameAnswer(s.db.log, t.db.log, h, e, clock - cfg.dedup);
      AgreeFinished(s, t, h, scanner, task, false);
    case Append(e) =>
      AgreeStored(s, t, h, e);
      AgreeFinished(Stored(s, e), Stored(t, e), h, scanner, task, true);
    case _ =>
  }

  lemma AgreeAdvance(cfg: Config, s: State, t: State, h: int, scanner: Scanner)
    requires Agree(s, t, h) && scanner in s.jobs && InSight(cfg, s, Advance(scanner), h)
    ensures Agree(Next(cfg, s, Advance(scanner)), Next(cfg, t, Advance(scanner)), h)
  {
    var job := s.jobs[scanner];
    if job.Recording? {
      AgreeRecording(cfg, s, t, h, scanner, job.task, job.phase);
    } else {
      LogOnlyInRecording(cfg, s, scanner, job);
      LogIrrelevant(cfg, s, scanner, job, t.db.log);
    }
  }

  lemma AgreeStep(cfg: Config, s: State, t: State, h: int, step: Step)
    requires Agree(s, t, h) && Enabled(cfg, s, step) && InSight(cfg, s, step, h)
    ensures if step.Sweep? then Agree(Next(cfg, s, step), t, Horizon(step, h))
            else Enabled(cfg, t, step) && Agree(Next(cfg, s, step), Next(cfg, t, step), h)
  {
    match step
    case Advance(scanner) => AgreeAdvance(cfg, s, t, h, scanner);
    case Sweep(cutoff) => AgreeSwept(s, t, h, cutoff);
    case Commit(id) => AgreeWithout(s, t, h, NormalizeMac(s.requests[id].mac));
    case _ =>
  }

  lemma {:induction false} AgreeRun(cfg: Config, s: State, t: State, h: int, steps: seq<Step>)
    requires Agree(s, t, h) && Covered(cfg, s, steps, h)
    ensures Runs(cfg, s, steps) && Runs(cfg, t, WithoutSweeps(steps))
    ensures Agree(Run(cfg, s, steps), Run(cfg, t, WithoutSweeps(steps)), LastHorizon(steps, h))
    decreases |steps|
  {
    if steps != [] {
      var step := steps[0];
      AgreeStep(cfg, s, t, h, step);
      if step.Sweep? {
        AgreeRun(cfg, Next(cfg, s, step), t, Horizon(step, h), steps[1..]);
      } else {
        AgreeRun(cfg, Next(cfg, s, step), Next(cfg, t, step), h, steps[1..]);
        var kept := Prepend(cfg, t, step, WithoutSweeps(steps[1..]));
        assert kept == WithoutSweeps(steps);
      }
    }
  }

  // From any state, whatever the retention: purges are invisible if every lookup's bound lies at or
  // after every cutoff purged before it.
  lemma CoveredInvisible(cfg: Config, s: State, steps: seq<Step>, h: int)
    requires Covered(cfg, s, steps, h)
    ensures Invisible(cfg, s, steps)
    ensures Agree(Run(cfg, s, steps), Run(cfg, s, WithoutSweeps(steps)), LastHorizon(steps, h))
  {
    AgreeRun(cfg, s, s, h, steps);
  }

  // ---- Schedules that keep every lookup in sight ----

  // Every step is enabled and satisfies the schedule's condition.
  ghost predicate Scheduled(cfg: Config, s: State, steps: seq<Step>, fits: (State, Step) -> bool)
    decreases |steps|
  {
    steps == [] ||
    (Enabled(cfg, s, steps[0]) && fits(s, steps[0]) && Scheduled(cfg, Next(cfg, s, steps[0]), steps[1..], fits))
  }

  // A purge takes nothing that a pending lookup may still have to see.
  function Sparing(cfg: Config): (State, Step) -> bool {
    (s: State, step: Step) => step.Sweep? ==>
      forall scanner :: scanner in s.jobs && Checking(s.jobs[scanner]) ==>
        step.cutoff <= s.jobs[scanner].phase.clock - cfg.dedup
  }

  // A purge never comes between the clock reading of a bound and its lookup.
  function Undivided(): (State, Step) -> bool {
    (s: State, step: Step) => step.Sweep? ==> forall scanner :: scanner in s.jobs ==> !Checking(s.jobs[scanner])
  }

  // A purge comes only between complete sightings.
  function Resting(): (State, Step) -> bool {
    (s: State, step: Step) => step.Sweep? ==> s.jobs == map[]
  }

  // A lookup runs at most `slack` after the clock reading its bound comes from.
  function Prompt(slack: nat): (State, Step) -> bool {
    (s: State, step: Step) =>
      step.Advance? && step.scanner in s.jobs && Checking(s.jobs[step.scanner])
      ==> s.now - s.jobs[step.scanner].phase.clock <= slack
  }

  lemma {:induction false} ScheduledRuns(cfg: Config, s: State, steps: seq<Step>, fits: (State, Step) -> bool)
    requires Scheduled(cfg, s, steps, fits)
    ensures Runs(cfg, s, steps)
    decreases |steps|
  {
    if steps != [] {
      ScheduledRuns(cfg, Next(cfg, s, steps[0]), steps[1..], fits);
    }
  }

  lemma {:induction false} ScheduledWeaker(
      cfg: Config, s: State, steps: seq<Step>, fits: (State, Step) -> bool, weaker: (State, Step) -> bool)
    requires Scheduled(cfg, s, steps, fits) && forall u, step :: fits(u, step) ==> weaker(u, step)
    ensures Scheduled(cfg, s, steps, weaker)
    decreases |steps|
  {
    if steps != [] {
      ScheduledWeaker(cfg, Next(cfg, s, steps[0]), steps[1..], fits, weaker);
    }
  }

  // The horizon lies before the retention window and every pending bound.
  ghost predicate Below(cfg: Config, s: State, h: int) {
    && h <= s.now - cfg.retention
    && forall scanner :: scanner in s.jobs && Checking(s.jobs[scanner]) ==> h <= s.jobs[scanner].phase.clock - cfg.dedup
  }

  lemma CheckingNext(cfg: Config, s: State, scanner: Scanner, job: Job)
    ensures var s' := AdvanceJob(cfg, s, scanner, job);
      scanner in s'.jobs && Checking(s'.jobs[scanner]) ==> s'.jobs[scanner].phase.clock == s.now
  {
    match job
    case Recording(task, phase) => CheckingRecording(cfg, s, scanner, task, phase);
    case _ =>
  }

  lemma CheckingRecording(cfg: Config, s: State, scanner: Scanner, task: Task, phase: Phase)
    ensures var s' := AdvanceRecording(cfg, s, scanner, task, phase);
      scanner in s'.jobs && Checking(s'.jobs[scanner]) ==> s'.jobs[scanner].phase.clock == s.now
  {
    match phase
    case Check(_, _) => FinishedFrame(s, scanner, task, false);
    case Append(e) => FinishedFrame(Stored(s, e), scanner, task, true);
    case _ =>
  }

  lemma BelowAdvance(cfg: Config, s: State, h: int, scanner: Scanner)
    requires cfg.retention >= cfg.dedup && Below(cfg, s, h) && scanner in s.jobs
    ensures Below(cfg, Next(cfg, s, Advance(scanner)), h)
  {
    AdvanceFrame(cfg, s, scanner, s.jobs[scanner]);
    CheckingNext(cfg, s, scanner, s.jobs[scanner]);
  }

  lemma BelowStep(cfg: Config, s: State, h: int, step: Step)
    requires cfg.retention >= cfg.dedup && Below(cfg, s, h) && Enabled(cfg, s, step) && Sparing(cfg)(s, step)
    ensures Below(cfg, Next(cfg, s, step), Horizon(step, h))
  {
    match step
    case Advance(scanner) => BelowAdvance(cfg, s, h, scanner);
    case _ =>
  }

  lemma {:induction false} SparingCovered(cfg: Config, s: State, steps: seq<Step>, h: int)
    requires cfg.retention >= cfg.dedup && Below(cfg, s, h) && Scheduled(cfg, s, steps, Sparing(cfg))
    ensures Covered(cfg, s, steps, h) && Runs(cfg, s, steps)
    ensures LastHorizon(steps, h) <= Run(cfg, s, steps).now - cfg.retention
    decreases |steps|
  {
    if steps != [] {
      BelowStep(cfg, s, h, steps[0]);
      SparingCovered(cfg, Next(cfg, s, steps[0]), steps[1..], Horizon(steps[0], h));
    }
  }

  function Lower(cfg: Config, s: State, scanner: Scanner, h: int): int {
    if scanner in s.jobs && Checking(s.jobs[scanner]) && s.jobs[scanner].phase.clock - cfg.dedup < h
    then s.jobs[scanner].phase.clock - cfg.dedup else h
  }

  lemma Floor(cfg: Config, s: State) returns (h: int)
    ensures Below(cfg, s, h)
  {
    h := Lower(cfg, s, Arp, Lower(cfg, s, Mdns, Lower(cfg, s, Ssdp, Lower(cfg, s, Dhcp,
           Lower(cfg, s, Scanner.Snmp, s.now - cfg.retention)))));
    forall scanner | scanner in s.jobs && Checking(s.jobs[scanner])
      ensures h <= s.jobs[scanner].phase.clock - cfg.dedup
    {
      match scanner
      case Arp =>
      case Mdns =>
      case Ssdp =>
      case Dhcp =>
      case Snmp =>
    }
  }

  // Main result: from any state, if retention covers the deduplication window and no purge takes
  // what a pending lookup may still have to see, purges are invisible.
  lemma PurgeInvisible(cfg: Config, s: State, steps: seq<Step>)
    requires cfg.retention >= cfg.dedup && Scheduled(cfg, s, steps, Sparing(cfg))
    ensures Invisible(cfg, s, steps)
    ensures var purged, kept := Run(cfg, s, steps), Run(cfg, s, WithoutSweeps(steps));
      Since(purged.db.log, purged.now - cfg.retention) == Since(kept.db.log, purged.now - cfg.retention)
  {
    var h := Floor(cfg, s);
    SparingCovered(cfg, s, steps, h);
    CoveredInvisible(cfg, s, steps, h);
    var purged, kept := Run(cfg, s, steps), Run(cfg, s, WithoutSweeps(steps));
    SinceTwice(purged.db.log, LastHorizon(steps, h), purged.now - cfg.retention);
    SinceTwice(kept.db.log, LastHorizon(steps, h), purged.now - cfg.retention);
  }

  // Where purges may come between a clock reading and its lookup, it is enough that lookups do not
  // wait longer than retention exceeds the window.
  lemma PurgeInvisibleWhenPrompt(cfg: Config, s: State, steps: seq<Step>, slack: nat)
    requires cfg.retention >= cfg.dedup + slack && Scheduled(cfg, s, steps, Prompt(slack))
    ensures Invisible(cfg, s, steps)
  {
    PromptCovered(cfg, s, steps, slack, s.now - cfg.retention);
    CoveredInvisible(cfg, s, steps, s.now - cfg.retention);
  }

  lemma {:induction false} PromptCovered(cfg: Config, s: State, steps: seq<Step>, slack: nat, h: int)
    requires cfg.retention >= cfg.dedup + slack && Scheduled(cfg, s, steps, Prompt(slack)) && h <= s.now - cfg.retention
    ensures Covered(cfg, s, steps, h)
    decreases |steps|
  {
    if steps != [] {
      PromptLater(cfg, s, steps[0], h);
      PromptCovered(cfg, Next(cfg, s, steps[0]), steps[1..], slack, Horizon(steps[0], h));
    }
  }

  lemma PromptLater(cfg: Config, s: State, step: Step, h: int)
    requires Enabled(cfg, s, step) && h <= s.now - cfg.retention
    ensures Horizon(step, h) <= Next(cfg, s, step).now - cfg.retention
  {
    if step.Advance? {
      AdvanceFrame(cfg, s, step.scanner, s.jobs[step.scanner]);
    }
  }

  // ---- The condition is the right one ----

  // Retention of at least the deduplication window is what it takes: for all runs whose purges do not
  // come between a clock reading and its lookup, and no less for the runs of a started backend whose
  // purges come only between complete sightings, as in the code, where one task runs scanners and purge.
  lemma PurgeInvisibleIff(cfg: Config)
    ensures (forall s, steps :: Scheduled(cfg, s, steps, Undivided()) ==> Invisible(cfg, s, steps))
       <==> cfg.retention >= cfg.dedup
    ensures (forall s, steps :: Started(cfg, s) && Scheduled(cfg, s, steps, Resting()) ==> Invisible(cfg, s, steps))
       <==> cfg.retention >= cfg.dedup
  {
    forall s, steps | Scheduled(cfg, s, steps, Resting())
      ensures Scheduled(cfg, s, steps, Undivided())
    {
      ScheduledWeaker(cfg, s, steps, Resting(), Undivided());
    }
    if cfg.retention >= cfg.dedup {
      forall s, steps | Scheduled(cfg, s, steps, Undivided())
        ensures Invisible(cfg, s, steps)
      {
        ScheduledWeaker(cfg, s, steps, Undivided(), Sparing(cfg));
        PurgeInvisible(cfg, s, steps);
      }
    } else {
      var bare := Sighting("", "", "", None);
      var steps := PurgeVisible(cfg, bare);
      assert !Invisible(cfg, OnRecord(cfg, bare), steps);
    }
  }

  // One device on record, no event yet.
  function OnRecord(cfg: Config, sighting: Sighting): State {
    State(0, Db(map[NormalizeMac(sighting.mac) := InsertedRow(Build(cfg.types, sighting, 0))], []), map[], map[], [])
  }

  // A sighting up to the statement that records its heartbeat.
  function UpToHeartbeat(sighting: Sighting): seq<Step> {
    [Begin(Arp, sighting)] + Moves(Arp, 6)
  }

  // With any less retention a purge between two sightings of any device, one window apart, lets the
  // second heartbeat through, which the purge-free run suppresses.
  lemma PurgeVisible(cfg: Config, sighting: Sighting) returns (steps: seq<Step>)
    requires cfg.retention < cfg.dedup
    ensures var s := OnRecord(cfg, sighting);
      && Started(cfg, s) && Scheduled(cfg, s, steps, Resting())
      && Runs(cfg, s, steps) && Runs(cfg, s, WithoutSweeps(steps))
      && var purged, kept := Run(cfg, s, steps), Run(cfg, s, WithoutSweeps(steps));
         && |purged.trace| == |kept.trace| + 1 && purged.trace[..|kept.trace|] == kept.trace
         && purged.trace[|kept.trace|].Recorded?
  {
    var s, again := OnRecord(cfg, sighting), UpToHeartbeat(sighting);
    var first, heard := FirstSighting(cfg, sighting);
    var before := first + [Tick(cfg.dedup)];
    var later := heard.(now := cfg.dedup);
    assert Next(cfg, heard, Tick(cfg.dedup)) == later;
    var tick := Prepend(cfg, heard, Tick(cfg.dedup), []);
    assert tick == [Tick(cfg.dedup)];
    RunConcat(cfg, s, first, tick);
    var cutoff := cfg.dedup - cfg.retention;
    var swept := later.(db := Purge(later.db, cutoff));
    SecondHeartbeat(cfg, later, swept, sighting, cutoff);
    MovesQuiet(6);
    steps := SweptOnce(cfg, s, before, cutoff, again);
  }

  // The second heartbeat is a duplicate of the first, but the first has been purged.
  lemma SecondHeartbeat(cfg: Config, later: State, swept: State, sighting: Sighting, cutoff: int)
    requires later.now == cfg.dedup && cutoff > 0 && swept == later.(db := Purge(later.db, cutoff))
    requires later.jobs == map[] && NormalizeMac(sighting.mac) in later.db.rows
    requires forall x :: x in later.db.log ==> x.createdOn == 0
    requires exists x :: x in later.db.log && HeartbeatOf(x, sighting)
    ensures Runs(cfg, later, UpToHeartbeat(sighting)) && Runs(cfg, swept, UpToHeartbeat(sighting))
    ensures Run(cfg, later, UpToHeartbeat(sighting)).trace == later.trace
    ensures exists e :: Run(cfg, swept, UpToHeartbeat(sighting)).trace == later.trace + [Recorded(e)]
  {
    var e := HeartbeatRun(cfg, later, sighting);
    var e' := HeartbeatRun(cfg, swept, sighting);
    assert e == e';
    var x :| x in later.db.log && HeartbeatOf(x, sighting);
    assert SameKey(x, e) && x.createdOn >= 0;
    forall x | x in swept.db.log
      ensures false
    {
      SinceHas(later.db.log, cutoff, x);
    }
    assert later.trace + [] == later.trace;
  }

  predicate HeartbeatOf(e: Event, sighting: Sighting) {
    e.mac == NormalizeMac(sighting.mac) && e.scanner == Arp && e.eventType == DeviceSeen
  }

  // The heartbeat of a device on record is recorded exactly if it is no duplicate.
  lemma HeartbeatRun(cfg: Config, s: State, sighting: Sighting) returns (e: Event)
    requires s.jobs == map[] && NormalizeMac(sighting.mac) in s.db.rows
    ensures var m := NormalizeMac(sighting.mac);
      e == MakeEvent(Reconcile(s.db.rows[m], Build(cfg.types, sighting, s.now)), DeviceSeen, Arp, s.now, s.now)
    ensures HeartbeatOf(e, sighting) && Runs(cfg, s, UpToHeartbeat(sighting))
    ensures Run(cfg, s, UpToHeartbeat(sighting)).trace
         == s.trace + (if Suppressed(cfg, s.db.log, e) then [] else [Recorded(e)])
  {
    var recorded := s.db.rows[NormalizeMac(sighting.mac)];
    var device := Reconcile(recorded, Build(cfg.types, sighting, s.now));
    e := MakeEvent(device, DeviceSeen, Arp, s.now, s.now);
    var s1 := Next(cfg, s, Begin(Arp, sighting));
    var s2 := AdvanceJob(cfg, s1, Arp, s1.jobs[Arp]);
    assert s2.jobs[Arp] == Updating(recorded, device);
    var s3 := AdvanceJob(cfg, s2, Arp, s2.jobs[Arp]);
    var end := HeartbeatChecked(cfg, s3, Heartbeat(recorded, device), e);
    ReachOne(cfg, s2, Arp, s3, 4, end);
    ReachOne(cfg, s1, Arp, s2, 5, end);
    var steps := Prepend(cfg, s, Begin(Arp, sighting), Moves(Arp, 6));
  }

  lemma HeartbeatChecked(cfg: Config, s: State, task: Task, e: Event) returns (end: State)
    requires task.Heartbeat? && Arp in s.jobs && s.jobs[Arp] == Recording(task, Stamp)
    requires e == MakeEvent(task.device, DeviceSeen, Arp, s.now, s.now)
    ensures Reaches(cfg, s, Arp, 4, end)
    ensures end.trace == s.trace + (if Suppressed(cfg, s.db.log, e) then [] else [Recorded(e)])
  {
    var s1 := AdvanceJob(cfg, s, Arp, s.jobs[Arp]);
    var s2 := AdvanceJob(cfg, s1, Arp, s1.jobs[Arp]);
    assert s2.jobs[Arp] == Recording(task, Check(s.now, s.now));
    var s3 := AdvanceJob(cfg, s2, Arp, s2.jobs[Arp]);
    assert s3.jobs[Arp] ==
      if Suppressed(cfg, s.db.log, e) then Detecting(task.recorded, task.device) else Recording(task, Append(e));
    end := AdvanceJob(cfg, s3, Arp, s3.jobs[Arp]);
    assert Reaches(cfg, end, Arp, 0, end);
    ReachOne(cfg, s3, Arp, end, 0, end);
    ReachOne(cfg, s2, Arp, s3, 1, end);
    ReachOne(cfg, s1, Arp, s2, 2, end);
    ReachOne(cfg, s, Arp, s1, 3, end);
  }

  // The first sighting, complete: its events are on record, its heartbeat among them.
  lemma FirstSighting(cfg: Config, sighting: Sighting) returns (first: seq<Step>, heard: State)
    ensures var s := OnRecord(cfg, sighting); Runs(cfg, s, first) && Run(cfg, s, first) == heard
    ensures forall step :: step in first ==> !step.Sweep?
    ensures heard.now == 0 && heard.jobs == map[] && NormalizeMac(sighting.mac) in heard.db.rows
    ensures forall x :: x in heard.db.log ==> x.createdOn == 0
    ensures exists x :: x in heard.db.log && HeartbeatOf(x, sighting)
  {
    var s := OnRecord(cfg, sighting);
    var n, end := SightingIsSoloRun(cfg, s, Arp, sighting);
    heard := end;
    MovesQuiet(n);
    first := Prepend(cfg, s, Begin(Arp, sighting), Moves(Arp, n));
    OutcomeRows(cfg, s.db, Visit(Arp, sighting, 0));
    FirstEvents(cfg, sighting);
    assert s.jobs - {Arp} == map[];
  }

  lemma FirstEvents(cfg: Config, sighting: Sighting)
    ensures var db := SightingOutcome(cfg, OnRecord(cfg, sighting).db, Build(cfg.types, sighting, 0), Arp, 0).db;
      && (forall x :: x in db.log ==> x.createdOn == 0) && exists x :: x in db.log && HeartbeatOf(x, sighting)
  {
    var s := OnRecord(cfg, sighting);
    var recorded := s.db.rows[NormalizeMac(sighting.mac)];
    var device := Reconcile(recorded, Build(cfg.types, sighting, 0));
    var e := MakeEvent(device, DeviceSeen, Arp, 0, 0);
    var heard := Logged(cfg, Ledger.Seen(s.db, device, 0), e);
    assert heard.log == [e] && HeartbeatOf(e, sighting);
    AcceptLog(cfg, heard, device, Arp, 0, Detect(cfg, recorded, device, 0));
    assert e in heard.log;
  }

  lemma {:induction false} MovesQuiet(n: nat)
    ensures forall step :: step in Moves(Arp, n) ==> !step.Sweep?
  {
    if n > 0 {
      MovesQuiet(n - 1);
    }
  }

  // One purge at rest, with steps of other kinds before and after it.
  lemma {:induction false} SweptOnce(cfg: Config, s: State, before: seq<Step>, cutoff: int, after: seq<Step>)
    returns (steps: seq<Step>)
    requires forall step :: step in before + after ==> !step.Sweep?
    requires Runs(cfg, s, before)
    requires var p := Run(cfg, s, before);
      p.jobs == map[] && cutoff <= p.now - cfg.retention
      && Runs(cfg, p, after) && Runs(cfg, p.(db := Purge(p.db, cutoff)), after)
    ensures Scheduled(cfg, s, steps, Resting()) && Runs(cfg, s, steps) && Runs(cfg, s, WithoutSweeps(steps))
    ensures var p := Run(cfg, s, before);
      && Run(cfg, s, steps) == Run(cfg, p.(db := Purge(p.db, cutoff)), after)
      && Run(cfg, s, WithoutSweeps(steps)) == Run(cfg, p, after)
    decreases |before|
  {
    assert forall step :: step in after ==> step in before + after;
    if before == [] {
      var swept := Next(cfg, s, Sweep(cutoff));
      QuietScheduled(cfg, swept, after);
      steps := Prepend(cfg, s, Sweep(cutoff), after);
      assert WithoutSweeps(steps) == after;
    } else {
      var step := before[0];
      assert step in before + after;
      assert forall x :: x in before[1..] + after ==> x in before + after;
      var rest := SweptOnce(cfg, Next(cfg, s, step), before[1..], cutoff, after);
      steps := Prepend(cfg, s, step, rest);
      var kept := Prepend(cfg, s, step, WithoutSweeps(rest));
      assert WithoutSweeps(steps) == kept;
    }
  }

  lemma {:induction false} QuietScheduled(cfg: Config, s: State, steps: seq<Step>)
    requires Runs(cfg, s, steps) && forall step :: step in steps ==> !step.Sweep?
    ensures Scheduled(cfg, s, steps, Resting()) && WithoutSweeps(steps) == steps
    decreases |steps|
  {
    if steps != [] {
      QuietScheduled(cfg, Next(cfg, s, steps[0]), steps[1..]);
      assert steps == [steps[0]] + steps[1..];
    }
  }

  // ---- Purges that may split a lookup ----

  // Where a purge may fall between a clock reading and its lookup, retention has to cover the longest
  // wait as well, and that is enough.
  lemma PurgeInvisibleWhenPromptIff(cfg: Config, slack: nat)
    ensures (forall s, steps :: Started(cfg, s) && Scheduled(cfg, s, steps, Prompt(slack)) ==> Invisible(cfg, s, steps))
       <==> cfg.retention >= cfg.dedup + slack
  {
    if cfg.retention >= cfg.dedup + slack {
      forall s, steps | Started(cfg, s) && Scheduled(cfg, s, steps, Prompt(slack))
        ensures Invisible(cfg, s, steps)
      {
        PurgeInvisibleWhenPrompt(cfg, s, steps, slack);
      }
    } else {
      var bare := Sighting("", "", "", None);
      var steps := PurgeVisibleWhenLate(cfg, bare, slack);
      assert !Invisible(cfg, Heard(cfg, bare, 0), steps);
    }
  }

  // One known device and one heartbeat of it on record, created at time 0.
  function Heard(cfg: Config, sighting: Sighting, now: nat): State {
    var device := Build(cfg.types, sighting, 0);
    State(now, Db(map[NormalizeMac(device.mac) := InsertedRow(device)], [MakeEvent(device, DeviceSeen, Arp, 0, 0)]),
          map[], map[], [])
  }

  // The known device is sighted again and its row updated; its heartbeat is still to be recorded.
  lemma HeardAgain(cfg: Config, sighting: Sighting, now: nat, recorded: Device, device: Device)
    returns (s1: State, s2: State, s3: State)
    requires recorded == InsertedRow(Build(cfg.types, sighting, 0))
    requires device == Reconcile(recorded, Build(cfg.types, sighting, now))
    ensures var s, go := Heard(cfg, sighting, now), Advance(Arp);
      && s1 == Next(cfg, s, Begin(Arp, sighting))
      && Arp in s1.jobs && s2 == Next(cfg, s1, go)
      && Arp in s2.jobs && s3 == Next(cfg, s2, go)
      && s1.jobs[Arp].Reading? && s2.jobs[Arp].Updating?
      && s3.jobs == map[Arp := Recording(Heartbeat(recorded, device), Stamp)]
      && s3.now == s.now && s3.db.log == s.db.log && s3.trace == []
  {
    var s, go := Heard(cfg, sighting, now), Advance(Arp);
    s1 := Next(cfg, s, Begin(Arp, sighting));
    s2 := Next(cfg, s1, go);
    assert s2.jobs[Arp] == Updating(recorded, device);
    s3 := Next(cfg, s2, go);
  }

  // With any less retention some such run of a started backend is changed by a purge: it records an
  // event that the purge-free run suppresses.
  lemma PurgeVisibleWhenLate(cfg: Config, sighting: Sighting, slack: nat) returns (steps: seq<Step>)
    requires cfg.retention < cfg.dedup + slack
    ensures var s := Heard(cfg, sighting, 0);
      && Started(cfg, s) && Scheduled(cfg, s, steps, Prompt(slack))
      && Runs(cfg, s, steps) && Runs(cfg, s, WithoutSweeps(steps))
      && |Run(cfg, s, steps).trace| == 1 && |Run(cfg, s, WithoutSweeps(steps)).trace| == 0
  {
    var s, go := Heard(cfg, sighting, 0), Advance(Arp);
    var recorded := InsertedRow(Build(cfg.types, sighting, 0));
    var device := Reconcile(recorded, Build(cfg.types, sighting, 0));
    assert s.db.log[..0] == [];
    var s1, s2, s3 := HeardAgain(cfg, sighting, 0, recorded, device);
    steps := LateLookup(cfg, s3, Heartbeat(recorded, device), s.db.log[0], slack);
    steps := PrependPromptly(cfg, s2, go, steps, slack);
    steps := PrependPromptly(cfg, s1, go, steps, slack);
    steps := PrependPromptly(cfg, s, Begin(Arp, sighting), steps, slack);
  }

  // A heartbeat waits for the recorded event's last duplicate instant, and its lookup for a purge.
  lemma LateLookup(cfg: Config, s: State, task: Task, e: Event, slack: nat) returns (steps: seq<Step>)
    requires cfg.retention < cfg.dedup + slack && s.now == 0
    requires task.Heartbeat? && s.jobs == map[Arp := Recording(task, Stamp)]
    requires s.trace == [] && s.db.log == [e] && e.createdOn == 0
    requires SameKey(e, MakeEvent(task.device, DeviceSeen, Arp, cfg.dedup, cfg.dedup))
    ensures Scheduled(cfg, s, steps, Prompt(slack)) && Runs(cfg, s, steps) && Runs(cfg, s, WithoutSweeps(steps))
    ensures |Run(cfg, s, steps).trace| == 1 && |Run(cfg, s, WithoutSweeps(steps)).trace| == 0
  {
    var go := Advance(Arp);
    var s1 := Next(cfg, s, Tick(cfg.dedup));
    var s2 := Next(cfg, s1, go);
    var s3 := Next(cfg, s2, go);
    var s4 := Next(cfg, s3, Tick(slack));
    assert s3.jobs == map[Arp := Recording(task, Check(cfg.dedup, cfg.dedup))];
    steps := SweptAway(cfg, s4, task, e, slack);
    steps := PrependPromptly(cfg, s3, Tick(slack), steps, slack);
    steps := PrependPromptly(cfg, s2, go, steps, slack);
    steps := PrependPromptly(cfg, s1, go, steps, slack);
    steps := PrependPromptly(cfg, s, Tick(cfg.dedup), steps, slack);
  }

  // A heartbeat whose bound was computed at the recorded event's last duplicate instant, and whose
  // lookup runs `slack` later, just after a purge.
  lemma SweptAway(cfg: Config, s: State, task: Task, e: Event, slack: nat) returns (steps: seq<Step>)
    requires cfg.retention < cfg.dedup + slack && s.now == cfg.dedup + slack
    requires task.Heartbeat? && s.jobs == map[Arp := Recording(task, Check(cfg.dedup, cfg.dedup))]
    requires s.trace == [] && s.db.log == [e] && e.createdOn == 0
    requires SameKey(e, MakeEvent(task.device, DeviceSeen, Arp, cfg.dedup, cfg.dedup))
    ensures Scheduled(cfg, s, steps, Prompt(slack)) && Runs(cfg, s, steps) && Runs(cfg, s, WithoutSweeps(steps))
    ensures |Run(cfg, s, steps).trace| == 1 && |Run(cfg, s, WithoutSweeps(steps)).trace| == 0
  {
    var go, cutoff := Advance(Arp), s.now - cfg.retention;
    assert s.db.log[..0] == [];
    assert Since(s.db.log, cutoff) == [];
    var s1 := Next(cfg, s, Sweep(cutoff));
    var later := MakeEvent(task.device, DeviceSeen, Arp, cfg.dedup, cfg.dedup);
    var s2 := Next(cfg, s1, go);
    assert s2.jobs[Arp] == Recording(task, Append(later));
    var s3 := Next(cfg, s2, go);
    assert s3.trace == [Recorded(later)];
    steps := PrependPromptly(cfg, s2, go, [], slack);
    steps := PrependPromptly(cfg, s1, go, steps, slack);
    assert steps == [go, go] && Run(cfg, s1, steps) == s3;

    assert e in s.db.log;
    var t1 := Next(cfg, s, go);
    assert t1.jobs[Arp] == Detecting(task.recorded, task.device);
    var kept := Prepend(cfg, t1, go, []);
    kept := Prepend(cfg, s, go, kept);
    assert kept == steps == WithoutSweeps(steps);
    steps := [Sweep(cutoff)] + steps;
    assert steps[1..] == kept;
    ScheduledRuns(cfg, s, steps, Prompt(slack));
  }

  lemma PrependPromptly(cfg: Config, s: State, step: Step, rest: seq<Step>, slack: nat) returns (steps: seq<Step>)
    requires Enabled(cfg, s, step) && Prompt(slack)(s, step) && !step.Sweep?
    requires Scheduled(cfg, Next(cfg, s, step), rest, Prompt(slack)) && Runs(cfg, Next(cfg, s, step), WithoutSweeps(rest))
    ensures steps == [step] + rest && Scheduled(cfg, s, steps, Prompt(slack)) && Runs(cfg, s, steps)
    ensures WithoutSweeps(steps) == [step] + WithoutSweeps(rest) && Runs(cfg, s, WithoutSweeps(steps))
    ensures Runs(cfg, Next(cfg, s, step), rest) && Run(cfg, s, steps) == Run(cfg, Next(cfg, s, step), rest)
    ensures Run(cfg, s, WithoutSweeps(steps)) == Run(cfg, Next(cfg, s, step), WithoutSweeps(rest))
  {
    steps := [step] + rest;
    assert steps[1..] == rest;
    ScheduledRuns(cfg, Next(cfg, s, step), rest, Prompt(slack));
    var kept := Prepend(cfg, s, step, WithoutSweeps(rest));
    assert WithoutSweeps(steps) == kept;
  }
}
