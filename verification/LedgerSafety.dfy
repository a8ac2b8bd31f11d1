// What every reachable state of the ledger satisfies, whatever the interleaving.

module LedgerSafety {
  import opened Options
  import opened Text
  import opened Devices
  import opened Events
  import opened Ledger

  // ---- Deduplication ----

  // Why the gap between lookup and insert is harmless: the key contains the scanner, and the
  // scanner is busy until it has inserted.
  predicate JobSpaced(window: nat, s: State, scanner: Scanner, job: Job) {
    && (job.Recording? && job.phase.Window? ==> job.phase.createdOn <= s.now)
    && (job.Recording? && job.phase.Check? ==> job.phase.createdOn <= job.phase.clock <= s.now)
    && (job.Recording? && job.phase.Append? ==>
          var e := job.phase.event;
          && e.scanner == scanner && e.createdOn <= e.checkedAt
          && forall x :: x in s.db.log ==> Apart(window, x, e))
  }

  ghost predicate DedupInvariant(cfg: Config, s: State) {
    && Spaced(cfg.dedup, s.db.log)
    && forall scanner :: scanner in s.jobs ==> JobSpaced(cfg.dedup, s, scanner, s.jobs[scanner])
  }

  lemma DedupRecording(cfg: Config, s: State, scanner: Scanner, task: Task, phase: Phase)
    requires DedupInvariant(cfg, s) && JobSpaced(cfg.dedup, s, scanner, Recording(task, phase))
    ensures var s' := AdvanceRecording(cfg, s, scanner, task, phase);
      && Spaced(cfg.dedup, s'.db.log)
      && (scanner in s'.jobs ==> JobSpaced(cfg.dedup, s', scanner, s'.jobs[scanner]))
      && forall x :: x in s'.db.log ==> x in s.db.log || x.scanner == scanner
  {
    match phase
    case Check(createdOn, clock) => DedupChecked(cfg, s, scanner, task, createdOn, clock);
    case Append(e) =>
      SpacedAppend(cfg.dedup, s.db.log, e);
      FinishedFrame(Stored(s, e), scanner, task, true);
    case _ =>
  }

  // The lookup answers: no duplicate since the bound means every event of the key is older.
  lemma DedupChecked(cfg: Config, s: State, scanner: Scanner, task: Task, createdOn: int, clock: int)
    requires createdOn <= clock <= s.now
    ensures var s' := AdvanceRecording(cfg, s, scanner, task, Check(createdOn, clock));
      s'.db == s.db && (scanner in s'.jobs ==> JobSpaced(cfg.dedup, s', scanner, s'.jobs[scanner]))
  {
    FinishedFrame(s, scanner, task, false);
  }

  lemma DedupAdvance(cfg: Config, s: State, scanner: Scanner)
    requires DedupInvariant(cfg, s) && scanner in s.jobs
    ensures DedupInvariant(cfg, Next(cfg, s, Advance(scanner)))
  {
    var job := s.jobs[scanner];
    var s' := Next(cfg, s, Advance(scanner));
    AdvanceFrame(cfg, s, scanner, job);
    if job.Recording? {
      DedupRecording(cfg, s, scanner, job.task, job.phase);
    } else {
      assert s'.db.log == s.db.log;
    }
    forall other | other in s'.jobs && other != scanner
      ensures JobSpaced(cfg.dedup, s', other, s'.jobs[other])
    {
      assert JobSpaced(cfg.dedup, s, other, s.jobs[other]);
    }
  }

  // Events may be forgotten at any time.
  lemma DedupForget(cfg: Config, s: State, s': State)
    requires DedupInvariant(cfg, s) && Spaced(cfg.dedup, s'.db.log)
    requires s'.now == s.now && s'.jobs == s.jobs && forall x :: x in s'.db.log ==> x in s.db.log
    ensures DedupInvariant(cfg, s')
  {
    forall scanner | scanner in s'.jobs
      ensures JobSpaced(cfg.dedup, s', scanner, s'.jobs[scanner])
    {
      assert JobSpaced(cfg.dedup, s, scanner, s.jobs[scanner]);
    }
  }

  lemma DedupStep(cfg: Config, s: State, step: Step)
    requires DedupInvariant(cfg, s) && Enabled(cfg, s, step)
    ensures DedupInvariant(cfg, Next(cfg, s, step))
  {
    var s' := Next(cfg, s, step);
    match step
    case Advance(scanner) => DedupAdvance(cfg, s, scanner);
    case Sweep(cutoff) =>
      SpacedSince(cfg.dedup, s.db.log, cutoff);
      forall x | x in s'.db.log ensures x in s.db.log { SinceHas(s.db.log, cutoff, x); }
      DedupForget(cfg, s, s');
    case Commit(id) =>
      var mac := NormalizeMac(s.requests[id].mac);
      SpacedWithout(cfg.dedup, s.db.log, mac);
      forall x | x in s'.db.log ensures x in s.db.log { WithoutHas(s.db.log, mac, x); }
      DedupForget(cfg, s, s');
    case _ =>
  }

  lemma {:induction false} DedupRun(cfg: Config, s: State, steps: seq<Step>)
    requires DedupInvariant(cfg, s) && Runs(cfg, s, steps)
    ensures DedupInvariant(cfg, Run(cfg, s, steps))
    decreases |steps|
  {
    if steps != [] {
      DedupStep(cfg, s, steps[0]);
      DedupRun(cfg, Next(cfg, s, steps[0]), steps[1..]);
    }
  }

  // In every reachable state, two stored events of one key are more than the window apart, short
  // only of the time the later one let pass between its two clock readings.
  lemma StoredEventsApart(cfg: Config, s: State, steps: seq<Step>, i: nat, j: nat)
    requires Started(cfg, s) && Runs(cfg, s, steps)
    requires var log := Run(cfg, s, steps).db.log; i < j < |log| && SameKey(log[i], log[j])
    ensures var log := Run(cfg, s, steps).db.log;
      && log[j].createdOn - log[i].createdOn > cfg.dedup - (log[j].checkedAt - log[j].createdOn)
      && (log[j].checkedAt == log[j].createdOn ==> log[j].createdOn - log[i].createdOn > cfg.dedup)
  {
    DedupRun(cfg, s, steps);
    SpacedPair(cfg.dedup, Run(cfg, s, steps).db.log, i, j);
  }

  // ---- New-device changes ----

  function IsNew(o: Output, mac: string): nat {
    if o.Returned? && o.change.New? && NormalizeMac(o.change.device.mac) == mac then 1 else 0
  }

  function IsErasure(o: Output, mac: string): nat {
    if o.Written? && o.hit && o.write.Delete? && NormalizeMac(o.write.mac) == mac then 1 else 0
  }

  function News(trace: seq<Output>, mac: string): nat {
    if trace == [] then 0 else News(trace[..|trace| - 1], mac) + IsNew(trace[|trace| - 1], mac)
  }

  function Erasures(trace: seq<Output>, mac: string): nat {
    if trace == [] then 0 else Erasures(trace[..|trace| - 1], mac) + IsErasure(trace[|trace| - 1], mac)
  }

  lemma CountAppend(trace: seq<Output>, o: Output, mac: string)
    ensures News(trace + [o], mac) == News(trace, mac) + IsNew(o, mac)
    ensures Erasures(trace + [o], mac) == Erasures(trace, mac) + IsErasure(o, mac)
  {
    assert (trace + [o])[..|trace|] == trace;
  }

  // 1 when the scanner has inserted the device but not yet answered about it.
  function Pending(s: State, scanner: Scanner, mac: string): nat {
    if scanner in s.jobs && s.jobs[scanner].Recording? && s.jobs[scanner].task.FirstSeen?
       && NormalizeMac(s.jobs[scanner].task.device.mac) == mac
    then 1 else 0
  }

  function AllPending(s: State, mac: string): nat {
    Pending(s, Arp, mac) + Pending(s, Mdns, mac) + Pending(s, Ssdp, mac) + Pending(s, Dhcp, mac)
    + Pending(s, Snmp, mac)
  }

  function Present(s: State, mac: string): nat {
    if mac in s.db.rows then 1 else 0
  }

  // Changes of a known device are never `New`.
  predicate Returning(job: Job) {
    job.Recording? && job.task.Report? ==>
      !job.task.change.New? && forall c :: c in job.task.rest ==> !c.New?
  }

  ghost predicate NewInvariant(start: State, s: State, mac: string) {
    && (forall scanner :: scanner in s.jobs ==> Returning(s.jobs[scanner]))
    && NewBalance(start, s, mac)
  }

  ghost predicate NewBalance(start: State, s: State, mac: string) {
    News(s.trace, mac) + AllPending(s, mac) + Present(start, mac) <= Erasures(s.trace, mac) + Present(s, mac)
  }

  lemma CountAnnounced(trace: seq<Output>, e: Event, scanner: Scanner, task: Task, mac: string)
    ensures var trace' := trace + [Recorded(e)] + Announced(scanner, task);
      && News(trace', mac) <= News(trace, mac) + (if task.FirstSeen? && NormalizeMac(task.device.mac) == mac then 1 else 0)
      && Erasures(trace', mac) == Erasures(trace, mac)
    requires task.Report? ==> !task.change.New?
  {
    CountAppend(trace, Recorded(e), mac);
    var recorded := trace + [Recorded(e)];
    if Announced(scanner, task) == [] {
      assert recorded + [] == recorded;
    } else {
      CountAppend(recorded, Announced(scanner, task)[0], mac);
    }
  }

  lemma ReturningNext(s: State, scanner: Scanner, device: Device, changes: seq<Change>)
    requires forall c :: c in changes ==> !c.New?
    ensures var s' := NextReport(s, scanner, device, changes);
      scanner in s'.jobs ==> Returning(s'.jobs[scanner])
  {
  }

  lemma ReturningFinished(s: State, scanner: Scanner, task: Task, phase: Phase, accepted: bool)
    requires Returning(Recording(task, phase))
    ensures var s' := Finished(s, scanner, task, accepted);
      scanner in s'.jobs ==> Returning(s'.jobs[scanner])
  {
    match task
    case Report(change, device, rest) =>
      ReturningNext(if accepted then s.(trace := s.trace + [Returned(scanner, change)]) else s, scanner, device, rest);
    case _ =>
  }

  lemma ReturningAdvance(cfg: Config, s: State, scanner: Scanner, job: Job)
    requires Returning(job)
    ensures var s' := AdvanceJob(cfg, s, scanner, job);
      scanner in s'.jobs ==> Returning(s'.jobs[scanner])
  {
    match job
    case Recording(task, Check(createdOn, clock)) =>
      ReturningFinished(s, scanner, task, job.phase, false);
    case Recording(task, Append(e)) =>
      ReturningFinished(Stored(s, e), scanner, task, job.phase, true);
    case Detecting(recorded, device) =>
      ReturningNext(s, scanner, device, Detect(cfg, recorded, device, s.now));
    case _ =>
  }

  lemma NewRecorded(cfg: Config, start: State, s: State, scanner: Scanner, task: Task, e: Event, mac: string)
    requires NewBalance(start, s, mac) && scanner in s.jobs && s.jobs[scanner] == Recording(task, Append(e))
    requires Returning(s.jobs[scanner])
    ensures NewBalance(start, AdvanceJob(cfg, s, scanner, s.jobs[scanner]), mac)
  {
    hide News, Erasures;
    var written := Stored(s, e);
    var s' := Finished(written, scanner, task, true);
    CountAnnounced(s.trace, e, scanner, task, mac);
    FinishedFrame(written, scanner, task, true);
    PendingFrame(s, s', scanner, mac);
  }

  lemma NewInserting(cfg: Config, start: State, s: State, scanner: Scanner, device: Device, mac: string)
    requires NewBalance(start, s, mac) && scanner in s.jobs && s.jobs[scanner] == Inserting(device)
    ensures NewBalance(start, AdvanceJob(cfg, s, scanner, s.jobs[scanner]), mac)
  {
    var s' := AdvanceJob(cfg, s, scanner, s.jobs[scanner]);
    InsertingFrame(cfg, s, scanner, device);
    PendingFrame(s, s', scanner, mac);
    CountAppend(s.trace, Inserted(NormalizeMac(device.mac)), mac);
    assert Pending(s, scanner, mac) == 0;
    InsertedBalance(cfg, s, scanner, device, mac);
  }

  lemma InsertedBalance(cfg: Config, s: State, scanner: Scanner, device: Device, mac: string)
    ensures var s' := AdvanceJob(cfg, s, scanner, Inserting(device));
      && (s'.trace == s.trace || s'.trace == s.trace + [Inserted(NormalizeMac(device.mac))])
      && Pending(s', scanner, mac) + Present(s, mac) == Present(s', mac)
  {
  }

  // Any other statement leaves the trace and the set of rows alone and announces nothing.
  lemma NewQuiet(cfg: Config, s: State, scanner: Scanner, job: Job, mac: string)
    requires scanner in s.jobs && s.jobs[scanner] == job
    requires !job.Inserting? && (job.Recording? ==> !job.phase.Append?)
    ensures var s' := AdvanceJob(cfg, s, scanner, job);
      && s'.trace == s.trace && s'.db.rows.Keys == s.db.rows.Keys
      && Pending(s', scanner, mac) <= Pending(s, scanner, mac)
  {
    match job
    case Recording(task, phase) => NewUnrecorded(cfg, s, scanner, task, phase, mac);
    case _ =>
  }

  lemma NewUnrecorded(cfg: Config, s: State, scanner: Scanner, task: Task, phase: Phase, mac: string)
    requires scanner in s.jobs && s.jobs[scanner] == Recording(task, phase) && !phase.Append?
    ensures var s' := AdvanceRecording(cfg, s, scanner, task, phase);
      s'.trace == s.trace && s'.db == s.db && Pending(s', scanner, mac) <= Pending(s, scanner, mac)
  {
    match phase
    case Check(_, _) => FinishedFrame(s, scanner, task, false);
    case _ =>
  }

  lemma NewAdvance(cfg: Config, start: State, s: State, scanner: Scanner, mac: string)
    requires NewBalance(start, s, mac) && scanner in s.jobs && Returning(s.jobs[scanner])
    ensures NewBalance(start, AdvanceJob(cfg, s, scanner, s.jobs[scanner]), mac)
  {
    var job := s.jobs[scanner];
    if job.Inserting? {
      NewInserting(cfg, start, s, scanner, job.device, mac);
    } else if job.Recording? && job.phase.Append? {
      NewRecorded(cfg, start, s, scanner, job.task, job.phase.event, mac);
    } else {
      NewQuiet(cfg, s, scanner, job, mac);
      AdvanceFrame(cfg, s, scanner, job);
      PendingFrame(s, AdvanceJob(cfg, s, scanner, job), scanner, mac);
    }
  }

  lemma PendingFrame(s: State, s': State, scanner: Scanner, mac: string)
    requires Framed(s, s', scanner)
    ensures AllPending(s', mac) - Pending(s', scanner, mac) == AllPending(s, mac) - Pending(s, scanner, mac)
  {
    forall other: Scanner | other != scanner
      ensures Pending(s', other, mac) == Pending(s, other, mac)
    {
    }
    match scanner
    case Arp =>
    case Mdns =>
    case Ssdp =>
    case Dhcp =>
    case Snmp =>
  }

  lemma ExecuteKeys(db: Db, w: Write)
    ensures Execute(db, w).rows.Keys == if w.Delete? then db.rows.Keys - {NormalizeMac(w.mac)} else db.rows.Keys
  {
  }

  lemma NewCommit(cfg: Config, start: State, s: State, id: nat, mac: string)
    requires NewBalance(start, s, mac) && id in s.requests
    ensures NewBalance(start, Next(cfg, s, Commit(id)), mac)
  {
    hide News, Erasures, IsErasure;
    var s' := Next(cfg, s, Commit(id));
    var w := s.requests[id];
    CountAppend(s.trace, Written(w, NormalizeMac(w.mac) in s.db.rows), mac);
    ErasureBalance(cfg, s, id, mac);
    assert s'.jobs == s.jobs;
    assert AllPending(s', mac) == AllPending(s, mac);
  }

  lemma ErasureBalance(cfg: Config, s: State, id: nat, mac: string)
    requires id in s.requests
    ensures var w := s.requests[id];
      Present(Next(cfg, s, Commit(id)), mac) + IsErasure(Written(w, NormalizeMac(w.mac) in s.db.rows), mac)
      == Present(s, mac)
  {
    ExecuteKeys(s.db, s.requests[id]);
  }

  lemma NewEnvironment(cfg: Config, start: State, s: State, step: Step, mac: string)
    requires NewBalance(start, s, mac) && Enabled(cfg, s, step) && !step.Advance? && !step.Commit?
    ensures NewBalance(start, Next(cfg, s, step), mac)
  {
    var s' := Next(cfg, s, step);
    assert s'.trace == s.trace && s'.db.rows == s.db.rows;
    if step.Begin? {
      PendingFrame(s, s', step.scanner, mac);
    }
    assert AllPending(s', mac) <= AllPending(s, mac);
  }

  lemma NewStep(cfg: Config, start: State, s: State, step: Step, mac: string)
    requires NewInvariant(start, s, mac) && Enabled(cfg, s, step)
    ensures NewInvariant(start, Next(cfg, s, step), mac)
  {
    match step
    case Advance(scanner) =>
      AdvanceFrame(cfg, s, scanner, s.jobs[scanner]);
      ReturningAdvance(cfg, s, scanner, s.jobs[scanner]);
      NewAdvance(cfg, start, s, scanner, mac);
    case Commit(id) => NewCommit(cfg, start, s, id, mac);
    case _ => NewEnvironment(cfg, start, s, step, mac);
  }

  // Over any run, a device (up to letter case) is announced as new at most once, plus once for
  // every deletion that removed its row; one that was on record from the start only after those.
  lemma {:induction false} NewChangesBounded(cfg: Config, s: State, steps: seq<Step>, mac: string)
    requires AtRest(s) && Runs(cfg, s, steps)
    ensures var trace := Run(cfg, s, steps).trace;
      News(trace, mac) <= Erasures(trace, mac) + (if mac in s.db.rows then 0 else 1)
  {
    NewRun(cfg, s, s, steps, mac);
  }

  lemma {:induction false} NewRun(cfg: Config, start: State, s: State, steps: seq<Step>, mac: string)
    requires NewInvariant(start, s, mac) && Runs(cfg, s, steps)
    ensures NewInvariant(start, Run(cfg, s, steps), mac)
    decreases |steps|
  {
    if steps != [] {
      NewStep(cfg, start, s, steps[0], mac);
      NewRun(cfg, start, Next(cfg, s, steps[0]), steps[1..], mac);
    }
  }

  // ---- One row a device ----

  // Rows and events are stored under the normal form of their MAC, which each row carries.
  ghost predicate Normal(db: Db) {
    && (forall m :: m in db.rows ==> NormalizeMac(m) == m && db.rows[m].mac == m)
    && forall x :: x in db.log ==> NormalizeMac(x.mac) == x.mac
  }

  predicate JobNormal(job: Job) {
    job.Recording? && job.phase.Append? ==> NormalizeMac(job.phase.event.mac) == job.phase.event.mac
  }

  ghost predicate NormalInvariant(s: State) {
    Normal(s.db) && forall scanner :: scanner in s.jobs ==> JobNormal(s.jobs[scanner])
  }

  lemma NormalRecording(cfg: Config, s: State, scanner: Scanner, task: Task, phase: Phase)
    requires Normal(s.db) && JobNormal(Recording(task, phase))
    ensures var s' := AdvanceRecording(cfg, s, scanner, task, phase);
      Normal(s'.db) && (scanner in s'.jobs ==> JobNormal(s'.jobs[scanner]))
  {
    NormalizeFolds(task.device.mac, task.device.mac);
    match phase
    case Check(_, _) => FinishedFrame(s, scanner, task, false);
    case Append(e) => FinishedFrame(Stored(s, e), scanner, task, true);
    case _ =>
  }

  lemma NormalAdvance(cfg: Config, s: State, scanner: Scanner, job: Job)
    requires Normal(s.db) && JobNormal(job)
    ensures var s' := AdvanceJob(cfg, s, scanner, job);
      Normal(s'.db) && (scanner in s'.jobs ==> JobNormal(s'.jobs[scanner]))
  {
    match job
    case Recording(task, phase) => NormalRecording(cfg, s, scanner, task, phase);
    case Inserting(device) => NormalInserting(cfg, s, scanner, device);
    case Updating(recorded, device) => NormalUpdating(cfg, s, scanner, recorded, device);
    case _ =>
  }

  lemma NormalInserting(cfg: Config, s: State, scanner: Scanner, device: Device)
    requires Normal(s.db)
    ensures var s' := AdvanceJob(cfg, s, scanner, Inserting(device));
      Normal(s'.db) && (scanner in s'.jobs ==> JobNormal(s'.jobs[scanner]))
  {
    NormalizeFolds(device.mac, device.mac);
  }

  lemma NormalUpdating(cfg: Config, s: State, scanner: Scanner, recorded: Device, device: Device)
    requires Normal(s.db)
    ensures var s' := AdvanceJob(cfg, s, scanner, Updating(recorded, device));
      Normal(s'.db) && (scanner in s'.jobs ==> JobNormal(s'.jobs[scanner]))
  {
  }

  lemma NormalStep(cfg: Config, s: State, step: Step)
    requires NormalInvariant(s) && Enabled(cfg, s, step)
    ensures NormalInvariant(Next(cfg, s, step))
  {
    match step
    case Advance(scanner) =>
      AdvanceFrame(cfg, s, scanner, s.jobs[scanner]);
      NormalAdvance(cfg, s, scanner, s.jobs[scanner]);
    case Sweep(cutoff) =>
      forall x | x in Since(s.db.log, cutoff) ensures x in s.db.log { SinceHas(s.db.log, cutoff, x); }
    case Commit(id) =>
      var m := NormalizeMac(s.requests[id].mac);
      forall x | x in Without(s.db.log, m) ensures x in s.db.log { WithoutHas(s.db.log, m, x); }
    case _ =>
  }

  lemma {:induction false} NormalRun(cfg: Config, s: State, steps: seq<Step>)
    requires NormalInvariant(s) && Runs(cfg, s, steps)
    ensures NormalInvariant(Run(cfg, s, steps))
    decreases |steps|
  {
    if steps != [] {
      NormalStep(cfg, s, steps[0]);
      NormalRun(cfg, Next(cfg, s, steps[0]), steps[1..]);
    }
  }

  // Main result: after any run no two rows are of one device, in whatever letter case it was sighted.
  lemma OneRowADevice(cfg: Config, s: State, steps: seq<Step>, a: string, b: string)
    requires AtRest(s) && Normal(s.db) && Runs(cfg, s, steps)
    requires var rows := Run(cfg, s, steps).db.rows;
      a in rows && b in rows && SameUpToCase(rows[a].mac, rows[b].mac)
    ensures a == b && Run(cfg, s, steps).db.rows[a].mac == a
    ensures forall i :: 0 <= i < |a| ==> !(65 <= a[i] as int <= 90)
  {
    NormalRun(cfg, s, steps);
    NormalizeFolds(a, b);
    LowerIsLower(a);
  }

  // ---- Registration, owner and device type ----

  datatype Holding = Holding(isRegistered: bool, owner: string)

  function HoldingOf(db: Db, mac: string): Option<Holding> {
    if mac in db.rows then Some(Holding(db.rows[mac].isRegistered, db.rows[mac].owner)) else None
  }

  function Replayed(held: Option<Holding>, o: Output, mac: string): Option<Holding> {
    match o
    case Inserted(m) => if m == mac then Some(Holding(false, "")) else held
    case Written(w, _) =>
      if NormalizeMac(w.mac) != mac || held.None? then held
      else
        (match w
         case Register(_, owner, _, _) => Some(Holding(true, owner))
         case Update(_, owner, _, _, _) => Some(Holding(held.value.isRegistered, owner))
         case Unregister(_) => Some(Holding(false, ""))
         case Delete(_) => None)
    case _ => held
  }

  // Insertions and API writes of one device, replayed in order; sightings play no part.
  function Replay(start: Option<Holding>, trace: seq<Output>, mac: string): Option<Holding> {
    if trace == [] then start
    else Replayed(Replay(start, trace[..|trace| - 1], mac), trace[|trace| - 1], mac)
  }

  lemma ReplayAppend(start: Option<Holding>, trace: seq<Output>, o: Output, mac: string)
    ensures Replay(start, trace + [o], mac) == Replayed(Replay(start, trace, mac), o, mac)
  {
    assert (trace + [o])[..|trace|] == trace;
  }

  // A device about to be inserted is unregistered and has no owner.
  predicate Unclaimed(job: Job) {
    job.Reading? || job.Inserting? ==> !job.device.isRegistered && job.device.owner == ""
  }

  ghost predicate Carried(s: State) {
    forall scanner :: scanner in s.jobs ==> Unclaimed(s.jobs[scanner])
  }

  ghost predicate HoldingInvariant(start: State, s: State, mac: string) {
    && Carried(s)
    && HoldingOf(s.db, mac) == Replay(HoldingOf(start.db, mac), s.trace, mac)
  }

  lemma ReplayAnnounced(start: Option<Holding>, trace: seq<Output>, e: Event, scanner: Scanner, task: Task, mac: string)
    ensures Replay(start, trace + [Recorded(e)] + Announced(scanner, task), mac) == Replay(start, trace, mac)
  {
    ReplayAppend(start, trace, Recorded(e), mac);
    var recorded := trace + [Recorded(e)];
    if Announced(scanner, task) == [] {
      assert recorded + [] == recorded;
    } else {
      ReplayAppend(start, recorded, Announced(scanner, task)[0], mac);
    }
  }

  lemma CarriedAdvance(cfg: Config, s: State, scanner: Scanner)
    requires Carried(s) && scanner in s.jobs
    ensures Carried(Next(cfg, s, Advance(scanner)))
  {
    AdvanceFrame(cfg, s, scanner, s.jobs[scanner]);
    assert Unclaimed(s.jobs[scanner]);
  }

  lemma HoldingRecording(cfg: Config, start: State, s: State, scanner: Scanner, task: Task, phase: Phase, mac: string)
    ensures var s' := AdvanceRecording(cfg, s, scanner, task, phase);
      var held := HoldingOf(start.db, mac);
      s'.db.rows == s.db.rows && Replay(held, s'.trace, mac) == Replay(held, s.trace, mac)
  {
    match phase
    case Check(_, _) =>
      FinishedFrame(s, scanner, task, false);
    case Append(e) =>
      ReplayAnnounced(HoldingOf(start.db, mac), s.trace, e, scanner, task, mac);
      FinishedFrame(Stored(s, e), scanner, task, true);
    case _ =>
  }

  lemma HoldingAdvance(cfg: Config, start: State, s: State, scanner: Scanner, mac: string)
    requires HoldingInvariant(start, s, mac) && scanner in s.jobs
    ensures HoldingInvariant(start, Next(cfg, s, Advance(scanner)), mac)
  {
    CarriedAdvance(cfg, s, scanner);
    assert Unclaimed(s.jobs[scanner]);
    match s.jobs[scanner]
    case Inserting(device) => HoldingInserting(cfg, start, s, scanner, device, mac);
    case Recording(task, phase) => HoldingRecording(cfg, start, s, scanner, task, phase, mac);
    case _ => HoldingKept(cfg, s, scanner, s.jobs[scanner], mac);
  }

  lemma HoldingInserting(cfg: Config, start: State, s: State, scanner: Scanner, device: Device, mac: string)
    requires !device.isRegistered && device.owner == ""
    requires HoldingOf(s.db, mac) == Replay(HoldingOf(start.db, mac), s.trace, mac)
    ensures var s' := AdvanceJob(cfg, s, scanner, Inserting(device));
      HoldingOf(s'.db, mac) == Replay(HoldingOf(start.db, mac), s'.trace, mac)
  {
    var m, s' := NormalizeMac(device.mac), AdvanceJob(cfg, s, scanner, Inserting(device));
    if m in s.db.rows {
      assert s'.db == s.db && s'.trace == s.trace;
    } else {
      assert s'.db.rows == s.db.rows[m := InsertedRow(device)] && s'.trace == s.trace + [Inserted(m)];
      ReplayAppend(HoldingOf(start.db, mac), s.trace, Inserted(m), mac);
      HoldingInserted(s.db, s'.db, device, mac);
    }
  }

  lemma HoldingInserted(before: Db, after: Db, device: Device, mac: string)
    requires after.rows == before.rows[NormalizeMac(device.mac) := InsertedRow(device)]
    ensures HoldingOf(after, mac) == if NormalizeMac(device.mac) == mac then Some(Holding(device.isRegistered, device.owner))
                                     else HoldingOf(before, mac)
  {
  }

  // No other statement of a sighting says anything about who holds a device.
  lemma HoldingKept(cfg: Config, s: State, scanner: Scanner, job: Job, mac: string)
    requires !job.Inserting? && !job.Recording?
    ensures var s' := AdvanceJob(cfg, s, scanner, job); HoldingOf(s'.db, mac) == HoldingOf(s.db, mac) && s'.trace == s.trace
  {
  }

  lemma HoldingStep(cfg: Config, start: State, s: State, step: Step, mac: string)
    requires HoldingInvariant(start, s, mac) && Enabled(cfg, s, step)
    ensures HoldingInvariant(start, Next(cfg, s, step), mac)
  {
    match step
    case Advance(scanner) => HoldingAdvance(cfg, start, s, scanner, mac);
    case Commit(id) =>
      var w := s.requests[id];
      ReplayAppend(HoldingOf(start.db, mac), s.trace, Written(w, NormalizeMac(w.mac) in s.db.rows), mac);
    case _ =>
  }

  // Whatever sightings are in flight, a live row's registration and owner are those the API
  // writes since its last insertion left.
  lemma {:induction false} HoldingRun(cfg: Config, start: State, s: State, steps: seq<Step>, mac: string)
    requires HoldingInvariant(start, s, mac) && Runs(cfg, s, steps)
    ensures HoldingInvariant(start, Run(cfg, s, steps), mac)
    decreases |steps|
  {
    if steps != [] {
      HoldingStep(cfg, start, s, steps[0], mac);
      HoldingRun(cfg, start, Next(cfg, s, steps[0]), steps[1..], mac);
    }
  }

  lemma RegistrationFollowsApi(cfg: Config, s: State, steps: seq<Step>, mac: string)
    requires AtRest(s) && Runs(cfg, s, steps)
    ensures var end := Run(cfg, s, steps);
      HoldingOf(end.db, mac) == Replay(HoldingOf(s.db, mac), end.trace, mac)
  {
    HoldingRun(cfg, s, s, steps, mac);
  }

  predicate WritesTo(cfg: Config, s: State, step: Step, mac: string)
    requires Enabled(cfg, s, step)
  {
    step.Commit? && NormalizeMac(s.requests[step.id].mac) == mac
  }

  ghost predicate Untouched(cfg: Config, s: State, steps: seq<Step>, mac: string)
    requires Runs(cfg, s, steps)
    decreases |steps|
  {
    steps == [] ||
    (!WritesTo(cfg, s, steps[0], mac) && Untouched(cfg, Next(cfg, s, steps[0]), steps[1..], mac))
  }

  // From any state, however stale the rows its sightings have read: until the API writes to the
  // device, its row stays and a non-empty device type is never overwritten.
  lemma {:induction false} DeviceTypeKept(cfg: Config, s: State, steps: seq<Step>, mac: string)
    requires Runs(cfg, s, steps) && Untouched(cfg, s, steps, mac)
    requires mac in s.db.rows && s.db.rows[mac].deviceType != ""
    ensures var rows := Run(cfg, s, steps).db.rows;
      mac in rows && rows[mac].deviceType == s.db.rows[mac].deviceType
    decreases |steps|
  {
    if steps != [] {
      DeviceTypeKept(cfg, Next(cfg, s, steps[0]), steps[1..], mac);
    }
  }
}
