// The sighting ledger as a state machine at the granularity of SQL statements and clock readings.
// Five scanners, the API handlers and the retention purge share the device and event tables; a
// step of any of them may fall between any two statements of another.

module Ledger {
  import opened Options
  import opened Devices
  import opened Events

  datatype Db = Db(rows: map<string, Device>, log: seq<Event>)

  // Statements on the tables.

  function Insert(db: Db, device: Device): Option<Db> {
    var m := NormalizeMac(device.mac);
    if m in db.rows then None else Some(db.(rows := db.rows[m := InsertedRow(device)]))
  }

  function Seen(db: Db, device: Device, now: int): Db {
    var m := NormalizeMac(device.mac);
    if m in db.rows then db.(rows := db.rows[m := SeenAs(db.rows[m], device, now)]) else db
  }

  function Execute(db: Db, w: Write): Db {
    var m := NormalizeMac(w.mac);
    if w.Delete? then Db(db.rows - {m}, Without(db.log, m))
    else if m in db.rows then db.(rows := db.rows[m := WrittenRow(db.rows[m], w)])
    else db
  }

  function Purge(db: Db, cutoff: int): Db {
    db.(log := Since(db.log, cutoff))
  }

  // What a scanner has in progress. Recording one event takes two clock readings, a lookup and an
  // insert.
  datatype Phase =
    | Stamp
    | Window(createdOn: int)
    | Check(createdOn: int, clock: int)
    | Append(event: Event)

  datatype Task =
    | FirstSeen(device: Device)
    | Heartbeat(recorded: Device, device: Device)
    | Report(change: Change, device: Device, rest: seq<Change>)

  datatype Job =
    | Reading(device: Device)
    | Inserting(device: Device)
    | Updating(recorded: Device, device: Device)
    | Recording(task: Task, phase: Phase)
    | Detecting(recorded: Device, device: Device)

  function TaskEventType(task: Task): EventType {
    match task
    case FirstSeen(_) => NewDevice
    case Heartbeat(_, _) => DeviceSeen
    case Report(change, _, _) => EventTypeFor(change)
  }

  // What an observer of the ledger sees, in order.
  datatype Output =
    | Inserted(mac: string)
    | Recorded(event: Event)
    | Returned(scanner: Scanner, change: Change)
    | Written(write: Write, hit: bool)

  datatype State = State(
    now: int, db: Db, jobs: map<Scanner, Job>, requests: map<nat, Write>, trace: seq<Output>)

  datatype Step =
    | Tick(elapsed: nat)
    | Begin(scanner: Scanner, sighting: Sighting)
    | Advance(scanner: Scanner)
    | Request(id: nat, write: Write)
    | Commit(id: nat)
    | Sweep(cutoff: int)
    | Restart

  // A purge may run long after its cutoff was computed, never before.
  predicate Enabled(cfg: Config, s: State, step: Step) {
    match step
    case Tick(_) => true
    case Begin(scanner, _) => scanner !in s.jobs
    case Advance(scanner) => scanner in s.jobs
    case Request(id, _) => id !in s.requests
    case Commit(id) => id in s.requests
    case Sweep(cutoff) => cutoff <= s.now - cfg.retention
    case Restart => true
  }

  function WithJob(s: State, scanner: Scanner, job: Job): State {
    s.(jobs := s.jobs[scanner := job])
  }

  function Idle(s: State, scanner: Scanner): State {
    s.(jobs := s.jobs - {scanner})
  }

  function NextReport(s: State, scanner: Scanner, device: Device, changes: seq<Change>): State {
    if changes == [] then Idle(s, scanner)
    else WithJob(s, scanner, Recording(Report(changes[0], device, changes[1..]), Stamp))
  }

  // `record_event` has answered: `accepted` tells whether the event was recorded.
  function Finished(s: State, scanner: Scanner, task: Task, accepted: bool): State {
    match task
    case FirstSeen(device) =>
      Idle(if accepted then s.(trace := s.trace + [Returned(scanner, New(device))]) else s, scanner)
    case Heartbeat(recorded, device) =>
      WithJob(s, scanner, Detecting(recorded, device))
    case Report(change, device, rest) =>
      NextReport(if accepted then s.(trace := s.trace + [Returned(scanner, change)]) else s, scanner, device, rest)
  }

  // The state after `record_event` has inserted its row, before it answers.
  function Stored(s: State, e: Event): State {
    s.(db := s.db.(log := s.db.log + [e]), trace := s.trace + [Recorded(e)])
  }

  function AdvanceRecording(cfg: Config, s: State, scanner: Scanner, task: Task, phase: Phase): State {
    match phase
    case Stamp => WithJob(s, scanner, Recording(task, Window(s.now)))
    case Window(createdOn) => WithJob(s, scanner, Recording(task, Check(createdOn, s.now)))
    case Check(createdOn, clock) =>
      var e := MakeEvent(task.device, TaskEventType(task), scanner, createdOn, clock);
      if DuplicateSince(s.db.log, e, clock - cfg.dedup) then Finished(s, scanner, task, false)
      else WithJob(s, scanner, Recording(task, Append(e)))
    case Append(e) =>
      Finished(Stored(s, e), scanner, task, true)
  }

  function AdvanceJob(cfg: Config, s: State, scanner: Scanner, job: Job): State {
    match job
    case Reading(device) =>
      var m := NormalizeMac(device.mac);
      if m in s.db.rows
      then WithJob(s, scanner, Updating(s.db.rows[m], Reconcile(s.db.rows[m], device)))
      else WithJob(s, scanner, Inserting(device))
    case Inserting(device) =>
      (match Insert(s.db, device)
       case None => Idle(s, scanner)
       case Some(db) =>
         WithJob(s.(db := db, trace := s.trace + [Inserted(NormalizeMac(device.mac))]), scanner,
                 Recording(FirstSeen(device), Stamp)))
    case Updating(recorded, device) =>
      WithJob(s.(db := Seen(s.db, device, s.now)), scanner, Recording(Heartbeat(recorded, device), Stamp))
    case Recording(task, phase) => AdvanceRecording(cfg, s, scanner, task, phase)
    case Detecting(recorded, device) =>
      NextReport(s, scanner, device, Detect(cfg, recorded, device, s.now))
  }

  function Next(cfg: Config, s: State, step: Step): State
    requires Enabled(cfg, s, step)
  {
    match step
    case Tick(elapsed) => s.(now := s.now + elapsed)
    case Begin(scanner, sighting) => WithJob(s, scanner, Reading(Build(cfg.types, sighting, s.now)))
    case Advance(scanner) => AdvanceJob(cfg, s, scanner, s.jobs[scanner])
    case Request(id, w) =>
      if Permitted(s.db.rows, w) then s.(requests := s.requests[id := w]) else s
    case Commit(id) =>
      var w := s.requests[id];
      s.(db := Execute(s.db, w), requests := s.requests - {id},
         trace := s.trace + [Written(w, NormalizeMac(w.mac) in s.db.rows)])
    case Sweep(cutoff) => s.(db := Purge(s.db, cutoff))
    case Restart => s.(jobs := map[], requests := map[])
  }

  ghost predicate Runs(cfg: Config, s: State, steps: seq<Step>)
    decreases |steps|
  {
    steps == [] || (Enabled(cfg, s, steps[0]) && Runs(cfg, Next(cfg, s, steps[0]), steps[1..]))
  }

  ghost function Run(cfg: Config, s: State, steps: seq<Step>): State
    requires Runs(cfg, s, steps)
    decreases |steps|
  {
    if steps == [] then s else Run(cfg, Next(cfg, s, steps[0]), steps[1..])
  }

  lemma Prepend(cfg: Config, s: State, step: Step, rest: seq<Step>) returns (steps: seq<Step>)
    requires Enabled(cfg, s, step) && Runs(cfg, Next(cfg, s, step), rest)
    ensures steps == [step] + rest && Runs(cfg, s, steps)
    ensures Run(cfg, s, steps) == Run(cfg, Next(cfg, s, step), rest)
  {
    steps := [step] + rest;
    assert steps[1..] == rest;
  }

  lemma {:induction false} RunConcat(cfg: Config, s: State, a: seq<Step>, b: seq<Step>)
    requires Runs(cfg, s, a) && Runs(cfg, Run(cfg, s, a), b)
    ensures Runs(cfg, s, a + b) && Run(cfg, s, a + b) == Run(cfg, Run(cfg, s, a), b)
    decreases |a|
  {
    if a == [] {
      assert a + b == b;
    } else {
      RunConcat(cfg, Next(cfg, s, a[0]), a[1..], b);
      var steps := Prepend(cfg, s, a[0], a[1..] + b);
      assert steps == a + b;
    }
  }

  // No scanner is at work and nothing has been put out yet.
  predicate AtRest(s: State) {
    s.jobs == map[] && s.trace == []
  }

  // The backend has just started on the tables a previous process left.
  ghost predicate Started(cfg: Config, s: State) {
    AtRest(s) && Spaced(cfg.dedup, s.db.log)
  }

  // A scanner's own step leaves the others' jobs, the requests and the clock alone.
  ghost predicate Framed(s: State, s': State, scanner: Scanner) {
    && s'.now == s.now && s'.requests == s.requests
    && forall other :: other != scanner ==>
         && (other in s'.jobs <==> other in s.jobs)
         && (other in s.jobs ==> s'.jobs[other] == s.jobs[other])
  }

  // What answering about one event adds to the trace.
  function Announced(scanner: Scanner, task: Task): seq<Output> {
    match task
    case FirstSeen(device) => [Returned(scanner, New(device))]
    case Heartbeat(_, _) => []
    case Report(change, _, _) => [Returned(scanner, change)]
  }

  lemma FinishedFrame(s: State, scanner: Scanner, task: Task, accepted: bool)
    ensures var s' := Finished(s, scanner, task, accepted);
      && Framed(s, s', scanner) && s'.db == s.db
      && s'.trace == (if accepted then s.trace + Announced(scanner, task) else s.trace)
      && (scanner in s'.jobs ==>
            || (task.Heartbeat? && s'.jobs[scanner] == Detecting(task.recorded, task.device))
            || (task.Report? && s'.jobs[scanner].Recording? && s'.jobs[scanner].phase == Stamp
                && s'.jobs[scanner].task.Report?))
  {
  }

  lemma JobFrame(s: State, written: State, scanner: Scanner, job: Job)
    requires written.now == s.now && written.requests == s.requests && written.jobs == s.jobs
    ensures Framed(s, WithJob(written, scanner, job), scanner) && Framed(s, Idle(written, scanner), scanner)
  {
  }

  lemma RecordingFrame(cfg: Config, s: State, scanner: Scanner, task: Task, phase: Phase)
    ensures Framed(s, AdvanceRecording(cfg, s, scanner, task, phase), scanner)
  {
    match phase
    case Check(createdOn, clock) => FinishedFrame(s, scanner, task, false);
    case Append(e) => FinishedFrame(Stored(s, e), scanner, task, true);
    case _ =>
  }

  lemma InsertingFrame(cfg: Config, s: State, scanner: Scanner, device: Device)
    ensures Framed(s, AdvanceJob(cfg, s, scanner, Inserting(device)), scanner)
  {
    match Insert(s.db, device)
    case None => JobFrame(s, s, scanner, Inserting(device));
    case Some(db) =>
      JobFrame(s, s.(db := db, trace := s.trace + [Inserted(NormalizeMac(device.mac))]), scanner,
               Recording(FirstSeen(device), Stamp));
  }

  lemma UpdatingFrame(cfg: Config, s: State, scanner: Scanner, recorded: Device, device: Device)
    ensures Framed(s, AdvanceJob(cfg, s, scanner, Updating(recorded, device)), scanner)
  {
    JobFrame(s, s.(db := Seen(s.db, device, s.now)), scanner, Recording(Heartbeat(recorded, device), Stamp));
  }

  lemma AdvanceFrame(cfg: Config, s: State, scanner: Scanner, job: Job)
    ensures Framed(s, AdvanceJob(cfg, s, scanner, job), scanner)
  {
    match job
    case Recording(task, phase) => RecordingFrame(cfg, s, scanner, task, phase);
    case Inserting(device) => InsertingFrame(cfg, s, scanner, device);
    case Updating(recorded, device) => UpdatingFrame(cfg, s, scanner, recorded, device);
    case _ =>
  }

  // Only recording changes the event log, and only recording looks at it.

  lemma LogOnlyInRecording(cfg: Config, s: State, scanner: Scanner, job: Job)
    requires !job.Recording?
    ensures var s' := AdvanceJob(cfg, s, scanner, job);
      && s'.db.log == s.db.log
      && (s'.trace == s.trace || (job.Inserting? && s'.trace == s.trace + [Inserted(NormalizeMac(job.device.mac))]))
  {
  }

  lemma LogIrrelevant(cfg: Config, s: State, scanner: Scanner, job: Job, log: seq<Event>)
    requires !job.Recording?
    ensures var s' := AdvanceJob(cfg, s, scanner, job);
      AdvanceJob(cfg, s.(db := s.db.(log := log)), scanner, job) == s'.(db := s'.db.(log := log))
  {
  }
}
