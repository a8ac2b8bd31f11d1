// Changes and events go together: a change is returned only together with its own event, so the
// deduplication window gates notifications as well as the event log.

module LedgerChanges {
  import opened Devices
  import opened Events
  import opened Ledger

  // The event recorded for a change.
  predicate EventOf(e: Event, scanner: Scanner, c: Change) {
    e.mac == NormalizeMac(c.device.mac) && e.scanner == scanner && e.eventType == EventTypeFor(c)
  }

  predicate Paired(trace: seq<Output>) {
    forall k :: 0 <= k < |trace| && trace[k].Returned? ==>
      k > 0 && trace[k - 1].Recorded? && EventOf(trace[k - 1].event, trace[k].scanner, trace[k].change)
  }

  // Pending reports are about the device being recorded, and a checked event is the task's own.
  predicate Faithful(scanner: Scanner, job: Job) {
    job.Recording? ==>
      && (job.task.Report? ==>
            job.task.change.device == job.task.device && forall c :: c in job.task.rest ==> c.device == job.task.device)
      && (job.phase.Append? ==>
            var e := job.phase.event;
            && e.mac == NormalizeMac(job.task.device.mac) && e.scanner == scanner
            && e.eventType == TaskEventType(job.task))
  }

  ghost predicate PairedInvariant(s: State) {
    Paired(s.trace) && forall scanner :: scanner in s.jobs ==> Faithful(scanner, s.jobs[scanner])
  }

  lemma FaithfulNext(s: State, scanner: Scanner, device: Device, changes: seq<Change>)
    requires forall c :: c in changes ==> c.device == device
    ensures var s' := NextReport(s, scanner, device, changes);
      scanner in s'.jobs ==> Faithful(scanner, s'.jobs[scanner])
  {
    if changes != [] {
      assert changes[0] in changes;
    }
  }

  lemma FaithfulFinished(s: State, scanner: Scanner, task: Task, phase: Phase, accepted: bool)
    requires Faithful(scanner, Recording(task, phase))
    ensures var s' := Finished(s, scanner, task, accepted);
      scanner in s'.jobs ==> Faithful(scanner, s'.jobs[scanner])
  {
    match task
    case Report(change, device, rest) =>
      FaithfulNext(if accepted then s.(trace := s.trace + [Returned(scanner, change)]) else s, scanner, device, rest);
    case _ =>
  }

  lemma FaithfulRecording(cfg: Config, s: State, scanner: Scanner, task: Task, phase: Phase)
    requires Faithful(scanner, Recording(task, phase))
    ensures var s' := AdvanceRecording(cfg, s, scanner, task, phase);
      scanner in s'.jobs ==> Faithful(scanner, s'.jobs[scanner])
  {
    match phase
    case Check(_, _) => FaithfulFinished(s, scanner, task, phase, false);
    case Append(e) => FaithfulFinished(Stored(s, e), scanner, task, phase, true);
    case _ =>
  }

  // Detection speaks of the device it was given.
  lemma FaithfulDetecting(cfg: Config, s: State, scanner: Scanner, recorded: Device, device: Device)
    ensures var s' := AdvanceJob(cfg, s, scanner, Detecting(recorded, device));
      scanner in s'.jobs ==> Faithful(scanner, s'.jobs[scanner])
  {
    FaithfulNext(s, scanner, device, Detect(cfg, recorded, device, s.now));
  }

  lemma FaithfulAdvance(cfg: Config, s: State, scanner: Scanner, job: Job)
    requires Faithful(scanner, job)
    ensures var s' := AdvanceJob(cfg, s, scanner, job);
      scanner in s'.jobs ==> Faithful(scanner, s'.jobs[scanner])
  {
    match job
    case Recording(task, phase) => FaithfulRecording(cfg, s, scanner, task, phase);
    case Detecting(recorded, device) => FaithfulDetecting(cfg, s, scanner, recorded, device);
    case _ =>
  }

  lemma PairedStored(s: State, scanner: Scanner, task: Task, e: Event)
    requires Paired(s.trace) && Faithful(scanner, Recording(task, Append(e)))
    ensures Paired(Finished(Stored(s, e), scanner, task, true).trace)
  {
    FinishedFrame(Stored(s, e), scanner, task, true);
    var before, after := s.trace, s.trace + [Recorded(e)] + Announced(scanner, task);
    assert forall k :: 0 <= k < |before| ==> after[k] == before[k];
    if |after| > |before| + 1 {
      assert after[|before|] == Recorded(e) && after[|before| + 1] == Announced(scanner, task)[0];
    }
  }

  lemma PairedAdvance(cfg: Config, s: State, scanner: Scanner, job: Job)
    requires Paired(s.trace) && Faithful(scanner, job)
    ensures Paired(AdvanceJob(cfg, s, scanner, job).trace)
  {
    if job.Recording? {
      PairedRecording(cfg, s, scanner, job.task, job.phase);
    } else {
      LogOnlyInRecording(cfg, s, scanner, job);
    }
  }

  lemma PairedRecording(cfg: Config, s: State, scanner: Scanner, task: Task, phase: Phase)
    requires Paired(s.trace) && Faithful(scanner, Recording(task, phase))
    ensures Paired(AdvanceRecording(cfg, s, scanner, task, phase).trace)
  {
    match phase
    case Append(e) => PairedStored(s, scanner, task, e);
    case Check(_, _) => FinishedFrame(s, scanner, task, false);
    case _ =>
  }

  lemma PairedStep(cfg: Config, s: State, step: Step)
    requires PairedInvariant(s) && Enabled(cfg, s, step)
    ensures PairedInvariant(Next(cfg, s, step))
  {
    match step
    case Advance(scanner) =>
      var job := s.jobs[scanner];
      assert Faithful(scanner, job);
      AdvanceFrame(cfg, s, scanner, job);
      FaithfulAdvance(cfg, s, scanner, job);
      PairedAdvance(cfg, s, scanner, job);
    case _ =>
  }

  lemma {:induction false} PairedRun(cfg: Config, s: State, steps: seq<Step>)
    requires PairedInvariant(s) && Runs(cfg, s, steps)
    ensures PairedInvariant(Run(cfg, s, steps))
    decreases |steps|
  {
    if steps != [] {
      PairedStep(cfg, s, steps[0]);
      PairedRun(cfg, Next(cfg, s, steps[0]), steps[1..]);
    }
  }

  // Main result: in any run every returned change directly follows the recording of its event.
  // Suppressing an event therefore suppresses its notification.
  lemma ChangesFollowEvents(cfg: Config, s: State, steps: seq<Step>)
    requires AtRest(s) && Runs(cfg, s, steps)
    ensures Paired(Run(cfg, s, steps).trace)
  {
    PairedRun(cfg, s, steps);
  }
}
