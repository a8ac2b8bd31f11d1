// The recorded history: what the outputs of a run tell about its events, purged ones included, and
// how far apart recorded events and returned changes lie.

module LedgerHistory {
  import opened Devices
  import opened Events
  import opened Ledger
  import opened LedgerChanges
  import opened LedgerPurge
  import opened LedgerSafety

  // ---- The recorded history ----

  function Remembered(past: seq<Event>, o: Output): seq<Event> {
    match o
    case Recorded(e) => past + [e]
    case Written(w, _) => if w.Delete? then Without(past, NormalizeMac(w.mac)) else past
    case _ => past
  }

  // The event log as the outputs tell it: every recorded event, less those of deleted devices.
  function History(start: seq<Event>, trace: seq<Output>): seq<Event> {
    if trace == [] then start
    else Remembered(History(start, trace[..|trace| - 1]), trace[|trace| - 1])
  }

  lemma HistoryAppend(start: seq<Event>, trace: seq<Output>, o: Output)
    ensures History(start, trace + [o]) == Remembered(History(start, trace), o)
  {
    assert (trace + [o])[..|trace|] == trace;
  }

  lemma HistoryStored(start: seq<Event>, s: State, scanner: Scanner, task: Task, e: Event)
    requires s.db.log == History(start, s.trace)
    ensures var s' := Finished(Stored(s, e), scanner, task, true);
      s'.db.log == History(start, s'.trace)
  {
    var stored := Stored(s, e);
    HistoryAppend(start, s.trace, Recorded(e));
    FinishedFrame(stored, scanner, task, true);
    HistoryAnnounced(start, stored.trace, scanner, task);
  }

  lemma HistoryAnnounced(start: seq<Event>, trace: seq<Output>, scanner: Scanner, task: Task)
    ensures History(start, trace + Announced(scanner, task)) == History(start, trace)
  {
    hide History;
    match task
    case Heartbeat(_, _) => assert trace + [] == trace;
    case FirstSeen(device) => HistoryAppend(start, trace, Returned(scanner, New(device)));
    case Report(change, _, _) => HistoryAppend(start, trace, Returned(scanner, change));
  }

  lemma HistoryRecording(cfg: Config, start: seq<Event>, s: State, scanner: Scanner, task: Task, phase: Phase)
    requires s.db.log == History(start, s.trace)
    ensures var s' := AdvanceRecording(cfg, s, scanner, task, phase); s'.db.log == History(start, s'.trace)
  {
    match phase
    case Append(e) => HistoryStored(start, s, scanner, task, e);
    case Check(_, _) => FinishedFrame(s, scanner, task, false);
    case _ =>
  }

  lemma HistoryAdvance(cfg: Config, start: seq<Event>, s: State, scanner: Scanner, job: Job)
    requires s.db.log == History(start, s.trace)
    ensures var s' := AdvanceJob(cfg, s, scanner, job); s'.db.log == History(start, s'.trace)
  {
    if job.Recording? {
      HistoryRecording(cfg, start, s, scanner, job.task, job.phase);
    } else {
      LogOnlyInRecording(cfg, s, scanner, job);
      if job.Inserting? {
        HistoryAppend(start, s.trace, Inserted(NormalizeMac(job.device.mac)));
      }
    }
  }

  lemma HistoryStep(cfg: Config, start: seq<Event>, s: State, step: Step)
    requires s.db.log == History(start, s.trace) && Enabled(cfg, s, step) && !step.Sweep?
    ensures var s' := Next(cfg, s, step); s'.db.log == History(start, s'.trace)
  {
    match step
    case Advance(scanner) => HistoryAdvance(cfg, start, s, scanner, s.jobs[scanner]);
    case Commit(id) => HistoryCommit(cfg, start, s, id);
    case _ =>
  }

  lemma HistoryCommit(cfg: Config, start: seq<Event>, s: State, id: nat)
    requires s.db.log == History(start, s.trace) && id in s.requests
    ensures var s' := Next(cfg, s, Commit(id)); s'.db.log == History(start, s'.trace)
  {
    var w := s.requests[id];
    HistoryAppend(start, s.trace, Written(w, NormalizeMac(w.mac) in s.db.rows));
  }

  lemma {:induction false} HistoryRun(cfg: Config, start: seq<Event>, s: State, steps: seq<Step>)
    requires s.db.log == History(start, s.trace) && Runs(cfg, s, steps)
    requires forall step :: step in steps ==> !step.Sweep?
    ensures var end := Run(cfg, s, steps); end.db.log == History(start, end.trace)
    decreases |steps|
  {
    if steps != [] {
      HistoryStep(cfg, start, s, steps[0]);
      HistoryRun(cfg, start, Next(cfg, s, steps[0]), steps[1..]);
    }
  }

  // Deduplication over the whole history, purged events included: two recorded events of one key
  // are more than the window apart (less the later one's lag) unless the device was deleted in
  // between.
  lemma RecordedEventsApart(cfg: Config, s: State, steps: seq<Step>, i: nat, j: nat)
    requires Started(cfg, s) && cfg.retention >= cfg.dedup && Scheduled(cfg, s, steps, Sparing(cfg))
    requires Runs(cfg, s, steps)
    requires var past := History(s.db.log, Run(cfg, s, steps).trace); i < j < |past| && SameKey(past[i], past[j])
    ensures var past := History(s.db.log, Run(cfg, s, steps).trace);
      past[j].createdOn - past[i].createdOn > cfg.dedup - (past[j].checkedAt - past[j].createdOn)
  {
    var kept := WithoutSweeps(steps);
    PurgeInvisible(cfg, s, steps);
    HistoryRun(cfg, s.db.log, s, kept);
    StoredEventsApart(cfg, s, kept, i, j);
  }

  // ---- Spacing of outputs ----

  // Every event was recorded clear of all that history remembered of its key.
  ghost predicate TraceSpaced(window: nat, start: seq<Event>, trace: seq<Output>) {
    forall k :: 0 <= k < |trace| && trace[k].Recorded? ==> RecordedClear(window, start, trace[..k], trace[k].event)
  }

  ghost predicate RecordedClear(window: nat, start: seq<Event>, past: seq<Output>, e: Event) {
    forall x :: x in History(start, past) ==> Apart(window, x, e)
  }

  lemma TraceSpacedAppend(window: nat, start: seq<Event>, trace: seq<Output>, o: Output)
    requires TraceSpaced(window, start, trace)
    requires o.Recorded? ==> RecordedClear(window, start, trace, o.event)
    ensures TraceSpaced(window, start, trace + [o])
  {
    forall k | 0 <= k <= |trace|
      ensures (trace + [o])[..k] == trace[..k]
    {
    }
    assert trace[..|trace|] == trace;
  }

  lemma TraceStored(cfg: Config, start: seq<Event>, s: State, scanner: Scanner, task: Task, e: Event)
    requires s.db.log == History(start, s.trace) && TraceSpaced(cfg.dedup, start, s.trace)
    requires JobSpaced(cfg.dedup, s, scanner, Recording(task, Append(e)))
    ensures TraceSpaced(cfg.dedup, start, Finished(Stored(s, e), scanner, task, true).trace)
  {
    FinishedFrame(Stored(s, e), scanner, task, true);
    TraceSpacedAppend(cfg.dedup, start, s.trace, Recorded(e));
    var recorded := s.trace + [Recorded(e)];
    if Announced(scanner, task) == [] {
      assert recorded + [] == recorded;
    } else {
      TraceSpacedAppend(cfg.dedup, start, recorded, Announced(scanner, task)[0]);
    }
  }

  lemma TraceAdvance(cfg: Config, start: seq<Event>, s: State, scanner: Scanner, job: Job)
    requires s.db.log == History(start, s.trace) && TraceSpaced(cfg.dedup, start, s.trace)
    requires JobSpaced(cfg.dedup, s, scanner, job)
    ensures TraceSpaced(cfg.dedup, start, AdvanceJob(cfg, s, scanner, job).trace)
  {
    if job.Recording? {
      TraceRecording(cfg, start, s, scanner, job.task, job.phase);
    } else {
      LogOnlyInRecording(cfg, s, scanner, job);
      if job.Inserting? {
        TraceSpacedAppend(cfg.dedup, start, s.trace, Inserted(NormalizeMac(job.device.mac)));
      }
    }
  }

  lemma TraceRecording(cfg: Config, start: seq<Event>, s: State, scanner: Scanner, task: Task, phase: Phase)
    requires s.db.log == History(start, s.trace) && TraceSpaced(cfg.dedup, start, s.trace)
    requires JobSpaced(cfg.dedup, s, scanner, Recording(task, phase))
    ensures TraceSpaced(cfg.dedup, start, AdvanceRecording(cfg, s, scanner, task, phase).trace)
  {
    match phase
    case Append(e) => TraceStored(cfg, start, s, scanner, task, e);
    case Check(_, _) => FinishedFrame(s, scanner, task, false);
    case _ =>
  }

  lemma TraceStep(cfg: Config, start: seq<Event>, s: State, step: Step)
    requires DedupInvariant(cfg, s) && s.db.log == History(start, s.trace) && TraceSpaced(cfg.dedup, start, s.trace)
    requires Enabled(cfg, s, step)
    ensures TraceSpaced(cfg.dedup, start, Next(cfg, s, step).trace)
  {
    match step
    case Advance(scanner) => TraceAdvance(cfg, start, s, scanner, s.jobs[scanner]);
    case Commit(id) =>
      var w := s.requests[id];
      TraceSpacedAppend(cfg.dedup, start, s.trace, Written(w, NormalizeMac(w.mac) in s.db.rows));
    case _ =>
  }

  lemma {:induction false} TraceRun(cfg: Config, start: seq<Event>, s: State, steps: seq<Step>)
    requires DedupInvariant(cfg, s) && s.db.log == History(start, s.trace) && TraceSpaced(cfg.dedup, start, s.trace)
    requires Runs(cfg, s, steps) && forall step :: step in steps ==> !step.Sweep?
    ensures TraceSpaced(cfg.dedup, start, Run(cfg, s, steps).trace)
    decreases |steps|
  {
    if steps != [] {
      TraceStep(cfg, start, s, steps[0]);
      HistoryStep(cfg, start, s, steps[0]);
      DedupStep(cfg, s, steps[0]);
      TraceRun(cfg, start, Next(cfg, s, steps[0]), steps[1..]);
    }
  }

  // The API deleted the device here.
  predicate Erases(o: Output, mac: string) {
    o.Written? && o.write.Delete? && NormalizeMac(o.write.mac) == mac
  }

  ghost predicate Unerased(trace: seq<Output>, i: nat, j: nat, mac: string) {
    forall k :: i < k < j && k < |trace| ==> !Erases(trace[k], mac)
  }

  lemma {:induction false} Remains(start: seq<Event>, trace: seq<Output>, i: nat, j: nat)
    requires i < j <= |trace| && trace[i].Recorded? && Unerased(trace, i, j, trace[i].event.mac)
    ensures trace[i].event in History(start, trace[..j])
    decreases j
  {
    var e, past := trace[i].event, trace[..j - 1];
    assert trace[..j] == past + [trace[j - 1]];
    HistoryAppend(start, past, trace[j - 1]);
    if i < j - 1 {
      Remains(start, trace, i, j - 1);
      if trace[j - 1].Written? {
        WithoutHas(History(start, past), NormalizeMac(trace[j - 1].write.mac), e);
      }
    }
  }

  predicate SameReturn(a: Output, b: Output) {
    && a.Returned? && b.Returned? && a.scanner == b.scanner
    && EventTypeFor(a.change) == EventTypeFor(b.change)
    && NormalizeMac(a.change.device.mac) == NormalizeMac(b.change.device.mac)
  }

  // Main result: the window gates notifications. Over any run, purges included, two changes of one
  // device and type returned for one scanner have their events more than the window apart (less the
  // later one's lag) unless the device was deleted in between.
  lemma ReturnedChangesApart(cfg: Config, s: State, steps: seq<Step>, i: nat, j: nat)
    requires Started(cfg, s) && cfg.retention >= cfg.dedup && Scheduled(cfg, s, steps, Sparing(cfg))
    requires Runs(cfg, s, steps)
    requires var trace := Run(cfg, s, steps).trace;
      && i < j < |trace| && SameReturn(trace[i], trace[j])
      && Unerased(trace, i, j, NormalizeMac(trace[i].change.device.mac))
    ensures var trace := Run(cfg, s, steps).trace;
      && i > 0 && trace[i - 1].Recorded? && EventOf(trace[i - 1].event, trace[i].scanner, trace[i].change)
      && trace[j - 1].Recorded? && EventOf(trace[j - 1].event, trace[j].scanner, trace[j].change)
      && var earlier, later := trace[i - 1].event, trace[j - 1].event;
         later.createdOn - earlier.createdOn > cfg.dedup - (later.checkedAt - later.createdOn)
  {
    var trace := Run(cfg, s, steps).trace;
    ChangesFollowEvents(cfg, s, steps);
    PurgeInvisible(cfg, s, steps);
    TraceRun(cfg, s.db.log, s, WithoutSweeps(steps));
    Remains(s.db.log, trace, i - 1, j - 1);
    assert RecordedClear(cfg.dedup, s.db.log, trace[..j - 1], trace[j - 1].event);
  }

  // ---- The lag term is needed ----

  // The lag term of the spacing result is needed: for every lag within the window, a started
  // backend can store two heartbeats of one key only the window less the lag apart (plus the one
  // instant that separates the bound from the earlier event).
  lemma SpacingBoundTight(cfg: Config, sighting: Sighting, lag: nat)
    returns (steps: seq<Step>)
    requires lag <= cfg.dedup
    ensures var s := Heard(cfg, sighting, 1);
      && Started(cfg, s) && Runs(cfg, s, steps)
      && var log := Run(cfg, s, steps).db.log;
         && |log| == 2 && SameKey(log[0], log[1]) && log[1].checkedAt - log[1].createdOn == lag
         && log[1].createdOn - log[0].createdOn == cfg.dedup + 1 - lag
  {
    var s := Heard(cfg, sighting, 1);
    var go := Advance(Arp);
    var recorded := InsertedRow(Build(cfg.types, sighting, 0));
    var device := Reconcile(recorded, Build(cfg.types, sighting, 1));
    assert s.db.log[..0] == [];
    var s1, s2, s3 := HeardAgain(cfg, sighting, 1, recorded, device);
    steps := LateRecord(cfg, s3, recorded, device, lag);
    steps := Prepend(cfg, s2, go, steps);
    steps := Prepend(cfg, s1, go, steps);
    steps := Prepend(cfg, s, Begin(Arp, sighting), steps);
  }

  lemma LateRecord(cfg: Config, s: State, recorded: Device, device: Device, lag: nat) returns (steps: seq<Step>)
    requires s.jobs == map[Arp := Recording(Heartbeat(recorded, device), Stamp)] && s.now == 1 && lag <= cfg.dedup
    requires forall x :: x in s.db.log ==> x.createdOn <= 0
    ensures Runs(cfg, s, steps)
    ensures Run(cfg, s, steps).db.log == s.db.log + [MakeEvent(device, DeviceSeen, Arp, cfg.dedup + 1 - lag, cfg.dedup + 1)]
  {
    var go := Advance(Arp);
    var task := Heartbeat(recorded, device);
    var e := MakeEvent(device, DeviceSeen, Arp, cfg.dedup + 1 - lag, cfg.dedup + 1);
    var s4 := Next(cfg, s, Tick(cfg.dedup - lag));
    var s5 := Next(cfg, s4, go);
    var s6 := Next(cfg, s5, Tick(lag));
    var s7 := Next(cfg, s6, go);
    assert s7.jobs[Arp] == Recording(task, Check(cfg.dedup + 1 - lag, cfg.dedup + 1));
    var s8 := Next(cfg, s7, go);
    assert s8.jobs[Arp] == Recording(task, Append(e));
    var s9 := Next(cfg, s8, go);
    assert s9.db.log == s.db.log + [e];
    steps := Prepend(cfg, s8, go, []);
    steps := Prepend(cfg, s7, go, steps);
    steps := Prepend(cfg, s6, go, steps);
    steps := Prepend(cfg, s5, Tick(lag), steps);
    steps := Prepend(cfg, s4, go, steps);
    steps := Prepend(cfg, s, Tick(cfg.dedup - lag), steps);
  }
}
