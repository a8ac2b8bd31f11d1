// One recording call is a run of the ledger in which only that scanner moves, and what any number
// of such calls leave in a row has a closed form.

module Solo {
  import opened Options
  import opened Devices
  import opened Events
  import opened Ledger
  import opened Pipeline

  function Answers(trace: seq<Output>): seq<Change> {
    if trace == [] then []
    else
      var past := Answers(trace[..|trace| - 1]);
      match trace[|trace| - 1]
      case Returned(_, change) => past + [change]
      case _ => past
  }

  function Moves(scanner: Scanner, n: nat): (steps: seq<Step>)
    ensures |steps| == n
  {
    if n == 0 then [] else [Advance(scanner)] + Moves(scanner, n - 1)
  }

  // After `n` moves of the scanner alone, `t` is reached.
  ghost predicate Reaches(cfg: Config, s: State, scanner: Scanner, n: nat, t: State) {
    Runs(cfg, s, Moves(scanner, n)) && Run(cfg, s, Moves(scanner, n)) == t
  }

  lemma ReachOne(cfg: Config, s: State, scanner: Scanner, t: State, n: nat, end: State)
    requires scanner in s.jobs && t == AdvanceJob(cfg, s, scanner, s.jobs[scanner]) && Reaches(cfg, t, scanner, n, end)
    ensures Reaches(cfg, s, scanner, n + 1, end)
  {
    assert Moves(scanner, n + 1)[1..] == Moves(scanner, n);
    assert Next(cfg, s, Advance(scanner)) == t;
  }

  // The state once one event has been dealt with.
  function Dealt(cfg: Config, s: State, scanner: Scanner, task: Task): State {
    var e := MakeEvent(task.device, TaskEventType(task), scanner, s.now, s.now);
    Finished(if Suppressed(cfg, s.db.log, e) then s else Stored(s, e), scanner, task, !Suppressed(cfg, s.db.log, e))
  }

  lemma Overridden(jobs: map<Scanner, Job>, scanner: Scanner, old': Job, job: Job)
    ensures jobs[scanner := old'][scanner := job] == jobs[scanner := job]
    ensures jobs[scanner := old'] - {scanner} == jobs - {scanner}
  {
  }

  lemma FinishedIgnoresJob(s: State, scanner: Scanner, job: Job, task: Task, accepted: bool)
    ensures Finished(WithJob(s, scanner, job), scanner, task, accepted) == Finished(s, scanner, task, accepted)
  {
    match task
    case FirstSeen(_) => Overridden(s.jobs, scanner, job, job);
    case Heartbeat(recorded, device) => Overridden(s.jobs, scanner, job, Detecting(recorded, device));
    case Report(_, device, rest) =>
      Overridden(s.jobs, scanner, job, if rest == [] then job else Recording(Report(rest[0], device, rest[1..]), Stamp));
  }

  lemma ReachCheck(cfg: Config, s: State, scanner: Scanner, task: Task, n: nat, end: State)
    requires scanner in s.jobs && s.jobs[scanner] == Recording(task, Stamp)
    requires Reaches(cfg, WithJob(s, scanner, Recording(task, Check(s.now, s.now))), scanner, n, end)
    ensures Reaches(cfg, s, scanner, n + 2, end)
  {
    var window, check := Recording(task, Window(s.now)), Recording(task, Check(s.now, s.now));
    var s1 := WithJob(s, scanner, window);
    Overridden(s.jobs, scanner, window, check);
    ReachOne(cfg, s1, scanner, WithJob(s, scanner, check), n, end);
    ReachOne(cfg, s, scanner, s1, n + 1, end);
  }

  lemma ReachAppended(cfg: Config, s: State, scanner: Scanner, task: Task, e: Event, n: nat, end: State)
    requires Reaches(cfg, Finished(Stored(s, e), scanner, task, true), scanner, n, end)
    ensures Reaches(cfg, WithJob(s, scanner, Recording(task, Append(e))), scanner, n + 1, end)
  {
    var append := Recording(task, Append(e));
    FinishedIgnoresJob(Stored(s, e), scanner, append, task, true);
    assert Stored(WithJob(s, scanner, append), e) == WithJob(Stored(s, e), scanner, append);
    ReachOne(cfg, WithJob(s, scanner, append), scanner, Finished(Stored(s, e), scanner, task, true), n, end);
  }

  lemma ReachDealt(cfg: Config, s: State, scanner: Scanner, task: Task, n: nat, end: State) returns (m: nat)
    requires scanner in s.jobs && s.jobs[scanner] == Recording(task, Stamp)
    requires Reaches(cfg, Dealt(cfg, s, scanner, task), scanner, n, end)
    ensures Reaches(cfg, s, scanner, m, end)
  {
    var e := MakeEvent(task.device, TaskEventType(task), scanner, s.now, s.now);
    var check, append := Recording(task, Check(s.now, s.now)), Recording(task, Append(e));
    m := n;
    if Suppressed(cfg, s.db.log, e) {
      FinishedIgnoresJob(s, scanner, check, task, false);
      ReachOne(cfg, WithJob(s, scanner, check), scanner, Dealt(cfg, s, scanner, task), m, end);
    } else {
      ReachAppended(cfg, s, scanner, task, e, m, end);
      m := m + 1;
      Overridden(s.jobs, scanner, check, append);
      ReachOne(cfg, WithJob(s, scanner, check), scanner, WithJob(s, scanner, append), m, end);
    }
    ReachCheck(cfg, s, scanner, task, m + 1, end);
    m := m + 3;
  }

  // What a scanner with nothing in progress and the given outcome looks like.
  ghost predicate Settled(s: State, end: State, scanner: Scanner, outcome: Outcome) {
    && end.now == s.now && end.requests == s.requests && end.db == outcome.db
    && end.jobs == s.jobs - {scanner}
    && Answers(end.trace) == Answers(s.trace) + outcome.changes
  }

  lemma AnswersAppend(trace: seq<Output>, o: Output)
    ensures Answers(trace + [o]) == if o.Returned? then Answers(trace) + [o.change] else Answers(trace)
  {
    assert (trace + [o])[..|trace|] == trace;
  }

  lemma AnswersAnnounced(trace: seq<Output>, e: Event, scanner: Scanner, task: Task)
    ensures Answers(trace + [Recorded(e)] + Announced(scanner, task)) == Answers(trace) + Shown(task)
  {
    AnswersAppend(trace, Recorded(e));
    var recorded := trace + [Recorded(e)];
    if task.Heartbeat? {
      assert recorded + [] == recorded && Answers(trace) + [] == Answers(trace);
    } else {
      AnswersAppend(recorded, Announced(scanner, task)[0]);
    }
  }

  function Shown(task: Task): seq<Change> {
    match task
    case FirstSeen(device) => [New(device)]
    case Heartbeat(_, _) => []
    case Report(change, _, _) => [change]
  }

  lemma FramedJobs(s: State, t: State, scanner: Scanner)
    requires Framed(s, t, scanner)
    ensures t.jobs - {scanner} == s.jobs - {scanner}
  {
  }

  // Dealing with one event, in terms of the tables and the answers.
  lemma DealtEffect(cfg: Config, s: State, scanner: Scanner, task: Task)
    ensures var e := MakeEvent(task.device, TaskEventType(task), scanner, s.now, s.now);
      var t := Dealt(cfg, s, scanner, task);
      && t.now == s.now && t.requests == s.requests && t.db == Logged(cfg, s.db, e)
      && Answers(t.trace) == Answers(s.trace) + (if Suppressed(cfg, s.db.log, e) then [] else Shown(task))
      && t.jobs - {scanner} == s.jobs - {scanner}
  {
    var e := MakeEvent(task.device, TaskEventType(task), scanner, s.now, s.now);
    var t := Dealt(cfg, s, scanner, task);
    if Suppressed(cfg, s.db.log, e) {
      FinishedFrame(s, scanner, task, false);
      FramedJobs(s, t, scanner);
    } else {
      FinishedFrame(Stored(s, e), scanner, task, true);
      FramedJobs(Stored(s, e), t, scanner);
      AnswersAnnounced(s.trace, e, scanner, task);
    }
  }

  // One report of a list has been dealt with: the scanner is at the next one.
  lemma DealtReport(cfg: Config, s: State, scanner: Scanner, device: Device, changes: seq<Change>) returns (next: State)
    requires changes != []
    ensures var e := MakeEvent(device, EventTypeFor(changes[0]), scanner, s.now, s.now);
      var task := Report(changes[0], device, changes[1..]);
      && Dealt(cfg, NextReport(s, scanner, device, changes), scanner, task)
         == NextReport(next, scanner, device, changes[1..])
      && next.now == s.now && next.requests == s.requests && next.db == Logged(cfg, s.db, e)
      && Answers(next.trace) == Answers(s.trace) + (if Suppressed(cfg, s.db.log, e) then [] else [changes[0]])
      && next.jobs - {scanner} == s.jobs - {scanner}
  {
    var task := Report(changes[0], device, changes[1..]);
    var e := MakeEvent(device, TaskEventType(task), scanner, s.now, s.now);
    var t := NextReport(s, scanner, device, changes);
    next := t;
    if !Suppressed(cfg, s.db.log, e) {
      next := Stored(t, e);
      next := next.(trace := next.trace + [Returned(scanner, changes[0])]);
      AnswersAnnounced(s.trace, e, scanner, task);
    }
    FramedJobs(s, next.(trace := s.trace), scanner);
  }

  lemma SettledLater(cfg: Config, s: State, next: State, end: State, scanner: Scanner, device: Device, changes: seq<Change>)
    requires changes != []
    requires var e := MakeEvent(device, EventTypeFor(changes[0]), scanner, s.now, s.now);
      && next.now == s.now && next.requests == s.requests && next.db == Logged(cfg, s.db, e)
      && Answers(next.trace) == Answers(s.trace) + (if Suppressed(cfg, s.db.log, e) then [] else [changes[0]])
      && next.jobs - {scanner} == s.jobs - {scanner}
    requires Settled(next, end, scanner, Accept(cfg, next.db, device, scanner, s.now, changes[1..]))
    ensures Settled(s, end, scanner, Accept(cfg, s.db, device, scanner, s.now, changes))
  {
    var e := MakeEvent(device, EventTypeFor(changes[0]), scanner, s.now, s.now);
    var mine := if Suppressed(cfg, s.db.log, e) then [] else [changes[0]];
    AcceptFirst(cfg, s.db, device, scanner, s.now, changes);
    SettledAfter(s, next, end, scanner, mine, Accept(cfg, next.db, device, scanner, s.now, changes[1..]));
  }

  lemma SettledAfter(s: State, next: State, end: State, scanner: Scanner, mine: seq<Change>, rest: Outcome)
    requires next.now == s.now && next.requests == s.requests && next.jobs - {scanner} == s.jobs - {scanner}
    requires Answers(next.trace) == Answers(s.trace) + mine && Settled(next, end, scanner, rest)
    ensures Settled(s, end, scanner, Outcome(rest.db, mine + rest.changes))
  {
    assert Answers(s.trace) + mine + rest.changes == Answers(s.trace) + (mine + rest.changes);
  }

  lemma {:induction false} ReachReports(cfg: Config, s: State, scanner: Scanner, device: Device, changes: seq<Change>)
    returns (n: nat, end: State)
    ensures Reaches(cfg, NextReport(s, scanner, device, changes), scanner, n, end)
    ensures Settled(s, end, scanner, Accept(cfg, s.db, device, scanner, s.now, changes))
    decreases |changes|
  {
    var t := NextReport(s, scanner, device, changes);
    if changes == [] {
      n, end := 0, t;
      assert Answers(s.trace) + [] == Answers(s.trace);
    } else {
      var next := DealtReport(cfg, s, scanner, device, changes);
      n, end := ReachReports(cfg, next, scanner, device, changes[1..]);
      SettledLater(cfg, s, next, end, scanner, device, changes);
      n := ReachDealt(cfg, t, scanner, Report(changes[0], device, changes[1..]), n, end);
    }
  }

  lemma ReachNew(cfg: Config, s: State, scanner: Scanner, device: Device) returns (n: nat, end: State)
    requires scanner in s.jobs && s.jobs[scanner] == Recording(FirstSeen(device), Stamp)
    ensures Reaches(cfg, s, scanner, n, end)
    ensures Settled(s, end, scanner, RecordNew(cfg, s.db, device, scanner, s.now))
  {
    var task := FirstSeen(device);
    end := Dealt(cfg, s, scanner, task);
    DealtEffect(cfg, s, scanner, task);
    n := ReachDealt(cfg, s, scanner, task, 0, end);
  }

  lemma ReachKnown(cfg: Config, s: State, scanner: Scanner, existing: Device, device: Device) returns (n: nat, end: State)
    requires scanner in s.jobs && s.jobs[scanner] == Recording(Heartbeat(existing, device), Stamp)
    ensures Reaches(cfg, s, scanner, n, end)
    ensures Settled(s, end, scanner, RecordKnown(cfg, s.db, existing, device, scanner, s.now))
  {
    var task := Heartbeat(existing, device);
    var t := Dealt(cfg, s, scanner, task);
    DealtEffect(cfg, s, scanner, task);
    assert t.jobs[scanner] == Detecting(existing, device);
    n, end := ReachDetected(cfg, t, scanner, existing, device);
    n := ReachDealt(cfg, s, scanner, task, n, end);
  }

  lemma ReachDetected(cfg: Config, s: State, scanner: Scanner, existing: Device, device: Device) returns (n: nat, end: State)
    requires scanner in s.jobs && s.jobs[scanner] == Detecting(existing, device)
    ensures Reaches(cfg, s, scanner, n, end)
    ensures Settled(s, end, scanner, Accept(cfg, s.db, device, scanner, s.now, Detect(cfg, existing, device, s.now)))
  {
    var changes := Detect(cfg, existing, device, s.now);
    n, end := ReachReports(cfg, s, scanner, device, changes);
    ReachOne(cfg, s, scanner, NextReport(s, scanner, device, changes), n, end);
    n := n + 1;
  }

  // Main result: a sighting whose statements nothing separates ends with the scanner idle, the
  // tables and the returned changes exactly as the recording code computes them.
  lemma SightingIsSoloRun(cfg: Config, s: State, scanner: Scanner, sighting: Sighting) returns (n: nat, end: State)
    requires scanner !in s.jobs
    ensures Reaches(cfg, Next(cfg, s, Begin(scanner, sighting)), scanner, n, end)
    ensures Settled(s, end, scanner, SightingOutcome(cfg, s.db, Build(cfg.types, sighting, s.now), scanner, s.now))
  {
    var device := Build(cfg.types, sighting, s.now);
    var m := NormalizeMac(device.mac);
    var s1 := Next(cfg, s, Begin(scanner, sighting));
    var s2 := AdvanceJob(cfg, s1, scanner, s1.jobs[scanner]);
    var s3 := AdvanceJob(cfg, s2, scanner, s2.jobs[scanner]);
    assert s3.jobs - {scanner} == s.jobs - {scanner};
    if m in s.db.rows {
      n, end := ReachKnown(cfg, s3, scanner, s.db.rows[m], Reconcile(s.db.rows[m], device));
    } else {
      AnswersAppend(s.trace, Inserted(m));
      n, end := ReachNew(cfg, s3, scanner, device);
    }
    ReachOne(cfg, s2, scanner, s3, n, end);
    ReachOne(cfg, s1, scanner, s2, n + 1, end);
    n := n + 2;
  }

  // ---- What a history of sightings leaves ----

  datatype Visit = Visit(scanner: Scanner, sighting: Sighting, now: int)

  function RowOf(db: Db, mac: string): Option<Device> {
    if mac in db.rows then Some(db.rows[mac]) else None
  }

  lemma {:induction false} AcceptKeepsRows(cfg: Config, db: Db, device: Device, scanner: Scanner, now: int, changes: seq<Change>)
    ensures Accept(cfg, db, device, scanner, now, changes).db.rows == db.rows
    decreases |changes|
  {
    if changes != [] {
      var e := MakeEvent(device, EventTypeFor(changes[0]), scanner, now, now);
      AcceptKeepsRows(cfg, Logged(cfg, db, e), device, scanner, now, changes[1..]);
    }
  }

  // Dealing with changes keeps the events on record and adds only events of the device and moment.
  lemma {:induction false} AcceptLog(cfg: Config, db: Db, device: Device, scanner: Scanner, now: int, changes: seq<Change>)
    ensures var log := Accept(cfg, db, device, scanner, now, changes).db.log;
      && (forall x :: x in db.log ==> x in log)
      && forall x :: x in log ==> x in db.log || (x.mac == NormalizeMac(device.mac) && x.createdOn == now)
    decreases |changes|
  {
    if changes != [] {
      var e := MakeEvent(device, EventTypeFor(changes[0]), scanner, now, now);
      AcceptFirst(cfg, db, device, scanner, now, changes);
      AcceptLog(cfg, Logged(cfg, db, e), device, scanner, now, changes[1..]);
    }
  }

  // A recording call changes one row, by one sighting.
  lemma OutcomeRows(cfg: Config, db: Db, v: Visit)
    ensures var m := NormalizeMac(v.sighting.mac);
      SightingOutcome(cfg, db, Build(cfg.types, v.sighting, v.now), v.scanner, v.now).db.rows
      == db.rows[m := Sighted(cfg.types, RowOf(db, m), v.sighting, v.now)]
  {
    var m := NormalizeMac(v.sighting.mac);
    var device := Build(cfg.types, v.sighting, v.now);
    if m in db.rows {
      var reconciled := Reconcile(db.rows[m], device);
      var heard := Logged(cfg, Seen(db, reconciled, v.now), MakeEvent(reconciled, DeviceSeen, v.scanner, v.now, v.now));
      AcceptKeepsRows(cfg, heard, reconciled, v.scanner, v.now, Detect(cfg, db.rows[m], reconciled, v.now));
    }
  }

  function RecordAll(cfg: Config, db: Db, visits: seq<Visit>): Db {
    if visits == [] then db
    else
      var past, v := RecordAll(cfg, db, visits[..|visits| - 1]), visits[|visits| - 1];
      SightingOutcome(cfg, past, Build(cfg.types, v.sighting, v.now), v.scanner, v.now).db
  }

  function FirstText(texts: seq<string>): string {
    if texts == [] then "" else if texts[0] != "" then texts[0] else FirstText(texts[1..])
  }

  function LastText(texts: seq<string>): string {
    if texts == [] then "" else if texts[|texts| - 1] != "" then texts[|texts| - 1] else LastText(texts[..|texts| - 1])
  }

  function FirstName(names: seq<Option<string>>): Option<string> {
    if names == [] then None else if names[0].Some? then names[0] else FirstName(names[1..])
  }

  lemma {:induction false} FirstTextAppend(texts: seq<string>, t: string)
    ensures FirstText(texts + [t]) == if FirstText(texts) != "" then FirstText(texts) else t
  {
    if texts != [] {
      assert (texts + [t])[1..] == texts[1..] + [t];
      FirstTextAppend(texts[1..], t);
    }
  }

  lemma {:induction false} FirstNameAppend(names: seq<Option<string>>, n: Option<string>)
    ensures FirstName(names + [n]) == if FirstName(names).Some? then FirstName(names) else n
  {
    if names != [] {
      assert (names + [n])[1..] == names[1..] + [n];
      FirstNameAppend(names[1..], n);
    }
  }

  // The values the row held before, if there was one, followed by those the sightings of the
  // device brought.

  function Names(start: Option<Device>, visits: seq<Visit>): seq<Option<string>> {
    if visits == [] then (if start.Some? then [start.value.name] else [])
    else Names(start, visits[..|visits| - 1]) + [visits[|visits| - 1].sighting.name]
  }

  function Addresses(start: Option<Device>, visits: seq<Visit>): seq<string> {
    if visits == [] then (if start.Some? then [start.value.ipv4] else [])
    else Addresses(start, visits[..|visits| - 1]) + [visits[|visits| - 1].sighting.ipv4]
  }

  function Vendors(start: Option<Device>, visits: seq<Visit>): seq<string> {
    if visits == [] then (if start.Some? then [start.value.vendor] else [])
    else Vendors(start, visits[..|visits| - 1]) + [visits[|visits| - 1].sighting.vendor]
  }

  function Types(types: VendorTypes, start: Option<Device>, visits: seq<Visit>): seq<string> {
    if visits == [] then (if start.Some? then [start.value.deviceType] else [])
    else Types(types, start, visits[..|visits| - 1]) + [DeviceTypeOf(types, visits[|visits| - 1].sighting.vendor)]
  }

  lemma LastTextAppend(texts: seq<string>, t: string)
    ensures LastText(texts + [t]) == if t != "" then t else LastText(texts)
  {
    assert (texts + [t])[..|texts|] == texts;
  }

  // The first name ever present, the last non-empty address and vendor, the first non-empty device
  // type, the last sighting's time, and the registration the row had.
  predicate Closed(types: VendorTypes, start: Option<Device>, visits: seq<Visit>, row: Device)
    requires visits != []
  {
    && row.name == FirstName(Names(start, visits))
    && row.ipv4 == LastText(Addresses(start, visits))
    && row.vendor == LastText(Vendors(start, visits))
    && row.deviceType == FirstText(Types(types, start, visits))
    && row.lastSeen == visits[|visits| - 1].now
    && row.isRegistered == (start.Some? && start.value.isRegistered)
    && row.owner == (if start.Some? then start.value.owner else "")
  }

  lemma ClosedStep(types: VendorTypes, start: Option<Device>, visits: seq<Visit>, past: Option<Device>)
    requires DeviceTypeOf(types, "") == "" && visits != []
    requires var init := visits[..|visits| - 1];
      if init == [] then past == start else past.Some? && Closed(types, start, init, past.value)
    ensures var v := visits[|visits| - 1];
      Closed(types, start, visits, Sighted(types, past, v.sighting, v.now))
  {
    var init, v := visits[..|visits| - 1], visits[|visits| - 1];
    FirstNameAppend(Names(start, init), v.sighting.name);
    FirstTextAppend(Types(types, start, init), DeviceTypeOf(types, v.sighting.vendor));
    LastTextAppend(Addresses(start, init), v.sighting.ipv4);
    LastTextAppend(Vendors(start, init), v.sighting.vendor);
    SightedFields(types, past, v.sighting, v.now);
    if init == [] {
      ClosedStart(types, start);
    }
  }

  // What the values seen so far come to before any sighting.
  lemma ClosedStart(types: VendorTypes, start: Option<Device>)
    ensures FirstName(Names(start, [])) == (if start.Some? then start.value.name else None)
    ensures LastText(Addresses(start, [])) == (if start.Some? then start.value.ipv4 else "")
    ensures LastText(Vendors(start, [])) == (if start.Some? then start.value.vendor else "")
    ensures FirstText(Types(types, start, [])) == (if start.Some? then start.value.deviceType else "")
  {
  }

  lemma SightedFields(types: VendorTypes, past: Option<Device>, s: Sighting, now: int)
    requires DeviceTypeOf(types, "") == ""
    ensures var row := Sighted(types, past, s, now);
      && row.name == (if past.Some? && past.value.name.Some? then past.value.name else s.name)
      && row.ipv4 == (if s.ipv4 == "" && past.Some? then past.value.ipv4 else s.ipv4)
      && row.vendor == (if s.vendor == "" && past.Some? then past.value.vendor else s.vendor)
      && row.deviceType ==
           (if past.Some? && past.value.deviceType != "" then past.value.deviceType else DeviceTypeOf(types, s.vendor))
      && row.lastSeen == now
      && row.isRegistered == (past.Some? && past.value.isRegistered)
      && row.owner == (if past.Some? then past.value.owner else "")
  {
  }

  // The sightings of one device, in any letter case.
  function Of(visits: seq<Visit>, mac: string): seq<Visit> {
    if visits == [] then []
    else
      var past, v := Of(visits[..|visits| - 1], mac), visits[|visits| - 1];
      if NormalizeMac(v.sighting.mac) == mac then past + [v] else past
  }

  lemma RecordAllStep(cfg: Config, db: Db, visits: seq<Visit>, mac: string)
    requires visits != []
    ensures var past, v := RecordAll(cfg, db, visits[..|visits| - 1]), visits[|visits| - 1];
      RowOf(RecordAll(cfg, db, visits), mac) ==
        if NormalizeMac(v.sighting.mac) == mac then Some(Sighted(cfg.types, RowOf(past, mac), v.sighting, v.now))
        else RowOf(past, mac)
  {
    OutcomeRows(cfg, RecordAll(cfg, db, visits[..|visits| - 1]), visits[|visits| - 1]);
  }

  // Main result: after any history of sightings of any devices, by any scanners, in any letter case,
  // starting from any tables, a device that was sighted has the closed form of its own sightings,
  // and one that was not has the row it had, if any.
  lemma {:induction false} HistoryClosedForm(cfg: Config, db: Db, visits: seq<Visit>, mac: string)
    requires DeviceTypeOf(cfg.types, "") == ""
    ensures var own, row := Of(visits, mac), RowOf(RecordAll(cfg, db, visits), mac);
      if own == [] then row == RowOf(db, mac)
      else row.Some? && Closed(cfg.types, RowOf(db, mac), own, row.value)
  {
    if visits != [] {
      var init, v := visits[..|visits| - 1], visits[|visits| - 1];
      HistoryClosedForm(cfg, db, init, mac);
      RecordAllStep(cfg, db, visits, mac);
      if NormalizeMac(v.sighting.mac) == mac {
        var own := Of(init, mac) + [v];
        assert own[..|own| - 1] == Of(init, mac);
        ClosedStep(cfg.types, RowOf(db, mac), own, RowOf(RecordAll(cfg, db, init), mac));
      }
    }
  }
}
