// Changes of address: when a sighting returns one, and how deduplication can lose one.

module AddressChanges {
  import opened Options
  import opened Devices
  import opened Events
  import opened Ledger
  import opened Pipeline
  import opened Solo

  predicate IsMove(c: Change, mac: string) {
    c.Changed? && c.ipChanged && NormalizeMac(c.device.mac) == mac
  }

  function MoveCount(changes: seq<Change>, mac: string): nat {
    if changes == [] then 0
    else MoveCount(changes[..|changes| - 1], mac) + if IsMove(changes[|changes| - 1], mac) then 1 else 0
  }

  lemma {:induction false} MovesConcat(a: seq<Change>, b: seq<Change>, mac: string)
    ensures MoveCount(a + b, mac) == MoveCount(a, mac) + MoveCount(b, mac)
  {
    if b == [] {
      assert a + b == a;
    } else {
      MovesConcat(a, b[..|b| - 1], mac);
      assert (a + b)[..|a + b| - 1] == a + b[..|b| - 1];
    }
  }

  lemma MovesOne(c: Change, mac: string)
    ensures MoveCount([c], mac) == if IsMove(c, mac) then 1 else 0
  {
    assert [c][..0] == [];
  }

  // What a sighting of a recorded device makes of its address.
  predicate Moved(types: VendorTypes, row: Option<Device>, s: Sighting, now: int) {
    row.Some? && IpChanged(row.value.ipv4, Reconcile(row.value, Build(types, s, now)).ipv4)
  }

  // The key under which a change of this device, found by this scanner, is deduplicated.
  function MoveEvent(mac: string, scanner: Scanner, now: int): Event {
    Event(mac, now, DeviceChanged, "", "", scanner, now)
  }

  // A change of the device was already recorded for the scanner within the window. The address it
  // was about plays no part.
  predicate Muted(cfg: Config, log: seq<Event>, mac: string, scanner: Scanner, now: int) {
    Suppressed(cfg, log, MoveEvent(mac, scanner, now))
  }

  // Events of another key do not mute a device.
  lemma MutedLogged(cfg: Config, db: Db, e: Event, mac: string, scanner: Scanner, now: int)
    requires !SameKey(e, MoveEvent(mac, scanner, now))
    ensures Muted(cfg, Logged(cfg, db, e).log, mac, scanner, now) == Muted(cfg, db.log, mac, scanner, now)
  {
    var f := MoveEvent(mac, scanner, now);
    if Muted(cfg, db.log, mac, scanner, now) {
      var x :| x in db.log && SameKey(x, f) && x.createdOn >= now - cfg.dedup;
      assert x in Logged(cfg, db, e).log;
    }
  }

  lemma AcceptChanged(cfg: Config, db: Db, c: Change, scanner: Scanner, now: int, mac: string)
    requires c.Changed?
    ensures MoveCount(Accept(cfg, db, c.device, scanner, now, [c]).changes, mac)
         == if IsMove(c, mac) && !Muted(cfg, db.log, mac, scanner, now) then 1 else 0
  {
    var e := MakeEvent(c.device, DeviceChanged, scanner, now, now);
    AcceptFirst(cfg, db, c.device, scanner, now, [c]);
    assert [c][1..] == [] && [c] + [] == [c];
    MovesOne(c, mac);
    if NormalizeMac(c.device.mac) == mac {
      assert forall x :: SameKey(x, e) <==> SameKey(x, MoveEvent(mac, scanner, now));
    }
  }

  // A return to the network, reported first, neither is a change of address nor mutes one.
  lemma AcceptBackOnline(
      cfg: Config, db: Db, back: Change, rest: seq<Change>, scanner: Scanner, now: int, mac: string)
    returns (logged: Db)
    requires back.BackOnline?
    ensures Muted(cfg, logged.log, mac, scanner, now) == Muted(cfg, db.log, mac, scanner, now)
    ensures MoveCount(Accept(cfg, db, back.device, scanner, now, [back] + rest).changes, mac)
         == MoveCount(Accept(cfg, logged, back.device, scanner, now, rest).changes, mac)
  {
    var e := MakeEvent(back.device, DeviceBackOnline, scanner, now, now);
    logged := Logged(cfg, db, e);
    MutedLogged(cfg, db, e, mac, scanner, now);
    assert ([back] + rest)[1..] == rest;
    AcceptFirst(cfg, db, back.device, scanner, now, [back] + rest);
    var later := Accept(cfg, logged, back.device, scanner, now, rest).changes;
    assert [] + later == later;
    MovesConcat([back], later, mac);
    MovesOne(back, mac);
  }

  // Of the detected changes, a change of address is returned exactly if it is not muted.
  lemma AcceptMoves(cfg: Config, db: Db, existing: Device, device: Device, scanner: Scanner, now: int, mac: string)
    ensures MoveCount(Accept(cfg, db, device, scanner, now, Detect(cfg, existing, device, now)).changes, mac)
         == if IpChanged(existing.ipv4, device.ipv4) && NormalizeMac(device.mac) == mac
               && !Muted(cfg, db.log, mac, scanner, now)
            then 1 else 0
  {
    var ip, vendor := IpChanged(existing.ipv4, device.ipv4), VendorChanged(existing.vendor, device.vendor);
    var back, c := BackOnline(device, AbsentFor(existing, now)), Changed(existing, device, ip, vendor);
    var rest := if ip || vendor then [c] else [];
    var logged := db;
    if AbsentFor(existing, now) >= cfg.absence {
      logged := AcceptBackOnline(cfg, db, back, rest, scanner, now, mac);
    } else {
      assert [] + rest == rest;
    }
    assert MoveCount(Accept(cfg, db, device, scanner, now, Detect(cfg, existing, device, now)).changes, mac)
        == MoveCount(Accept(cfg, logged, device, scanner, now, rest).changes, mac);
    if ip || vendor {
      AcceptChanged(cfg, logged, c, scanner, now, mac);
    }
  }

  // A change of address is detected for the sighted device alone, and exactly when it moved.
  lemma DetectMoves(cfg: Config, existing: Device, device: Device, now: int, mac: string)
    ensures MoveCount(Detect(cfg, existing, device, now), mac)
         == if IpChanged(existing.ipv4, device.ipv4) && NormalizeMac(device.mac) == mac then 1 else 0
  {
    var ip, vendor := IpChanged(existing.ipv4, device.ipv4), VendorChanged(existing.vendor, device.vendor);
    var back := BackOnline(device, AbsentFor(existing, now));
    var first := if AbsentFor(existing, now) >= cfg.absence then [back] else [];
    var second := if ip || vendor then [Changed(existing, device, ip, vendor)] else [];
    MovesConcat(first, second, mac);
    MovesOne(back, mac);
    MovesOne(Changed(existing, device, ip, vendor), mac);
  }

  // Main result: a recording call returns a change of address exactly if the device moved and no change
  // of it was recorded for this scanner within the window.
  lemma OutcomeMoves(cfg: Config, db: Db, s: Sighting, scanner: Scanner, now: int, mac: string)
    ensures var m := NormalizeMac(s.mac);
      MoveCount(SightingOutcome(cfg, db, Build(cfg.types, s, now), scanner, now).changes, mac)
      == if m == mac && Moved(cfg.types, RowOf(db, m), s, now) && !Muted(cfg, db.log, mac, scanner, now) then 1 else 0
  {
    var m := NormalizeMac(s.mac);
    var device := Build(cfg.types, s, now);
    if m in db.rows {
      var reconciled := Reconcile(db.rows[m], device);
      var seen := MakeEvent(reconciled, DeviceSeen, scanner, now, now);
      var db' := Ledger.Seen(db, reconciled, now);
      MutedLogged(cfg, db', seen, mac, scanner, now);
      AcceptMoves(cfg, Logged(cfg, db', seen), db.rows[m], reconciled, scanner, now, mac);
    } else {
      MovesOne(New(device), mac);
    }
  }

  // Recording one device mutes no other.
  lemma OutcomeMutes(cfg: Config, db: Db, s: Sighting, scanner: Scanner, now: int, mac: string)
    requires NormalizeMac(s.mac) != mac
    ensures var after := SightingOutcome(cfg, db, Build(cfg.types, s, now), scanner, now).db;
      Muted(cfg, after.log, mac, scanner, now) == Muted(cfg, db.log, mac, scanner, now)
  {
    var m := NormalizeMac(s.mac);
    var device := Build(cfg.types, s, now);
    if m in db.rows {
      var reconciled := Reconcile(db.rows[m], device);
      var seen := MakeEvent(reconciled, DeviceSeen, scanner, now, now);
      var heard := Logged(cfg, Ledger.Seen(db, reconciled, now), seen);
      var changes := Detect(cfg, db.rows[m], reconciled, now);
      MutedLogged(cfg, Ledger.Seen(db, reconciled, now), seen, mac, scanner, now);
      AcceptLog(cfg, heard, reconciled, scanner, now, changes);
      MutedSame(cfg, heard.log, Accept(cfg, heard, reconciled, scanner, now, changes).db.log, mac, scanner, now);
    } else {
      MutedLogged(cfg, db, MakeEvent(device, NewDevice, scanner, now, now), mac, scanner, now);
    }
  }

  lemma MutedSame(cfg: Config, log: seq<Event>, longer: seq<Event>, mac: string, scanner: Scanner, now: int)
    requires forall x :: x in log ==> x in longer
    requires forall x :: x in longer ==> x in log || x.mac != mac
    ensures Muted(cfg, longer, mac, scanner, now) == Muted(cfg, log, mac, scanner, now)
  {
  }

  // ---- A change of address that is lost ----

  // Recording changes adds, under their key, only an event that carries the new address, and none
  // while the device is muted.
  lemma {:induction false} AcceptKeyed(
      cfg: Config, db: Db, device: Device, scanner: Scanner, now: int, changes: seq<Change>, mac: string, x: Event)
    requires SameKey(x, MoveEvent(mac, scanner, now)) && x in Accept(cfg, db, device, scanner, now, changes).db.log
    ensures x in db.log || (x.ipv4 == device.ipv4 && !Muted(cfg, db.log, mac, scanner, now))
    decreases |changes|
  {
    if changes != [] {
      var e := MakeEvent(device, EventTypeFor(changes[0]), scanner, now, now);
      AcceptFirst(cfg, db, device, scanner, now, changes);
      AcceptKeyed(cfg, Logged(cfg, db, e), device, scanner, now, changes[1..], mac, x);
      MutedStays(cfg, db.log, Logged(cfg, db, e).log, mac, scanner, now);
    }
  }

  lemma MutedStays(cfg: Config, log: seq<Event>, longer: seq<Event>, mac: string, scanner: Scanner, now: int)
    requires forall x :: x in log ==> x in longer
    ensures Muted(cfg, log, mac, scanner, now) ==> Muted(cfg, longer, mac, scanner, now)
  {
  }

  lemma OutcomeKeyed(cfg: Config, db: Db, s: Sighting, scanner: Scanner, now: int, x: Event)
    requires NormalizeMac(s.mac) in db.rows && SameKey(x, MoveEvent(NormalizeMac(s.mac), scanner, now))
    requires x in SightingOutcome(cfg, db, Build(cfg.types, s, now), scanner, now).db.log
    ensures x in db.log
      || (x.ipv4 == Reconcile(db.rows[NormalizeMac(s.mac)], Build(cfg.types, s, now)).ipv4
          && !Muted(cfg, db.log, NormalizeMac(s.mac), scanner, now))
  {
    var m := NormalizeMac(s.mac);
    var reconciled := Reconcile(db.rows[m], Build(cfg.types, s, now));
    var seen := MakeEvent(reconciled, DeviceSeen, scanner, now, now);
    var db' := Ledger.Seen(db, reconciled, now);
    MutedLogged(cfg, db', seen, m, scanner, now);
    AcceptKeyed(cfg, Logged(cfg, db', seen), reconciled, scanner, now, Detect(cfg, db.rows[m], reconciled, now), m, x);
  }

  // A recorded change mutes the device for the window.
  lemma {:induction false} AcceptMutes(
      cfg: Config, db: Db, device: Device, scanner: Scanner, now: int, changes: seq<Change>, later: int)
    requires changes != [] && changes[|changes| - 1].Changed? && later - cfg.dedup <= now
    requires !Muted(cfg, db.log, NormalizeMac(device.mac), scanner, now)
    ensures Muted(cfg, Accept(cfg, db, device, scanner, now, changes).db.log, NormalizeMac(device.mac), scanner, later)
    decreases |changes|
  {
    var mac, e := NormalizeMac(device.mac), MakeEvent(device, EventTypeFor(changes[0]), scanner, now, now);
    var logged := Logged(cfg, db, e);
    AcceptFirst(cfg, db, device, scanner, now, changes);
    if changes[0].Changed? {
      assert forall x :: SameKey(x, e) <==> SameKey(x, MoveEvent(mac, scanner, now));
      assert e in logged.log;
      AcceptLog(cfg, logged, device, scanner, now, changes[1..]);
      assert SameKey(e, MoveEvent(mac, scanner, later));
    } else {
      MutedLogged(cfg, db, e, mac, scanner, now);
      assert changes[1..] != [] && changes[1..][|changes[1..]| - 1] == changes[|changes| - 1];
      AcceptMutes(cfg, logged, device, scanner, now, changes[1..], later);
    }
  }

  lemma MoveMutes(cfg: Config, db: Db, s: Sighting, scanner: Scanner, now: int, later: int)
    requires var m := NormalizeMac(s.mac);
      Moved(cfg.types, RowOf(db, m), s, now) && !Muted(cfg, db.log, m, scanner, now) && later - cfg.dedup <= now
    ensures var after := SightingOutcome(cfg, db, Build(cfg.types, s, now), scanner, now).db;
      Muted(cfg, after.log, NormalizeMac(s.mac), scanner, later)
  {
    var m := NormalizeMac(s.mac);
    var reconciled := Reconcile(db.rows[m], Build(cfg.types, s, now));
    var seen := MakeEvent(reconciled, DeviceSeen, scanner, now, now);
    var db' := Ledger.Seen(db, reconciled, now);
    MutedLogged(cfg, db', seen, m, scanner, now);
    AcceptMutes(cfg, Logged(cfg, db', seen), reconciled, scanner, now, Detect(cfg, db.rows[m], reconciled, now), later);
  }

  // What two sightings of a device by one scanner, at new addresses each, do to a run.
  ghost predicate SecondLost(s: State, end: State, scanner: Scanner, m: string, first: string, second: string) {
    && m in end.db.rows && end.db.rows[m].ipv4 == second
    && MoveCount(Answers(end.trace), m) == MoveCount(Answers(s.trace), m) + 1
    && forall x :: x in end.db.log && SameKey(x, MoveEvent(m, scanner, 0)) ==> x in s.db.log || x.ipv4 == first
  }

  // A device on record that moves twice within one window, seen by one scanner both times: the row
  // ends at the second address, yet only the first move is recorded and returned.
  lemma SecondMoveLost(cfg: Config, s: State, scanner: Scanner, first: Sighting, second: Sighting, wait: nat)
    returns (steps: seq<Step>)
    requires var m := NormalizeMac(first.mac);
      && NormalizeMac(second.mac) == m && scanner !in s.jobs && m in s.db.rows && wait <= cfg.dedup
      && IpChanged(s.db.rows[m].ipv4, first.ipv4) && IpChanged(first.ipv4, second.ipv4)
      && !Muted(cfg, s.db.log, m, scanner, s.now)
    ensures Runs(cfg, s, steps)
    ensures SecondLost(s, Run(cfg, s, steps), scanner, NormalizeMac(first.mac), first.ipv4, second.ipv4)
  {
    var m := NormalizeMac(first.mac);
    var steps1, moved := CompleteSighting(cfg, s, scanner, first);
    var later := Next(cfg, moved, Tick(wait));
    var steps2, end := CompleteSighting(cfg, later, scanner, second);
    var rest := Prepend(cfg, moved, Tick(wait), steps2);
    RunConcat(cfg, s, steps1, rest);
    steps := steps1 + rest;

    OutcomeAddress(cfg, s.db, first, scanner, s.now);
    OutcomeMoves(cfg, s.db, first, scanner, s.now, m);
    MoveMutes(cfg, s.db, first, scanner, s.now, later.now);
    OutcomeAddress(cfg, moved.db, second, scanner, later.now);
    OutcomeMoves(cfg, moved.db, second, scanner, later.now, m);
    AnswersCount(cfg, s, moved, scanner, first, m);
    AnswersCount(cfg, later, end, scanner, second, m);
    forall x | x in end.db.log && SameKey(x, MoveEvent(m, scanner, 0))
      ensures x in s.db.log || x.ipv4 == first.ipv4
    {
      OutcomeKeyed(cfg, moved.db, second, scanner, later.now, x);
      OutcomeKeyed(cfg, s.db, first, scanner, s.now, x);
    }
  }

  lemma CompleteSighting(cfg: Config, s: State, scanner: Scanner, sighting: Sighting)
    returns (steps: seq<Step>, end: State)
    requires scanner !in s.jobs
    ensures Runs(cfg, s, steps) && end == Run(cfg, s, steps) && scanner !in end.jobs
    ensures Settled(s, end, scanner, SightingOutcome(cfg, s.db, Build(cfg.types, sighting, s.now), scanner, s.now))
  {
    var n, last := SightingIsSoloRun(cfg, s, scanner, sighting);
    end := last;
    steps := Prepend(cfg, s, Begin(scanner, sighting), Solo.Moves(scanner, n));
  }

  // A sighting with an address puts it on record.
  lemma OutcomeAddress(cfg: Config, db: Db, s: Sighting, scanner: Scanner, now: int)
    requires NormalizeMac(s.mac) in db.rows && s.ipv4 != ""
    ensures var m, after := NormalizeMac(s.mac), SightingOutcome(cfg, db, Build(cfg.types, s, now), scanner, now).db;
      && m in after.rows && after.rows[m].ipv4 == s.ipv4
      && Reconcile(db.rows[m], Build(cfg.types, s, now)).ipv4 == s.ipv4
  {
    OutcomeRows(cfg, db, Visit(scanner, s, now));
  }

  lemma AnswersCount(cfg: Config, s: State, end: State, scanner: Scanner, sighting: Sighting, mac: string)
    requires Settled(s, end, scanner, SightingOutcome(cfg, s.db, Build(cfg.types, sighting, s.now), scanner, s.now))
    ensures var outcome := SightingOutcome(cfg, s.db, Build(cfg.types, sighting, s.now), scanner, s.now);
      MoveCount(Answers(end.trace), mac) == MoveCount(Answers(s.trace), mac) + MoveCount(outcome.changes, mac)
  {
    var outcome := SightingOutcome(cfg, s.db, Build(cfg.types, sighting, s.now), scanner, s.now);
    MovesConcat(Answers(s.trace), outcome.changes, mac);
  }
}
