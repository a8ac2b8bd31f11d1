// What one recording call records and returns, told from the tables, the sighting, the clock and the
// settings alone.

module Reports {
  import opened Options
  import opened Devices
  import opened Events
  import opened Ledger
  import opened Pipeline

  // An event of this device, scanner and type was created at or after an instant.
  predicate Recent(log: seq<Event>, mac: string, scanner: Scanner, t: EventType, since: int) {
    exists x :: x in log && x.mac == mac && x.scanner == scanner && x.eventType == t && x.createdOn >= since
  }

  // The device was away long enough for its return to be reported.
  predicate Away(cfg: Config, row: Device, now: int) {
    now - row.lastSeen >= cfg.absence || cfg.absence == 0
  }

  function TimeAway(row: Device, now: int): nat {
    if now > row.lastSeen then now - row.lastSeen else 0
  }

  // A known value gave way to another known one.
  predicate Replaced(known: string, seen: string) {
    known != "" && seen != "" && known != seen
  }

  // What a sighting makes of a device on record.
  function Completed(types: VendorTypes, row: Device, s: Sighting, now: int): Device {
    Device(s.mac, if s.ipv4 != "" then s.ipv4 else row.ipv4, if s.vendor != "" then s.vendor else row.vendor, now,
           row.isRegistered, row.owner, if row.deviceType != "" then row.deviceType else DeviceTypeOf(types, s.vendor),
           if row.name.Some? then row.name else s.name)
  }

  lemma TypeOfVendor(types: VendorTypes, vendor: string)
    ensures DeviceTypeOf(types, vendor) != "" ==> vendor in types && types[vendor] == DeviceTypeOf(types, vendor)
    ensures vendor in types ==> DeviceTypeOf(types, vendor) == types[vendor]
  {
  }

  // Detection reports a return exactly after the configured absence, with the time away, and then a
  // change exactly when a known address or vendor gave way to another, saying which.
  lemma DetectReports(cfg: Config, row: Device, device: Device, now: int)
    ensures var moved, revendored := Replaced(row.ipv4, device.ipv4), Replaced(row.vendor, device.vendor);
      Detect(cfg, row, device, now)
      == (if Away(cfg, row, now) then [BackOnline(device, TimeAway(row, now))] else [])
         + (if moved || revendored then [Changed(row, device, moved, revendored)] else [])
  {
  }

  // The event of a device, scanner and type as it is stored.
  function EventRow(m: string, t: EventType, ipv4: string, vendor: string, scanner: Scanner, now: int): Event {
    Event(m, now, t, ipv4, vendor, scanner, now)
  }

  lemma SuppressedIfRecent(cfg: Config, log: seq<Event>, e: Event)
    ensures Suppressed(cfg, log, e) <==> Recent(log, e.mac, e.scanner, e.eventType, e.checkedAt - cfg.dedup)
  {
    if Suppressed(cfg, log, e) {
      var x :| x in log && SameKey(x, e) && x.createdOn >= e.checkedAt - cfg.dedup;
      assert x.mac == e.mac;
    }
    if Recent(log, e.mac, e.scanner, e.eventType, e.checkedAt - cfg.dedup) {
      var x :| x in log && x.mac == e.mac && x.scanner == e.scanner && x.eventType == e.eventType
        && x.createdOn >= e.checkedAt - cfg.dedup;
      assert SameKey(x, e);
    }
  }

  // Events of other types make no event recent.
  lemma RecentBeside(log: seq<Event>, more: seq<Event>, mac: string, scanner: Scanner, t: EventType, since: int)
    requires forall x :: x in more ==> x.eventType != t
    ensures Recent(log + more, mac, scanner, t, since) == Recent(log, mac, scanner, t, since)
  {
    if Recent(log, mac, scanner, t, since) {
      var x :| x in log && x.mac == mac && x.scanner == scanner && x.eventType == t && x.createdOn >= since;
      assert x in log + more;
    }
  }

  // One event, recorded unless it is a duplicate: what it adds to the log.
  function Added(cfg: Config, log: seq<Event>, e: Event): seq<Event> {
    if Recent(log, e.mac, e.scanner, e.eventType, e.createdOn - cfg.dedup) then [] else [e]
  }

  lemma LoggedAdds(cfg: Config, db: Db, e: Event)
    requires e.createdOn == e.checkedAt
    ensures Logged(cfg, db, e) == db.(log := db.log + Added(cfg, db.log, e))
  {
    SuppressedIfRecent(cfg, db.log, e);
    assert db.log + [] == db.log;
  }

  // Dealing with one change, or with two of different types: each is recorded and returned on its own.
  lemma AcceptOne(cfg: Config, db: Db, device: Device, scanner: Scanner, now: int, c: Change)
    ensures var added := Added(cfg, db.log, MakeEvent(device, EventTypeFor(c), scanner, now, now));
      Accept(cfg, db, device, scanner, now, [c]) == Outcome(db.(log := db.log + added), if added == [] then [] else [c])
  {
    var e := MakeEvent(device, EventTypeFor(c), scanner, now, now);
    LoggedAdds(cfg, db, e);
    SuppressedIfRecent(cfg, db.log, e);
    AcceptFirst(cfg, db, device, scanner, now, [c]);
    assert [c][1..] == [] && [c] + [] == [c];
  }

  lemma AcceptTwo(cfg: Config, db: Db, device: Device, scanner: Scanner, now: int, c: Change, d: Change)
    requires EventTypeFor(c) != EventTypeFor(d)
    ensures var first := Added(cfg, db.log, MakeEvent(device, EventTypeFor(c), scanner, now, now));
      var second := Added(cfg, db.log, MakeEvent(device, EventTypeFor(d), scanner, now, now));
      Accept(cfg, db, device, scanner, now, [c, d])
      == Outcome(db.(log := db.log + first + second), (if first == [] then [] else [c]) + if second == [] then [] else [d])
  {
    var e, f := MakeEvent(device, EventTypeFor(c), scanner, now, now), MakeEvent(device, EventTypeFor(d), scanner, now, now);
    var first := Added(cfg, db.log, e);
    LoggedAdds(cfg, db, e);
    SuppressedIfRecent(cfg, db.log, e);
    AcceptFirst(cfg, db, device, scanner, now, [c, d]);
    assert [c, d][1..] == [d];
    RecentBeside(db.log, first, f.mac, scanner, f.eventType, now - cfg.dedup);
    AcceptOne(cfg, db.(log := db.log + first), device, scanner, now, d);
  }

  // What at most one change adds to the log.
  function AddedFor(cfg: Config, log: seq<Event>, device: Device, scanner: Scanner, now: int, c: seq<Change>): seq<Event>
    requires |c| <= 1
  {
    if c == [] then [] else Added(cfg, log, MakeEvent(device, EventTypeFor(c[0]), scanner, now, now))
  }

  lemma AcceptBoth(
      cfg: Config, db: Db, device: Device, scanner: Scanner, now: int, first: seq<Change>, second: seq<Change>)
    requires |first| <= 1 && |second| <= 1
    requires first != [] && second != [] ==> EventTypeFor(first[0]) != EventTypeFor(second[0])
    ensures var a := AddedFor(cfg, db.log, device, scanner, now, first);
      var b := AddedFor(cfg, db.log, device, scanner, now, second);
      Accept(cfg, db, device, scanner, now, first + second)
      == Outcome(db.(log := db.log + a + b), (if a == [] then [] else first) + if b == [] then [] else second)
  {
    if first != [] && second != [] {
      AcceptTwo(cfg, db, device, scanner, now, first[0], second[0]);
      assert first + second == [first[0], second[0]] && first == [first[0]] && second == [second[0]];
    } else if first != [] {
      AcceptOne(cfg, db, device, scanner, now, first[0]);
      assert first + second == [first[0]] == first;
      assert forall log: seq<Event> :: log + [] == log;
    } else if second != [] {
      AcceptOne(cfg, db, device, scanner, now, second[0]);
      assert first + second == [second[0]] == second;
      assert db.log + [] == db.log;
    } else {
      assert first + second == [] && db.log + [] + [] == db.log;
    }
  }

  // What a sighting of a device on record adds to the log: a heartbeat, then a return, then a change.

  function Heartbeats(cfg: Config, db: Db, s: Sighting, scanner: Scanner, now: int): seq<Event>
    requires NormalizeMac(s.mac) in db.rows
  {
    var m := NormalizeMac(s.mac);
    var device := Completed(cfg.types, db.rows[m], s, now);
    Added(cfg, db.log, EventRow(m, DeviceSeen, device.ipv4, device.vendor, scanner, now))
  }

  function Returns(cfg: Config, db: Db, s: Sighting, scanner: Scanner, now: int): seq<Event>
    requires NormalizeMac(s.mac) in db.rows
  {
    var m := NormalizeMac(s.mac);
    var device := Completed(cfg.types, db.rows[m], s, now);
    if Away(cfg, db.rows[m], now)
    then Added(cfg, db.log, EventRow(m, DeviceBackOnline, device.ipv4, device.vendor, scanner, now)) else []
  }

  function Alterations(cfg: Config, db: Db, s: Sighting, scanner: Scanner, now: int): seq<Event>
    requires NormalizeMac(s.mac) in db.rows
  {
    var m := NormalizeMac(s.mac);
    var device := Completed(cfg.types, db.rows[m], s, now);
    if Replaced(db.rows[m].ipv4, s.ipv4) || Replaced(db.rows[m].vendor, s.vendor)
    then Added(cfg, db.log, EventRow(m, DeviceChanged, device.ipv4, device.vendor, scanner, now)) else []
  }

  // Main result: a sighting of a device on record records a heartbeat, its return if it was away long
  // enough, and a change if its address or vendor was replaced, each with the address and vendor it
  // then has and each unless its own type was recorded for this scanner within the window before the
  // call; exactly the recorded return and change are returned.
  lemma KnownReports(cfg: Config, db: Db, s: Sighting, scanner: Scanner, now: int)
    requires NormalizeMac(s.mac) in db.rows
    ensures var row := db.rows[NormalizeMac(s.mac)];
      var device := Completed(cfg.types, row, s, now);
      var outcome := SightingOutcome(cfg, db, Build(cfg.types, s, now), scanner, now);
      var back, changed := Returns(cfg, db, s, scanner, now), Alterations(cfg, db, s, scanner, now);
      && outcome.db.log == db.log + Heartbeats(cfg, db, s, scanner, now) + back + changed
      && outcome.changes ==
           (if back == [] then [] else [BackOnline(device, TimeAway(row, now))])
           + (if changed == [] then []
              else [Changed(row, device, Replaced(row.ipv4, s.ipv4), Replaced(row.vendor, s.vendor))])
  {
    var m := NormalizeMac(s.mac);
    var row, device := db.rows[m], Completed(cfg.types, db.rows[m], s, now);
    assert Reconcile(row, Build(cfg.types, s, now)) == device;
    var seen := Ledger.Seen(db, device, now);
    var e := MakeEvent(device, DeviceSeen, scanner, now, now);
    LoggedAdds(cfg, seen, e);
    DetectReports(cfg, row, device, now);
    AcceptDetected(cfg, seen, Added(cfg, db.log, e), row, device, scanner, now);
  }

  // The detected changes are settled as if the heartbeat had not been recorded just before.
  lemma AcceptDetected(
      cfg: Config, db: Db, heartbeat: seq<Event>, row: Device, device: Device, scanner: Scanner, now: int)
    requires forall x :: x in heartbeat ==> x.eventType == DeviceSeen
    ensures var back := if Away(cfg, row, now)
        then Added(cfg, db.log, MakeEvent(device, DeviceBackOnline, scanner, now, now)) else [];
      var moved, revendored := Replaced(row.ipv4, device.ipv4), Replaced(row.vendor, device.vendor);
      var changed := if moved || revendored
        then Added(cfg, db.log, MakeEvent(device, DeviceChanged, scanner, now, now)) else [];
      var heard := db.(log := db.log + heartbeat);
      Accept(cfg, heard, device, scanner, now, Detect(cfg, row, device, now))
      == Outcome(heard.(log := heard.log + back + changed),
           (if back == [] then [] else [BackOnline(device, TimeAway(row, now))])
           + (if changed == [] then [] else [Changed(row, device, moved, revendored)]))
  {
    var heard := db.(log := db.log + heartbeat);
    var moved, revendored := Replaced(row.ipv4, device.ipv4), Replaced(row.vendor, device.vendor);
    var first := if Away(cfg, row, now) then [BackOnline(device, TimeAway(row, now))] else [];
    var second := if moved || revendored then [Changed(row, device, moved, revendored)] else [];
    AddedBeside(cfg, db.log, heartbeat, MakeEvent(device, DeviceBackOnline, scanner, now, now));
    AddedBeside(cfg, db.log, heartbeat, MakeEvent(device, DeviceChanged, scanner, now, now));
    DetectReports(cfg, row, device, now);
    hide Accept, Detect, Added, Replaced, Away;
    AcceptBoth(cfg, heard, device, scanner, now, first, second);
  }

  lemma AddedBeside(cfg: Config, log: seq<Event>, more: seq<Event>, e: Event)
    requires forall x :: x in more ==> x.eventType != e.eventType
    ensures Added(cfg, log + more, e) == Added(cfg, log, e)
  {
    RecentBeside(log, more, e.mac, e.scanner, e.eventType, e.createdOn - cfg.dedup);
  }

  // The return to the network, in the caller's terms: exactly one is returned if the device was away
  // long enough and no return of it was recorded for this scanner within the window, else none.
  lemma ReturnReported(cfg: Config, db: Db, s: Sighting, scanner: Scanner, now: int)
    requires NormalizeMac(s.mac) in db.rows
    ensures var row := db.rows[NormalizeMac(s.mac)];
      var changes := SightingOutcome(cfg, db, Build(cfg.types, s, now), scanner, now).changes;
      && ((now - row.lastSeen >= cfg.absence || cfg.absence == 0)
          && !Recent(db.log, NormalizeMac(s.mac), scanner, DeviceBackOnline, now - cfg.dedup)
          <==> changes != [] && changes[0].BackOnline?)
      && (changes != [] && changes[0].BackOnline? && now >= row.lastSeen ==> changes[0].absentFor == now - row.lastSeen)
      && forall i :: 1 <= i < |changes| ==> !changes[i].BackOnline?
  {
    KnownReports(cfg, db, s, scanner, now);
  }

  // Main result: a sighting of an unknown device inserts its row, unregistered and without owner, and
  // records and returns it as new unless that was recorded for this scanner within the window.
  lemma NewReports(cfg: Config, db: Db, s: Sighting, scanner: Scanner, now: int)
    requires NormalizeMac(s.mac) !in db.rows
    ensures var m := NormalizeMac(s.mac);
      var device := Device(s.mac, s.ipv4, s.vendor, now, false, "", DeviceTypeOf(cfg.types, s.vendor), s.name);
      var recent := Recent(db.log, m, scanner, NewDevice, now - cfg.dedup);
      var outcome := SightingOutcome(cfg, db, Build(cfg.types, s, now), scanner, now);
      && outcome.db.rows == db.rows[m := device.(mac := m)]
      && outcome.db.log == (if recent then db.log
                            else db.log + [EventRow(m, NewDevice, s.ipv4, s.vendor, scanner, now)])
      && outcome.changes == (if recent then [] else [New(device)])
  {
    var device := Build(cfg.types, s, now);
    SuppressedIfRecent(cfg, db.log, MakeEvent(device, NewDevice, scanner, now, now));
  }
}
