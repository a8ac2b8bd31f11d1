// The recording pipeline as it runs when nothing interleaves: what one call does to the tables and
// what it returns, with one clock reading.

module Pipeline {
  import opened Devices
  import opened Events
  import opened Ledger

  // What a call leaves in the tables and returns.
  datatype Outcome = Outcome(db: Db, changes: seq<Change>)

  predicate Suppressed(cfg: Config, log: seq<Event>, e: Event) {
    DuplicateSince(log, e, e.checkedAt - cfg.dedup)
  }

  function Logged(cfg: Config, db: Db, e: Event): Db {
    if Suppressed(cfg, db.log, e) then db else db.(log := db.log + [e])
  }

  function Accept(cfg: Config, db: Db, device: Device, scanner: Scanner, now: int, changes: seq<Change>): Outcome
    decreases |changes|
  {
    if changes == [] then Outcome(db, [])
    else
      var e := MakeEvent(device, EventTypeFor(changes[0]), scanner, now, now);
      var rest := Accept(cfg, Logged(cfg, db, e), device, scanner, now, changes[1..]);
      if Suppressed(cfg, db.log, e) then rest else rest.(changes := [changes[0]] + rest.changes)
  }

  // The first change is settled before the others are looked at.
  lemma AcceptFirst(cfg: Config, db: Db, device: Device, scanner: Scanner, now: int, changes: seq<Change>)
    requires changes != []
    ensures var e := MakeEvent(device, EventTypeFor(changes[0]), scanner, now, now);
      var rest := Accept(cfg, Logged(cfg, db, e), device, scanner, now, changes[1..]);
      Accept(cfg, db, device, scanner, now, changes)
        == Outcome(rest.db, (if Suppressed(cfg, db.log, e) then [] else [changes[0]]) + rest.changes)
  {
  }

  function RecordNew(cfg: Config, db: Db, device: Device, scanner: Scanner, now: int): Outcome {
    var e := MakeEvent(device, NewDevice, scanner, now, now);
    Outcome(Logged(cfg, db, e), if Suppressed(cfg, db.log, e) then [] else [New(device)])
  }

  function RecordKnown(cfg: Config, db: Db, existing: Device, device: Device, scanner: Scanner, now: int): Outcome {
    var heard := Logged(cfg, db, MakeEvent(device, DeviceSeen, scanner, now, now));
    Accept(cfg, heard, device, scanner, now, Detect(cfg, existing, device, now))
  }

  function SightingOutcome(cfg: Config, db: Db, device: Device, scanner: Scanner, now: int): Outcome {
    var m := NormalizeMac(device.mac);
    if m in db.rows then
      var reconciled := Reconcile(db.rows[m], device);
      RecordKnown(cfg, Ledger.Seen(db, reconciled, now), db.rows[m], reconciled, scanner, now)
    else
      RecordNew(cfg, db.(rows := db.rows[m := InsertedRow(device)]), device, scanner, now)
  }
}
