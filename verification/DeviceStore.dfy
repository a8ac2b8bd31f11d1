// The tables and the code that reads and changes them, proved against the functions of the ledger
// and the pipeline.

module DeviceStore {
  import opened Options
  import opened Devices
  import opened Events
  import opened Ledger
  import opened Pipeline

  // `kept` lists, in ascending order, the places in `log` of the events that `rest` consists of: the
  // places of all events created at or after the cutoff.
  ghost predicate Remaining(log: seq<Event>, cutoff: int, rest: seq<Event>, kept: seq<nat>) {
    && |rest| == |kept|
    && (forall k :: 0 <= k < |kept| ==> kept[k] < |log| && rest[k] == log[kept[k]])
    && (forall k, l :: 0 <= k < l < |kept| ==> kept[k] < kept[l])
    && forall i :: 0 <= i < |log| ==> (i in kept <==> log[i].createdOn >= cutoff)
  }

  // One more event looked at: it is passed over, or it goes to the end of what remains.
  lemma RemainingNext(log: seq<Event>, i: nat, cutoff: int, rest: seq<Event>, kept: seq<nat>)
    requires i < |log| && rest == Since(log[..i], cutoff) && Remaining(log[..i], cutoff, rest, kept)
    ensures var e := log[i];
      if e.createdOn < cutoff then rest == Since(log[..i + 1], cutoff) && Remaining(log[..i + 1], cutoff, rest, kept)
      else rest + [e] == Since(log[..i + 1], cutoff) && Remaining(log[..i + 1], cutoff, rest + [e], kept + [i])
  {
    hide Since, Remaining;
    assert log[..i + 1] == log[..i] + [log[i]];
    SinceAppend(log[..i], log[i], cutoff);
    RemainingMore(log[..i], cutoff, rest, kept, log[i]);
  }

  lemma RemainingMore(log: seq<Event>, cutoff: int, rest: seq<Event>, kept: seq<nat>, e: Event)
    requires Remaining(log, cutoff, rest, kept)
    ensures if e.createdOn < cutoff then Remaining(log + [e], cutoff, rest, kept)
            else Remaining(log + [e], cutoff, rest + [e], kept + [|log|])
  {
    var longer := log + [e];
    if e.createdOn >= cutoff {
      var places := kept + [|log|];
      forall k | 0 <= k < |longer|
        ensures k in places <==> longer[k].createdOn >= cutoff
      {
        assert k in places <==> k in kept || k == |log|;
        assert k < |log| ==> longer[k] == log[k];
      }
    } else {
      forall k | 0 <= k < |longer|
        ensures k in kept <==> longer[k].createdOn >= cutoff
      {
        assert k < |log| ==> longer[k] == log[k];
      }
    }
  }

  // A registered device is not registered again, an unregistered one neither updated nor unregistered.
  predicate Refused(rows: map<string, Device>, w: Write) {
    var m := NormalizeMac(w.mac);
    && m in rows
    && ((w.Register? && rows[m].isRegistered) || ((w.Update? || w.Unregister?) && !rows[m].isRegistered))
  }

  // What a permitted write other than a deletion leaves in the table.
  predicate Rewritten(before: map<string, Device>, after: map<string, Device>, w: Write) {
    var m := NormalizeMac(w.mac);
    m in before &&
    (var row := before[m];
     match w
     case Register(_, owner, deviceType, name) =>
       after == before[m := Device(row.mac, row.ipv4, row.vendor, row.lastSeen, true, owner, deviceType,
                                   if name.Some? then name else row.name)]
     case Update(_, owner, deviceType, vendor, name) =>
       after == before[m := Device(row.mac, row.ipv4, vendor, row.lastSeen, row.isRegistered, owner, deviceType, name)]
     case Unregister(_) =>
       after == before[m := Device(row.mac, row.ipv4, row.vendor, row.lastSeen, false, "", row.deviceType, row.name)]
     case Delete(_) => false)
  }

  lemma DeletedEvents(log: seq<Event>, mac: string)
    ensures forall x :: x in Without(log, mac) <==> x in log && x.mac != mac
  {
    forall x
      ensures x in Without(log, mac) <==> x in log && x.mac != mac
    {
      WithoutHas(log, mac, x);
    }
  }

  datatype Status = Done | NotFound | Conflict

  // Having settled the first `i` changes, all that is outstanding is to settle the rest.
  predicate Outstanding(
      cfg: Config, heard: Db, device: Device, scanner: Scanner, now: int, candidates: seq<Change>, i: nat,
      db: Db, changes: seq<Change>)
    requires i <= |candidates|
  {
    var whole := Accept(cfg, heard, device, scanner, now, candidates);
    var rest := Accept(cfg, db, device, scanner, now, candidates[i..]);
    whole.db == rest.db && whole.changes == changes + rest.changes
  }

  lemma AcceptedNext(
      cfg: Config, heard: Db, device: Device, scanner: Scanner, now: int, candidates: seq<Change>, i: nat,
      db: Db, changes: seq<Change>)
    requires i < |candidates| && Outstanding(cfg, heard, device, scanner, now, candidates, i, db, changes)
    ensures var e := MakeEvent(device, EventTypeFor(candidates[i]), scanner, now, now);
      var mine := if Suppressed(cfg, db.log, e) then changes else changes + [candidates[i]];
      Outstanding(cfg, heard, device, scanner, now, candidates, i + 1, Logged(cfg, db, e), mine)
  {
    var e := MakeEvent(device, EventTypeFor(candidates[i]), scanner, now, now);
    AcceptFirst(cfg, db, device, scanner, now, candidates[i..]);
    assert candidates[i..][1..] == candidates[i + 1..];
    hide Accept, Suppressed, Logged;
    Regroup(changes, candidates[i], Accept(cfg, Logged(cfg, db, e), device, scanner, now, candidates[i + 1..]).changes);
  }

  lemma Regroup(changes: seq<Change>, c: Change, rest: seq<Change>)
    ensures changes + ([c] + rest) == changes + [c] + rest && changes + ([] + rest) == changes + rest
  {
  }

  class Store {
    var rows: map<string, Device>
    var log: seq<Event>

    function Contents(): Db
      reads this
    {
      Db(rows, log)
    }

    constructor (db: Db)
      ensures Contents() == db
    {
      rows, log := db.rows, db.log;
    }

    method Read(mac: string) returns (found: Option<Device>)
      ensures found == if NormalizeMac(mac) in rows then Some(rows[NormalizeMac(mac)]) else None
    {
      var m := NormalizeMac(mac);
      if m in rows {
        found := Some(rows[m]);
      } else {
        found := None;
      }
    }

    method Insert(device: Device) returns (ok: bool)
      modifies this
      ensures ok == Ledger.Insert(old(Contents()), device).Some?
      ensures Contents() == if ok then Ledger.Insert(old(Contents()), device).value else old(Contents())
      ensures ok <==> NormalizeMac(device.mac) !in old(rows)
      ensures ok ==> log == old(log) && rows == old(rows)[NormalizeMac(device.mac) :=
        Device(NormalizeMac(device.mac), device.ipv4, device.vendor, device.lastSeen, device.isRegistered, device.owner,
               device.deviceType, device.name)]
    {
      var m := NormalizeMac(device.mac);
      ok := m !in rows;
      if ok {
        rows := rows[m := device.(mac := m)];
      }
    }

    method Seen(mac: string, ipv4: string, vendor: string, deviceType: string, name: Option<string>, now: int)
      modifies this
      ensures var m := NormalizeMac(mac);
        Contents() == if m in old(rows)
          then Db(old(rows)[m := SeenRow(old(rows)[m], ipv4, vendor, deviceType, name, now)], old(log))
          else old(Contents())
    {
      var m := NormalizeMac(mac);
      if m in rows {
        var row := rows[m].(ipv4 := ipv4, lastSeen := now);
        if vendor != "" {
          row := row.(vendor := vendor, deviceType := if row.deviceType == "" then deviceType else row.deviceType);
        }
        if name.Some? {
          row := row.(name := name);
        }
        rows := rows[m := row];
      }
    }

    method Register(mac: string, owner: string, deviceType: string, name: Option<string>)
      modifies this
      ensures Contents() == Execute(old(Contents()), Write.Register(mac, owner, deviceType, name))
    {
      var m := NormalizeMac(mac);
      if m in rows {
        var row := rows[m].(isRegistered := true, owner := owner, deviceType := deviceType);
        if name.Some? {
          row := row.(name := name);
        }
        rows := rows[m := row];
      }
    }

    method Update(mac: string, owner: string, deviceType: string, vendor: string, name: Option<string>)
      modifies this
      ensures Contents() == Execute(old(Contents()), Write.Update(mac, owner, deviceType, vendor, name))
    {
      var m := NormalizeMac(mac);
      if m in rows {
        rows := rows[m := rows[m].(owner := owner, deviceType := deviceType, vendor := vendor, name := name)];
      }
    }

    method Unregister(mac: string)
      modifies this
      ensures Contents() == Execute(old(Contents()), Write.Unregister(mac))
    {
      var m := NormalizeMac(mac);
      if m in rows {
        rows := rows[m := rows[m].(isRegistered := false, owner := "")];
      }
    }

    method Delete(mac: string) returns (deleted: nat)
      modifies this
      ensures Contents() == Execute(old(Contents()), Write.Delete(mac))
      ensures deleted == if NormalizeMac(mac) in old(rows) then 1 else 0
    {
      var m := NormalizeMac(mac);
      log := Without(log, m);
      deleted := if m in rows then 1 else 0;
      rows := rows - {m};
    }

    // An API handler: read the row, refuse, or issue the statement. Only a device that is not registered
    // can be registered, only a registered one updated or unregistered.
    method Handle(w: Write) returns (status: Status)
      modifies this
      ensures status == NotFound <==> NormalizeMac(w.mac) !in old(rows)
      ensures status == Conflict <==> Refused(old(rows), w)
      ensures status == Done <==> Permitted(old(rows), w)
      ensures Contents() == if status == Done then Execute(old(Contents()), w) else old(Contents())
      // field by field, and nothing else
      ensures status == Done && !w.Delete? ==> log == old(log) && Rewritten(old(rows), rows, w)
      ensures status == Done && w.Delete? ==> rows == old(rows) - {NormalizeMac(w.mac)}
      ensures status == Done && w.Delete? ==> forall x :: x in log <==> x in old(log) && x.mac != NormalizeMac(w.mac)
    {
      DeletedEvents(log, NormalizeMac(w.mac));
      var found := Read(w.mac);
      if found.None? {
        return NotFound;
      }
      match w {
        case Register(mac, owner, deviceType, name) =>
          if found.value.isRegistered {
            return Conflict;
          }
          Register(mac, owner, deviceType, name);
        case Update(mac, owner, deviceType, vendor, name) =>
          if !found.value.isRegistered {
            return Conflict;
          }
          Update(mac, owner, deviceType, vendor, name);
        case Unregister(mac) =>
          if !found.value.isRegistered {
            return Conflict;
          }
          Unregister(mac);
        case Delete(mac) =>
          var _ := Delete(mac);
      }
      status := Done;
    }

    method RecentDuplicateExists(e: Event, since: int) returns (found: bool)
      ensures found == DuplicateSince(log, e, since)
    {
      var count, i := 0, 0;
      while i < |log|
        invariant 0 <= i <= |log| && count >= 0
        invariant count > 0 <==> DuplicateSince(log[..i], e, since)
      {
        assert log[..i + 1] == log[..i] + [log[i]];
        if SameKey(log[i], e) && log[i].createdOn >= since {
          count := count + 1;
        }
        i := i + 1;
      }
      assert log[..i] == log;
      found := count > 0;
    }

    // Exactly the events at or after the cutoff remain, each once and in their order.
    method PurgeOlderThan(cutoff: int) returns (count: nat, ghost kept: seq<nat>)
      modifies this`log
      ensures Contents() == Purge(old(Contents()), cutoff)
      ensures Remaining(old(log), cutoff, log, kept)
      ensures count == |old(log)| - |log|
    {
      var rest: seq<Event> := [];
      count, kept := 0, [];
      var i := 0;
      while i < |log|
        invariant log == old(log) && 0 <= i <= |log| && count == i - |rest|
        invariant rest == Since(log[..i], cutoff) && Remaining(log[..i], cutoff, rest, kept)
      {
        RemainingNext(log, i, cutoff, rest, kept);
        if log[i].createdOn < cutoff {
          count := count + 1;
        } else {
          rest, kept := rest + [log[i]], kept + [i];
        }
        i := i + 1;
      }
      assert log[..i] == log;
      log := rest;
    }

    method RecordEvent(cfg: Config, e: Event) returns (recorded: bool)
      modifies this
      ensures recorded == !Suppressed(cfg, old(log), e)
      ensures Contents() == Logged(cfg, old(Contents()), e)
    {
      var duplicate := RecentDuplicateExists(e, e.checkedAt - cfg.dedup);
      if duplicate {
        return false;
      }
      log := log + [e];
      recorded := true;
    }

    method RecordNewDevice(cfg: Config, device: Device, scanner: Scanner, now: int) returns (change: Option<Change>)
      modifies this
      ensures var outcome := RecordNew(cfg, old(Contents()), device, scanner, now);
        && Contents() == outcome.db
        && outcome.changes == (if change.Some? then [change.value] else [])
    {
      var recorded := RecordEvent(cfg, MakeEvent(device, NewDevice, scanner, now, now));
      if !recorded {
        return None;
      }
      change := Some(New(device));
    }

    method DetectKnownDeviceChanges(cfg: Config, existing: Device, device: Device, now: int) returns (changes: seq<Change>)
      ensures changes == Detect(cfg, existing, device, now)
    {
      changes := [];
      var elapsed := if now >= existing.lastSeen then now - existing.lastSeen else 0;
      if elapsed >= cfg.absence {
        changes := changes + [BackOnline(device, elapsed)];
      }
      var ip, vendor := IpChanged(existing.ipv4, device.ipv4), VendorChanged(existing.vendor, device.vendor);
      if ip || vendor {
        changes := changes + [Changed(existing, device, ip, vendor)];
      }
    }

    method RecordKnownDevice(cfg: Config, existing: Device, device: Device, scanner: Scanner, now: int)
      returns (changes: seq<Change>)
      modifies this
      ensures var outcome := RecordKnown(cfg, old(Contents()), existing, device, scanner, now);
        Contents() == outcome.db && changes == outcome.changes
    {
      var _ := RecordEvent(cfg, MakeEvent(device, DeviceSeen, scanner, now, now));
      var candidates := DetectKnownDeviceChanges(cfg, existing, device, now);
      ghost var heard := Contents();
      changes := [];
      var i := 0;
      while i < |candidates|
        invariant 0 <= i <= |candidates|
        invariant Outstanding(cfg, heard, device, scanner, now, candidates, i, Contents(), changes)
      {
        var change := candidates[i];
        AcceptedNext(cfg, heard, device, scanner, now, candidates, i, Contents(), changes);
        var recorded := RecordEvent(cfg, MakeEvent(device, EventTypeFor(change), scanner, now, now));
        if recorded {
          changes := changes + [change];
        }
        i := i + 1;
      }
    }

    method RecordSighting(cfg: Config, sighted: Device, scanner: Scanner, now: int) returns (changes: seq<Change>)
      modifies this
      ensures var outcome := SightingOutcome(cfg, old(Contents()), sighted, scanner, now);
        Contents() == outcome.db && changes == outcome.changes
    {
      hide RecordKnown, RecordNew;
      var device := sighted;
      var found := Read(device.mac);
      match found
      case Some(recorded) =>
        if recorded.name.Some? {
          device := device.(name := recorded.name);
        }
        if device.ipv4 == "" {
          device := device.(ipv4 := recorded.ipv4);
        }
        device := device.(isRegistered := recorded.isRegistered);
        device := device.(owner := recorded.owner);
        if device.vendor == "" {
          device := device.(vendor := recorded.vendor);
        }
        if recorded.deviceType != "" {
          device := device.(deviceType := recorded.deviceType);
        }
        assert device == Reconcile(recorded, sighted);
        Seen(device.mac, device.ipv4, device.vendor, device.deviceType, device.name, now);
        assert Contents() == Ledger.Seen(old(Contents()), device, now);
        changes := RecordKnownDevice(cfg, recorded, device, scanner, now);
      case None =>
        var ok := Insert(device);
        if !ok {
          return [];
        }
        var change := RecordNewDevice(cfg, device, scanner, now);
        changes := if change.Some? then [change.value] else [];
    }
  }
}
