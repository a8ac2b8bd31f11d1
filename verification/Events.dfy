// Device events: the log, its deduplication lookup, and change detection.

module Events {
  import opened Devices

  datatype Scanner = Arp | Mdns | Ssdp | Dhcp | Snmp

  datatype EventType = NewDevice | DeviceSeen | DeviceChanged | DeviceBackOnline

  // A stored event. `checkedAt` is the clock reading from which its deduplication bound was
  // computed; it is not a column and nothing branches on it.
  datatype Event = Event(
    mac: string, createdOn: int, eventType: EventType, ipv4: string, vendor: string, scanner: Scanner,
    checkedAt: int)

  datatype Change =
    | New(device: Device)
    | BackOnline(device: Device, absentFor: nat)
    | Changed(existing: Device, device: Device, ipChanged: bool, vendorChanged: bool)

  datatype Config = Config(dedup: nat, absence: nat, retention: nat, types: VendorTypes)

  function EventTypeFor(c: Change): EventType {
    match c
    case New(_) => NewDevice
    case BackOnline(_, _) => DeviceBackOnline
    case Changed(_, _, _, _) => DeviceChanged
  }

  function MakeEvent(device: Device, t: EventType, scanner: Scanner, createdOn: int, clock: int): Event {
    Event(NormalizeMac(device.mac), createdOn, t, device.ipv4, device.vendor, scanner, clock)
  }

  // Detection.

  predicate IpChanged(existing: string, seen: string) {
    existing != "" && seen != "" && existing != seen
  }

  predicate VendorChanged(existing: string, seen: string) {
    existing != "" && seen != "" && existing != seen
  }

  function AbsentFor(existing: Device, now: int): nat {
    if now >= existing.lastSeen then now - existing.lastSeen else 0
  }

  function Detect(cfg: Config, existing: Device, device: Device, now: int): (changes: seq<Change>)
    ensures |changes| <= 2
  {
    var ip, vendor := IpChanged(existing.ipv4, device.ipv4), VendorChanged(existing.vendor, device.vendor);
    (if AbsentFor(existing, now) >= cfg.absence then [BackOnline(device, AbsentFor(existing, now))] else [])
    + (if ip || vendor then [Changed(existing, device, ip, vendor)] else [])
  }

  // The log.

  predicate SameKey(a: Event, b: Event) {
    a.mac == b.mac && a.scanner == b.scanner && a.eventType == b.eventType
  }

  predicate DuplicateSince(log: seq<Event>, e: Event, since: int) {
    exists x :: x in log && SameKey(x, e) && x.createdOn >= since
  }

  // The events created at or after `cutoff`: what a purge leaves.
  function Since(log: seq<Event>, cutoff: int): seq<Event> {
    if log == [] then []
    else
      var last := log[|log| - 1];
      var kept := Since(log[..|log| - 1], cutoff);
      if last.createdOn >= cutoff then kept + [last] else kept
  }

  // The events of every device but one: what deleting that device leaves.
  function Without(log: seq<Event>, mac: string): seq<Event> {
    if log == [] then []
    else
      var last := log[|log| - 1];
      var kept := Without(log[..|log| - 1], mac);
      if last.mac != mac then kept + [last] else kept
  }

  lemma {:induction false} SinceHas(log: seq<Event>, cutoff: int, x: Event)
    ensures x in Since(log, cutoff) <==> x in log && x.createdOn >= cutoff
  {
    if log != [] {
      SinceHas(log[..|log| - 1], cutoff, x);
      assert log == log[..|log| - 1] + [log[|log| - 1]];
    }
  }

  lemma {:induction false} WithoutHas(log: seq<Event>, mac: string, x: Event)
    ensures x in Without(log, mac) <==> x in log && x.mac != mac
  {
    if log != [] {
      WithoutHas(log[..|log| - 1], mac, x);
      assert log == log[..|log| - 1] + [log[|log| - 1]];
    }
  }

  lemma SinceAppend(log: seq<Event>, e: Event, cutoff: int)
    ensures Since(log + [e], cutoff) == if e.createdOn >= cutoff then Since(log, cutoff) + [e] else Since(log, cutoff)
  {
    assert (log + [e])[..|log|] == log;
  }

  lemma WithoutAppend(log: seq<Event>, e: Event, mac: string)
    ensures Without(log + [e], mac) == if e.mac != mac then Without(log, mac) + [e] else Without(log, mac)
  {
    assert (log + [e])[..|log|] == log;
  }

  lemma {:induction false} SinceTwice(log: seq<Event>, early: int, late: int)
    requires early <= late
    ensures Since(Since(log, early), late) == Since(log, late)
  {
    if log != [] {
      var init, last := log[..|log| - 1], log[|log| - 1];
      SinceTwice(init, early, late);
      if last.createdOn >= early {
        SinceAppend(Since(init, early), last, late);
      }
    }
  }

  lemma {:induction false} SinceWithout(log: seq<Event>, cutoff: int, mac: string)
    ensures Since(Without(log, mac), cutoff) == Without(Since(log, cutoff), mac)
  {
    if log != [] {
      var init, last := log[..|log| - 1], log[|log| - 1];
      SinceWithout(init, cutoff, mac);
      if last.mac != mac {
        SinceAppend(Without(init, mac), last, cutoff);
      }
      if last.createdOn >= cutoff {
        WithoutAppend(Since(init, cutoff), last, mac);
      }
    }
  }

  lemma {:induction false} SinceShorter(log: seq<Event>, cutoff: int)
    ensures |Since(log, cutoff)| <= |log|
  {
    if log != [] {
      SinceShorter(log[..|log| - 1], cutoff);
    }
  }

  // Spacing: the bound an event was checked against lies after every earlier event of its key.

  predicate Apart(window: nat, earlier: Event, later: Event) {
    SameKey(earlier, later) ==> later.checkedAt - earlier.createdOn > window
  }

  predicate Spaced(window: nat, log: seq<Event>) {
    log == [] ||
    (var init, last := log[..|log| - 1], log[|log| - 1];
     && Spaced(window, init)
     && last.createdOn <= last.checkedAt
     && forall x :: x in init ==> Apart(window, x, last))
  }

  lemma SpacedAppend(window: nat, log: seq<Event>, e: Event)
    requires Spaced(window, log) && e.createdOn <= e.checkedAt
    requires forall x :: x in log ==> Apart(window, x, e)
    ensures Spaced(window, log + [e])
  {
    assert (log + [e])[..|log|] == log;
  }

  lemma {:induction false} SpacedSince(window: nat, log: seq<Event>, cutoff: int)
    requires Spaced(window, log)
    ensures Spaced(window, Since(log, cutoff))
  {
    if log != [] {
      var init, last := log[..|log| - 1], log[|log| - 1];
      SpacedSince(window, init, cutoff);
      if last.createdOn >= cutoff {
        forall x | x in Since(init, cutoff)
          ensures Apart(window, x, last)
        {
          SinceHas(init, cutoff, x);
        }
        SpacedAppend(window, Since(init, cutoff), last);
      }
    }
  }

  lemma {:induction false} SpacedWithout(window: nat, log: seq<Event>, mac: string)
    requires Spaced(window, log)
    ensures Spaced(window, Without(log, mac))
  {
    if log != [] {
      var init, last := log[..|log| - 1], log[|log| - 1];
      SpacedWithout(window, init, mac);
      if last.mac != mac {
        forall x | x in Without(init, mac)
          ensures Apart(window, x, last)
        {
          WithoutHas(init, mac, x);
        }
        SpacedAppend(window, Without(init, mac), last);
      }
    }
  }

  // What spacing says of any two stored events of one key: their creation times differ by more
  // than the window less the later one's lag between its two clock readings.
  lemma {:induction false} SpacedPair(window: nat, log: seq<Event>, i: nat, j: nat)
    requires Spaced(window, log) && i < j < |log| && SameKey(log[i], log[j])
    ensures log[j].createdOn - log[i].createdOn > window - (log[j].checkedAt - log[j].createdOn)
    ensures log[j].checkedAt == log[j].createdOn ==> log[j].createdOn - log[i].createdOn > window
  {
    var init, last := log[..|log| - 1], log[|log| - 1];
    if j == |log| - 1 {
      assert log[i] == init[i] && init[i] in init;
    } else {
      assert init[i] == log[i] && init[j] == log[j];
      SpacedPair(window, init, i, j);
    }
  }
}
