// The device table as values: rows, what a sighting brings, and the statements that change a row.

module Devices {
  import opened Options
  import opened Text

  datatype Device = Device(
    mac: string, ipv4: string, vendor: string, lastSeen: int,
    isRegistered: bool, owner: string, deviceType: string, name: Option<string>)

  // The vendor-to-type database.
  type VendorTypes = map<string, string>

  function DeviceTypeOf(types: VendorTypes, vendor: string): string {
    if vendor in types then types[vendor] else ""
  }

  // What a finder knows about a device, its vendor already looked up ("" when unknown).
  datatype Sighting = Sighting(mac: string, ipv4: string, vendor: string, name: Option<string>)

  function Build(types: VendorTypes, s: Sighting, now: int): Device {
    Device(s.mac, s.ipv4, s.vendor, now, false, "", DeviceTypeOf(types, s.vendor), s.name)
  }

  function NormalizeMac(mac: string): string {
    Lower(mac)
  }

  // Two spellings are one device exactly when they differ in letter case only.
  lemma NormalizeFolds(a: string, b: string)
    ensures NormalizeMac(a) == NormalizeMac(b) <==> SameUpToCase(a, b)
    ensures NormalizeMac(NormalizeMac(a)) == NormalizeMac(a) && SameUpToCase(NormalizeMac(a), a)
  {
    LowerFolds(a, b);
    LowerIsLower(a);
  }

  // The sighting completed with what is on record, before anything is written.
  function Reconcile(recorded: Device, device: Device): Device {
    device.(
      name := if recorded.name.Some? then recorded.name else device.name,
      ipv4 := if device.ipv4 == "" then recorded.ipv4 else device.ipv4,
      isRegistered := recorded.isRegistered,
      owner := recorded.owner,
      vendor := if device.vendor == "" then recorded.vendor else device.vendor,
      deviceType := if recorded.deviceType != "" then recorded.deviceType else device.deviceType)
  }

  // Rows.

  function InsertedRow(device: Device): Device {
    device.(mac := NormalizeMac(device.mac))
  }

  // The UPDATE of a sighting: vendor (and, where still empty, type) only when deduced, name only
  // when known.
  function SeenRow(row: Device, ipv4: string, vendor: string, deviceType: string, name: Option<string>, now: int): Device {
    row.(
      ipv4 := ipv4,
      lastSeen := now,
      vendor := if vendor != "" then vendor else row.vendor,
      deviceType := if vendor != "" && row.deviceType == "" then deviceType else row.deviceType,
      name := if name.Some? then name else row.name)
  }

  function SeenAs(row: Device, device: Device, now: int): Device {
    SeenRow(row, device.ipv4, device.vendor, device.deviceType, device.name, now)
  }

  // The statements behind the web API.
  datatype Write =
    | Register(mac: string, owner: string, deviceType: string, name: Option<string>)
    | Update(mac: string, owner: string, deviceType: string, vendor: string, name: Option<string>)
    | Unregister(mac: string)
    | Delete(mac: string)

  function WrittenRow(row: Device, w: Write): Device
    requires !w.Delete?
  {
    match w
    case Register(_, owner, deviceType, name) =>
      row.(isRegistered := true, owner := owner, deviceType := deviceType,
           name := if name.Some? then name else row.name)
    case Update(_, owner, deviceType, vendor, name) =>
      row.(owner := owner, deviceType := deviceType, vendor := vendor, name := name)
    case Unregister(_) =>
      row.(isRegistered := false, owner := "")
  }

  // The guard a handler evaluates on the row it reads before it issues its statement.
  predicate Permitted(rows: map<string, Device>, w: Write) {
    var m := NormalizeMac(w.mac);
    && m in rows
    && match w
       case Register(_, _, _, _) => !rows[m].isRegistered
       case Update(_, _, _, _, _) => rows[m].isRegistered
       case Unregister(_) => rows[m].isRegistered
       case Delete(_) => true
  }

  // One sighting applied to the stored row, with nothing in between.
  function Sighted(types: VendorTypes, row: Option<Device>, s: Sighting, now: int): Device {
    var device := Build(types, s, now);
    match row
    case None => InsertedRow(device)
    case Some(recorded) => SeenAs(recorded, Reconcile(recorded, device), now)
  }

  // The device handed to notifications is the row as stored, apart from the spelling of the key
  // and the time stamp.
  ghost predicate ReconcileCommutes(types: VendorTypes, row: Device, s: Sighting, built: int, now: int) {
    var device := Reconcile(row, Build(types, s, built));
    device.(mac := row.mac, lastSeen := now) == SeenAs(row, device, now)
  }

  // It holds for every row and sighting exactly when the empty vendor has no device type.
  lemma ReconcileCommutesIff(types: VendorTypes)
    ensures (forall row, s, built, now :: ReconcileCommutes(types, row, s, built, now))
       <==> DeviceTypeOf(types, "") == ""
  {
    if DeviceTypeOf(types, "") != "" {
      var bare := Sighting("", "", "", None);
      var row := Device("", "", "", 0, false, "", "", None);
      assert !ReconcileCommutes(types, row, bare, 0, 0);
    }
  }
}
