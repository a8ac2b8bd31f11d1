// Repeated SNMP polls of one table: every poll collapses the table against the addresses on record
// and records what is left, device by device.

module SnmpPolls {
  import opened AddressChanges
  import opened Options
  import opened Text
  import opened Devices
  import opened Events
  import opened Ledger
  import opened Network
  import opened Pipeline
  import opened Snmp
  import opened Solo

  // Vendors looked up by hardware address.
  type Vendors = string -> string

  function PairSighting(p: Pair, vendors: Vendors): Sighting {
    Sighting(p.mac, PrintIp(p.ip), vendors(p.mac), None)
  }

  function StoredIp(row: Option<Device>): Option<Ipv4> {
    if row.Some? then ParseIp(row.value.ipv4) else None
  }

  // The lookup a poll injects into the collapse.
  function StoredIn(db: Db): string -> Option<Ipv4> {
    mac => StoredIp(RowOf(db, NormalizeMac(mac)))
  }

  // Recording what one poll found.
  function RecordPoll(cfg: Config, db: Db, out: seq<Pair>, vendors: Vendors, now: int): Outcome {
    if out == [] then Outcome(db, [])
    else
      var past, p := RecordPoll(cfg, db, out[..|out| - 1], vendors, now), out[|out| - 1];
      var next := SightingOutcome(cfg, past.db, Build(cfg.types, PairSighting(p, vendors), now), Scanner.Snmp, now);
      Outcome(next.db, past.changes + next.changes)
  }

  // One table polled once at every time given, collapsed against what is then on record.
  ghost function RecordPolls(cfg: Config, db: Db, pairs: seq<Pair>, times: seq<int>, vendors: Vendors): Outcome {
    if times == [] then Outcome(db, [])
    else
      var past := RecordPolls(cfg, db, pairs, times[..|times| - 1], vendors);
      var next := RecordPoll(cfg, past.db, Collapse(pairs, StoredIn(past.db)), vendors, times[|times| - 1]);
      Outcome(next.db, past.changes + next.changes)
  }

  predicate AllNormal(pairs: seq<Pair>) {
    forall p :: p in pairs ==> NormalizeMac(p.mac) == p.mac
  }

  // Decoded tables are written in normal form.
  lemma {:induction false} DecodedNormal(rows: seq<Row>, base: Oid)
    ensures AllNormal(Pairs(rows, base))
  {
    if rows != [] {
      DecodedNormal(rows[..|rows| - 1], base);
      if RowPair(rows[|rows| - 1], base).Some? {
        MacRoundTrip(rows[|rows| - 1].value.bytes);
      }
    }
  }

  // ---- One poll ----

  // A poll leaves devices it does not list alone: their rows, their changes, and what mutes them.
  lemma {:induction false} PollSpares(cfg: Config, db: Db, out: seq<Pair>, vendors: Vendors, now: int, mac: string)
    requires AllNormal(out) && forall p :: p in out ==> p.mac != mac
    ensures var after := RecordPoll(cfg, db, out, vendors, now);
      && RowOf(after.db, mac) == RowOf(db, mac) && MoveCount(after.changes, mac) == 0
      && Muted(cfg, after.db.log, mac, Scanner.Snmp, now) == Muted(cfg, db.log, mac, Scanner.Snmp, now)
  {
    if out != [] {
      var init, p := out[..|out| - 1], out[|out| - 1];
      assert out == init + [p] && p in out;
      AllNormalInit(out);
      PollSpares(cfg, db, init, vendors, now, mac);
      PollNext(cfg, db, init, p, vendors, now, mac);
    }
  }

  lemma AllNormalInit(out: seq<Pair>)
    requires out != [] && AllNormal(out)
    ensures AllNormal(out[..|out| - 1]) && NormalizeMac(out[|out| - 1].mac) == out[|out| - 1].mac
  {
    assert out[|out| - 1] in out;
  }

  // What recording one more pair adds.
  lemma PollNext(cfg: Config, db: Db, out: seq<Pair>, p: Pair, vendors: Vendors, now: int, mac: string)
    requires NormalizeMac(p.mac) == p.mac
    ensures var before, after := RecordPoll(cfg, db, out, vendors, now), RecordPoll(cfg, db, out + [p], vendors, now);
      var s := PairSighting(p, vendors);
      && RowOf(after.db, mac) ==
           (if p.mac == mac then Some(Sighted(cfg.types, RowOf(before.db, mac), s, now)) else RowOf(before.db, mac))
      && MoveCount(after.changes, mac) ==
           MoveCount(before.changes, mac)
           + (if p.mac == mac && Moved(cfg.types, RowOf(before.db, mac), s, now)
                 && !Muted(cfg, before.db.log, mac, Scanner.Snmp, now)
              then 1 else 0)
      && (p.mac != mac ==>
            Muted(cfg, after.db.log, mac, Scanner.Snmp, now) == Muted(cfg, before.db.log, mac, Scanner.Snmp, now))
  {
    var before := RecordPoll(cfg, db, out, vendors, now);
    var s := PairSighting(p, vendors);
    var next := SightingOutcome(cfg, before.db, Build(cfg.types, s, now), Scanner.Snmp, now);
    assert (out + [p])[..|out|] == out;
    OutcomeRows(cfg, before.db, Visit(Scanner.Snmp, s, now));
    OutcomeMoves(cfg, before.db, s, Scanner.Snmp, now, mac);
    if p.mac != mac {
      OutcomeMutes(cfg, before.db, s, Scanner.Snmp, now, mac);
    }
    MovesConcat(before.changes, next.changes, mac);
  }

  // A device the poll lists is sighted once, at its chosen address.
  lemma {:induction false} PollLists(cfg: Config, db: Db, out: seq<Pair>, i: nat, vendors: Vendors, now: int)
    requires AllNormal(out) && Ascending(Keys(out)) && i < |out|
    ensures var after, mac, s := RecordPoll(cfg, db, out, vendors, now), out[i].mac, PairSighting(out[i], vendors);
      && RowOf(after.db, mac) == Some(Sighted(cfg.types, RowOf(db, mac), s, now))
      && MoveCount(after.changes, mac) ==
           if Moved(cfg.types, RowOf(db, mac), s, now) && !Muted(cfg, db.log, mac, Scanner.Snmp, now) then 1 else 0
  {
    hide *;
    var init, p, mac := out[..|out| - 1], out[|out| - 1], out[i].mac;
    assert out == init + [p];
    AllNormalInit(out);
    PollNext(cfg, db, init, p, vendors, now, mac);
    if i == |init| {
      LastIsNew(out);
      PollSpares(cfg, db, init, vendors, now, mac);
    } else {
      KeysDiffer(out, i, |init|);
      AscendingPrefix(out);
      assert init[i] == out[i];
      PollLists(cfg, db, init, i, vendors, now);
    }
  }

  lemma LastIsNew(out: seq<Pair>)
    requires Ascending(Keys(out)) && out != []
    ensures forall p :: p in out[..|out| - 1] ==> p.mac != out[|out| - 1].mac
  {
    forall p | p in out[..|out| - 1]
      ensures p.mac != out[|out| - 1].mac
    {
      var j :| 0 <= j < |out| - 1 && out[j] == p;
      KeysDiffer(out, j, |out| - 1);
    }
  }

  lemma KeysDiffer(out: seq<Pair>, i: nat, j: nat)
    requires Ascending(Keys(out)) && i < j < |out|
    ensures out[i].mac != out[j].mac
  {
    assert Less(Keys(out)[i], Keys(out)[j]);
    LessAsymmetric(out[i].mac, out[i].mac);
  }

  lemma AscendingPrefix(out: seq<Pair>)
    requires out != [] && Ascending(Keys(out))
    ensures Ascending(Keys(out[..|out| - 1]))
  {
    var init := out[..|out| - 1];
    assert forall i :: 0 <= i < |init| ==> Keys(init)[i] == Keys(out)[i];
  }

  predicate Listed(pairs: seq<Pair>, mac: string, ipv4: string) {
    exists ip :: ip in Candidates(pairs, mac) && PrintIp(ip) == ipv4
  }

  // The device is on record at an address that the table lists.
  predicate OnTable(pairs: seq<Pair>, row: Option<Device>, mac: string) {
    row.Some? && Listed(pairs, mac, row.value.ipv4)
  }

  // The device has an address on record, and the table lists it at others only.
  predicate Astray(pairs: seq<Pair>, row: Option<Device>, mac: string) {
    row.Some? && row.value.ipv4 != "" && !Listed(pairs, mac, row.value.ipv4)
  }

  // The address a poll chooses for a device is a change exactly when the device is astray; the
  // chosen address goes on record.
  lemma MovesIffAstray(types: VendorTypes, row: Option<Device>, p: Pair, pairs: seq<Pair>, vendors: Vendors, now: int)
    requires IsChoice(p.ip, Candidates(pairs, p.mac), StoredIp(row))
    ensures Moved(types, row, PairSighting(p, vendors), now) <==> Astray(pairs, row, p.mac)
    ensures Sighted(types, row, PairSighting(p, vendors), now).ipv4 == PrintIp(p.ip)
    ensures OnTable(pairs, Some(Sighted(types, row, PairSighting(p, vendors), now)), p.mac)
  {
    PrintNonEmpty(p.ip);
    if row.Some? {
      forall ip | ip in Candidates(pairs, p.mac) && PrintIp(ip) == row.value.ipv4
        ensures p.ip == ip
      {
        IpRoundTrip(row.value.ipv4, ip);
      }
    }
  }

  // One poll of a table that lists a device: it returns a change of address for it, and just one,
  // exactly if a non-empty address is on record that the table does not list and no change of the
  // device was reported within the window; afterwards the address on record is one that the table
  // lists.
  lemma PollEffect(cfg: Config, db: Db, pairs: seq<Pair>, out: seq<Pair>, vendors: Vendors, now: int, mac: string)
    requires AllNormal(pairs) && mac in MacsOf(pairs) && Collapsed(pairs, StoredIn(db), out)
    ensures var after := RecordPoll(cfg, db, out, vendors, now);
      && OnTable(pairs, RowOf(after.db, mac), mac)
      && MoveCount(after.changes, mac) ==
           if Astray(pairs, RowOf(db, mac), mac) && !Muted(cfg, db.log, mac, Scanner.Snmp, now) then 1 else 0
  {
    hide *;
    var i := Choice(pairs, db, out, mac);
    PollLists(cfg, db, out, i, vendors, now);
    MovesIffAstray(cfg.types, RowOf(db, mac), out[i], pairs, vendors, now);
  }

  // Where a listed device is in the collapsed table.
  lemma Choice(pairs: seq<Pair>, db: Db, out: seq<Pair>, mac: string) returns (i: nat)
    requires AllNormal(pairs) && mac in MacsOf(pairs) && Collapsed(pairs, StoredIn(db), out)
    ensures i < |out| && out[i].mac == mac
    ensures IsChoice(out[i].ip, Candidates(pairs, mac), StoredIp(RowOf(db, mac)))
    ensures AllNormal(out) && Ascending(Keys(out))
  {
    NormalOut(pairs, out);
    assert mac in MacsOf(out);
    var p :| p in out && p.mac == mac;
    i :| 0 <= i < |out| && out[i] == p;
    var q :| q in pairs && q.mac == mac;
  }

  lemma NormalOut(pairs: seq<Pair>, out: seq<Pair>)
    requires AllNormal(pairs) && MacsOf(out) == MacsOf(pairs)
    ensures AllNormal(out)
  {
    forall p | p in out
      ensures NormalizeMac(p.mac) == p.mac
    {
      assert p.mac in MacsOf(out);
      var q :| q in pairs && q.mac == p.mac;
    }
  }

  lemma PollsNext(cfg: Config, db: Db, pairs: seq<Pair>, times: seq<int>, vendors: Vendors, mac: string)
    requires AllNormal(pairs) && mac in MacsOf(pairs) && times != []
    ensures var now := times[|times| - 1];
      var past := RecordPolls(cfg, db, pairs, times[..|times| - 1], vendors);
      var after := RecordPolls(cfg, db, pairs, times, vendors);
      && OnTable(pairs, RowOf(after.db, mac), mac)
      && MoveCount(after.changes, mac) == MoveCount(past.changes, mac)
           + if Astray(pairs, RowOf(past.db, mac), mac) && !Muted(cfg, past.db.log, mac, Scanner.Snmp, now) then 1 else 0
  {
    var init, now := times[..|times| - 1], times[|times| - 1];
    var past := RecordPolls(cfg, db, pairs, init, vendors);
    var out := Collapse(pairs, StoredIn(past.db));
    PollEffect(cfg, past.db, pairs, out, vendors, now, mac);
    MovesConcat(past.changes, RecordPoll(cfg, past.db, out, vendors, now).changes, mac);
  }

  // Main result: however often a table is polled, the changes of address it returns for a device it
  // lists, at however many addresses, are exactly one if the address first on record is not among
  // them and the first poll is not muted, and none otherwise.
  lemma {:induction false} NoFlapping(cfg: Config, db: Db, pairs: seq<Pair>, times: seq<int>, vendors: Vendors, mac: string)
    requires AllNormal(pairs) && mac in MacsOf(pairs) && times != []
    ensures var after := RecordPolls(cfg, db, pairs, times, vendors);
      && MoveCount(after.changes, mac) ==
           (if Astray(pairs, RowOf(db, mac), mac) && !Muted(cfg, db.log, mac, Scanner.Snmp, times[0]) then 1 else 0)
      && OnTable(pairs, RowOf(after.db, mac), mac)
  {
    hide *;
    var init := times[..|times| - 1];
    PollsNext(cfg, db, pairs, times, vendors, mac);
    if init == [] {
      NoPolls(cfg, db, pairs, vendors, mac);
      assert times == [times[0]];
    } else {
      NoFlapping(cfg, db, pairs, init, vendors, mac);
      NotAstray(pairs, RowOf(RecordPolls(cfg, db, pairs, init, vendors).db, mac), mac);
      assert init[0] == times[0];
    }
  }

  lemma NoPolls(cfg: Config, db: Db, pairs: seq<Pair>, vendors: Vendors, mac: string)
    ensures var after := RecordPolls(cfg, db, pairs, [], vendors); after.db == db && MoveCount(after.changes, mac) == 0
  {
  }

  lemma NotAstray(pairs: seq<Pair>, row: Option<Device>, mac: string)
    requires OnTable(pairs, row, mac)
    ensures !Astray(pairs, row, mac)
  {
  }
}
