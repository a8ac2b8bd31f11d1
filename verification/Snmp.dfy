// The SNMP poller's table: ARP rows (ipNetToMediaPhysAddress, RFC 1213 section 6) decoded to pairs,
// then collapsed to one address a device.

module Snmp {
  import opened Options
  import opened Text
  import opened Network

  type Oid = seq<nat>

  datatype ObjectValue = Octets(bytes: seq<Byte>) | OtherValue

  datatype Row = Row(oid: Oid, value: ObjectValue)

  datatype Pair = Pair(mac: string, ip: Ipv4)

  // ---- Decoding the table ----

  function RowPair(row: Row, base: Oid): Option<Pair> {
    if !(base <= row.oid) || |row.oid| - |base| < 4 then None
    else
      var octets := row.oid[|row.oid| - 4..];
      if octets[0] > 255 || octets[1] > 255 || octets[2] > 255 || octets[3] > 255 then None
      else if row.value.Octets? && |row.value.bytes| == 6
      then Some(Pair(FormatMac(row.value.bytes), Ipv4(octets[0], octets[1], octets[2], octets[3])))
      else None
  }

  function Pairs(rows: seq<Row>, base: Oid): seq<Pair> {
    if rows == [] then []
    else
      var past, found := Pairs(rows[..|rows| - 1], base), RowPair(rows[|rows| - 1], base);
      if found.Some? then past + [found.value] else past
  }

  method ParseArpTable(rows: seq<Row>, base: Oid) returns (pairs: seq<Pair>)
    ensures pairs == Pairs(rows, base)
  {
    pairs := [];
    var i := 0;
    while i < |rows|
      invariant 0 <= i <= |rows|
      invariant pairs == Pairs(rows[..i], base)
    {
      var row := rows[i];
      assert rows[..i + 1][..i] == rows[..i];
      i := i + 1;
      if !(base <= row.oid) || |row.oid| - |base| < 4 {
        continue;
      }
      var octets := row.oid[|row.oid| - 4..];
      if octets[0] > 255 || octets[1] > 255 || octets[2] > 255 || octets[3] > 255 {
        continue;
      }
      if row.value.Octets? && |row.value.bytes| == 6 {
        pairs := pairs + [Pair(FormatMac(row.value.bytes), Ipv4(octets[0], octets[1], octets[2], octets[3]))];
      }
    }
    assert rows[..i] == rows;
  }

  predicate EncodedAs(row: Row, base: Oid, p: Pair, index: Oid, bytes: seq<Byte>) {
    && |bytes| == 6 && p.mac == FormatMac(bytes)
    && row == Row(base + index + [p.ip.a, p.ip.b, p.ip.c, p.ip.d], Octets(bytes))
  }

  // A row is decoded exactly when its index ends in four octets and its value has six bytes, whatever
  // comes between the table's base and the octets; they are the address and the MAC.
  lemma RowPairIff(row: Row, base: Oid, p: Pair)
    ensures RowPair(row, base) == Some(p) <==>
      exists index: Oid, bytes: seq<Byte> :: EncodedAs(row, base, p, index, bytes)
  {
    if RowPair(row, base) == Some(p) {
      var n := |row.oid|;
      var index := row.oid[|base|..n - 4];
      assert row.oid == base + index + row.oid[n - 4..];
      assert row.oid[n - 4..] == [p.ip.a, p.ip.b, p.ip.c, p.ip.d];
      assert EncodedAs(row, base, p, index, row.value.bytes);
    }
    if exists index: Oid, bytes: seq<Byte> :: EncodedAs(row, base, p, index, bytes) {
      assert row.oid[|row.oid| - 4..] == [p.ip.a, p.ip.b, p.ip.c, p.ip.d];
    }
  }

  datatype Neighbour = Neighbour(ifIndex: nat, hardware: seq<Byte>, ip: Ipv4)

  function EncodeRow(base: Oid, n: Neighbour): Row {
    Row(base + [n.ifIndex, n.ip.a, n.ip.b, n.ip.c, n.ip.d], Octets(n.hardware))
  }

  function EncodeTable(base: Oid, neighbours: seq<Neighbour>): seq<Row> {
    if neighbours == [] then []
    else EncodeTable(base, neighbours[..|neighbours| - 1]) + [EncodeRow(base, neighbours[|neighbours| - 1])]
  }

  // Decoding an encoded table gives back its neighbours, in order, each hardware address readable
  // from its text.
  lemma {:induction false} TableRoundTrip(base: Oid, neighbours: seq<Neighbour>)
    requires forall n :: n in neighbours ==> |n.hardware| == 6
    ensures var pairs := Pairs(EncodeTable(base, neighbours), base);
      |pairs| == |neighbours| && forall i :: 0 <= i < |pairs| ==> Reads(pairs[i], neighbours[i])
  {
    if neighbours != [] {
      var init, n := neighbours[..|neighbours| - 1], neighbours[|neighbours| - 1];
      TableRoundTrip(base, init);
      assert n in neighbours;
      RowRoundTrip(base, n);
      var table, row := EncodeTable(base, init), EncodeRow(base, n);
      PairsAppend(table, row, base);
      OneMoreRead(Pairs(table, base), init, RowPair(row, base).value, n);
      assert neighbours == init + [n];
    }
  }

  lemma OneMoreRead(pairs: seq<Pair>, neighbours: seq<Neighbour>, p: Pair, n: Neighbour)
    requires |pairs| == |neighbours| && (forall i :: 0 <= i < |pairs| ==> Reads(pairs[i], neighbours[i])) && Reads(p, n)
    ensures forall i :: 0 <= i < |pairs + [p]| ==> Reads((pairs + [p])[i], (neighbours + [n])[i])
  {
  }

  lemma PairsAppend(rows: seq<Row>, row: Row, base: Oid)
    ensures var found := RowPair(row, base);
      Pairs(rows + [row], base) == Pairs(rows, base) + if found.Some? then [found.value] else []
  {
    assert (rows + [row])[..|rows|] == rows;
  }

  predicate Reads(p: Pair, n: Neighbour) {
    p.ip == n.ip && ParseMac(p.mac) == Some(n.hardware)
  }

  lemma RowRoundTrip(base: Oid, n: Neighbour)
    requires |n.hardware| == 6
    ensures var found := RowPair(EncodeRow(base, n), base); found.Some? && Reads(found.value, n)
  {
    var row := EncodeRow(base, n);
    assert row.oid[|row.oid| - 4..] == [n.ip.a, n.ip.b, n.ip.c, n.ip.d];
    MacRoundTrip(n.hardware);
  }

  // ---- Collapsing to one address a device ----

  predicate IsChoice(chosen: Ipv4, candidates: set<Ipv4>, stored: Option<Ipv4>) {
    && chosen in candidates
    && if stored.Some? && stored.value in candidates then chosen == stored.value
       else forall ip :: ip in candidates ==> IpNumber(chosen) <= IpNumber(ip)
  }

  function SetOf(ips: seq<Ipv4>): set<Ipv4> {
    set ip | ip in ips
  }

  function LowestIp(ips: seq<Ipv4>): (lowest: Ipv4)
    requires ips != []
    ensures lowest in ips && forall ip :: ip in ips ==> IpNumber(lowest) <= IpNumber(ip)
  {
    if |ips| == 1 then ips[0]
    else
      var rest := LowestIp(ips[1..]);
      if IpNumber(ips[0]) <= IpNumber(rest) then ips[0] else rest
  }

  function ChooseIp(candidates: seq<Ipv4>, stored: Option<Ipv4>): (chosen: Ipv4)
    requires candidates != []
    ensures IsChoice(chosen, SetOf(candidates), stored)
  {
    if stored.Some? && stored.value in candidates then stored.value else LowestIp(candidates)
  }

  function MacsOf(pairs: seq<Pair>): set<string> {
    set p | p in pairs :: p.mac
  }

  function Candidates(pairs: seq<Pair>, mac: string): set<Ipv4> {
    set p | p in pairs && p.mac == mac :: p.ip
  }

  ghost predicate Ascending(macs: seq<string>) {
    forall i, j :: 0 <= i < j < |macs| ==> Less(macs[i], macs[j])
  }

  function Keys(pairs: seq<Pair>): (macs: seq<string>)
    ensures |macs| == |pairs|
  {
    seq(|pairs|, i requires 0 <= i < |pairs| => pairs[i].mac)
  }

  // One pair for every device of the table, in ascending order of MAC, with the chosen address.
  ghost predicate Collapsed(pairs: seq<Pair>, stored: string -> Option<Ipv4>, out: seq<Pair>) {
    && Ascending(Keys(out))
    && MacsOf(out) == MacsOf(pairs)
    && forall o :: o in out ==> IsChoice(o.ip, Candidates(pairs, o.mac), stored(o.mac))
  }

  lemma {:induction false} LeastExists(keys: set<string>) returns (least: string)
    requires keys != {}
    ensures least in keys && forall k :: k in keys ==> k == least || Less(least, k)
    decreases |keys|
  {
    least :| least in keys;
    var rest := keys - {least};
    if rest != {} {
      var other := LeastExists(rest);
      LessTotal(least, other);
      if Less(other, least) {
        forall k | k in keys && k != other
          ensures Less(other, k)
        {
        }
        least := other;
      } else {
        forall k | k in rest && k != other
          ensures Less(least, k)
        {
          LessTransitive(least, other, k);
        }
      }
    }
  }

  method DedupByMac(pairs: seq<Pair>, stored: string -> Option<Ipv4>) returns (out: seq<Pair>)
    ensures Collapsed(pairs, stored, out)
  {
    var byMac: map<string, seq<Ipv4>> := map[];
    var i := 0;
    while i < |pairs|
      invariant 0 <= i <= |pairs|
      invariant byMac.Keys == MacsOf(pairs[..i])
      invariant forall m :: m in byMac ==> byMac[m] != [] && SetOf(byMac[m]) == Candidates(pairs[..i], m)
    {
      var p := pairs[i];
      ghost var before := byMac;
      assert pairs[..i + 1] == pairs[..i] + [p];
      var ips := if p.mac in byMac then byMac[p.mac] else [];
      if p.ip !in ips {
        ips := ips + [p.ip];
      }
      byMac := byMac[p.mac := ips];
      Grouped(pairs[..i], p, before, ips);
      i := i + 1;
    }
    assert pairs[..i] == pairs;

    out := [];
    var remaining := byMac.Keys;
    while remaining != {}
      invariant remaining <= byMac.Keys && MacsOf(out) == byMac.Keys - remaining
      invariant Ascending(Keys(out))
      invariant forall o, k :: o in out && k in remaining ==> Less(o.mac, k)
      invariant forall o :: o in out ==> IsChoice(o.ip, Candidates(pairs, o.mac), stored(o.mac))
      decreases remaining
    {
      ghost var least := LeastExists(remaining);
      var mac :| mac in remaining && forall k :: k in remaining ==> k == mac || Less(mac, k);
      var next := Pair(mac, ChooseIp(byMac[mac], stored(mac)));
      Extended(out, next);
      out := out + [next];
      remaining := remaining - {mac};
    }
  }

  lemma Grouped(past: seq<Pair>, p: Pair, byMac: map<string, seq<Ipv4>>, ips: seq<Ipv4>)
    requires byMac.Keys == MacsOf(past)
    requires forall m :: m in byMac ==> byMac[m] != [] && SetOf(byMac[m]) == Candidates(past, m)
    requires var old' := if p.mac in byMac then byMac[p.mac] else []; ips == if p.ip in old' then old' else old' + [p.ip]
    ensures byMac[p.mac := ips].Keys == MacsOf(past + [p])
    ensures ips != [] && SetOf(ips) == Candidates(past + [p], p.mac)
    ensures forall m :: m in byMac && m != p.mac ==> SetOf(byMac[m]) == Candidates(past + [p], m)
  {
    var old' := if p.mac in byMac then byMac[p.mac] else [];
    assert SetOf(old') == Candidates(past, p.mac) by {
      if p.mac !in byMac {
        assert forall q :: q in past ==> q.mac in MacsOf(past);
        assert Candidates(past, p.mac) == {};
      }
    }
    assert SetOf(ips) == SetOf(old') + {p.ip};
    forall m
      ensures Candidates(past + [p], m) == Candidates(past, m) + (if m == p.mac then {p.ip} else {})
    {
    }
  }

  lemma Extended(out: seq<Pair>, next: Pair)
    requires Ascending(Keys(out)) && forall o :: o in out ==> Less(o.mac, next.mac)
    ensures Ascending(Keys(out + [next])) && MacsOf(out + [next]) == MacsOf(out) + {next.mac}
  {
    assert forall i :: 0 <= i < |out| ==> Keys(out + [next])[i] == Keys(out)[i] && out[i] in out;
  }

  // An ascending list is determined by its elements.
  lemma {:induction false} AscendingUnique(a: seq<string>, b: seq<string>)
    requires Ascending(a) && Ascending(b) && forall m :: m in a <==> m in b
    ensures a == b
  {
    if a != [] {
      assert a[0] in b;
    }
    if b != [] {
      assert b[0] in a;
    }
    if a != [] && b != [] {
      LessAsymmetric(a[0], b[0]);
      LessAsymmetric(a[0], a[0]);
      assert a[0] == b[0];
      AscendingTail(a, b);
      AscendingTail(b, a);
      AscendingUnique(a[1..], b[1..]);
      assert a == [a[0]] + a[1..] && b == [b[0]] + b[1..];
    }
  }

  lemma AscendingTail(a: seq<string>, b: seq<string>)
    requires a != [] && b != [] && a[0] == b[0] && Ascending(a) && forall m :: m in a ==> m in b
    ensures forall m :: m in a[1..] ==> m in b[1..]
  {
    LessAsymmetric(a[0], a[0]);
    forall i | 1 <= i < |a|
      ensures a[i] in b[1..]
    {
      assert Less(a[0], a[i]) && a[i] in b;
      var j :| 0 <= j < |b| && b[j] == a[i];
      assert b[j] == b[1..][j - 1];
    }
  }

  // Main result: the outcome depends only on which pairs occur. Any reordering or repetition of
  // the rows gives the identical list.
  lemma CollapseIgnoresOrder(
      pairs: seq<Pair>, others: seq<Pair>, stored: string -> Option<Ipv4>, out: seq<Pair>, out': seq<Pair>)
    requires forall p :: p in pairs <==> p in others
    requires Collapsed(pairs, stored, out) && Collapsed(others, stored, out')
    ensures out == out'
  {
    forall m
      ensures Candidates(pairs, m) == Candidates(others, m)
    {
    }
    assert MacsOf(pairs) == MacsOf(others);
    KeysAreMacs(out);
    KeysAreMacs(out');
    AscendingUnique(Keys(out), Keys(out'));
    assert |out| == |Keys(out)| == |out'|;
    forall i | 0 <= i < |out|
      ensures out[i] == out'[i]
    {
      assert out[i].mac == Keys(out)[i] == out'[i].mac;
      assert out[i] in out && out'[i] in out';
      ChoiceUnique(out[i].ip, out'[i].ip, Candidates(pairs, out[i].mac), stored(out[i].mac));
    }
  }

  // Every table collapses to some list.

  function CandidateList(pairs: seq<Pair>, mac: string): seq<Ipv4> {
    if pairs == [] then []
    else (if pairs[0].mac == mac then [pairs[0].ip] else []) + CandidateList(pairs[1..], mac)
  }

  lemma {:induction false} CandidatesListed(pairs: seq<Pair>, mac: string)
    ensures SetOf(CandidateList(pairs, mac)) == Candidates(pairs, mac)
    ensures mac in MacsOf(pairs) ==> CandidateList(pairs, mac) != []
  {
    if pairs != [] {
      var first, rest := pairs[0], pairs[1..];
      CandidatesListed(rest, mac);
      assert forall p :: p in pairs <==> p == first || p in rest;
      var mine := if first.mac == mac then [first.ip] else [];
      assert SetOf(mine + CandidateList(rest, mac)) == SetOf(mine) + SetOf(CandidateList(rest, mac));
      assert Candidates(pairs, mac) == SetOf(mine) + Candidates(rest, mac);
    }
  }

  lemma {:induction false} CollapseOf(pairs: seq<Pair>, stored: string -> Option<Ipv4>, macs: set<string>)
    returns (out: seq<Pair>)
    requires macs <= MacsOf(pairs)
    ensures Ascending(Keys(out)) && MacsOf(out) == macs
    ensures forall o :: o in out ==> IsChoice(o.ip, Candidates(pairs, o.mac), stored(o.mac))
    decreases |macs|
  {
    out := [];
    if macs != {} {
      var least := LeastExists(macs);
      var rest := CollapseOf(pairs, stored, macs - {least});
      CandidatesListed(pairs, least);
      var first := Pair(least, ChooseIp(CandidateList(pairs, least), stored(least)));
      assert forall o :: o in rest ==> o.mac in MacsOf(rest);
      Preceded(first, rest);
      out := [first] + rest;
    }
  }

  lemma Preceded(first: Pair, rest: seq<Pair>)
    requires Ascending(Keys(rest)) && forall o :: o in rest ==> Less(first.mac, o.mac)
    ensures Ascending(Keys([first] + rest)) && MacsOf([first] + rest) == {first.mac} + MacsOf(rest)
  {
    var keys := Keys([first] + rest);
    forall i, j | 0 <= i < j < |keys|
      ensures Less(keys[i], keys[j])
    {
      assert keys[j] == Keys(rest)[j - 1] && rest[j - 1] in rest;
      if i > 0 {
        assert keys[i] == Keys(rest)[i - 1];
      }
    }
  }

  lemma CollapseExists(pairs: seq<Pair>, stored: string -> Option<Ipv4>)
    ensures exists out :: Collapsed(pairs, stored, out)
  {
    var out := CollapseOf(pairs, stored, MacsOf(pairs));
    assert Collapsed(pairs, stored, out);
  }

  ghost function Collapse(pairs: seq<Pair>, stored: string -> Option<Ipv4>): (out: seq<Pair>)
    ensures Collapsed(pairs, stored, out)
  {
    CollapseExists(pairs, stored);
    var out :| Collapsed(pairs, stored, out);
    out
  }

  lemma KeysAreMacs(out: seq<Pair>)
    ensures forall m :: m in Keys(out) <==> m in MacsOf(out)
  {
    assert forall i :: 0 <= i < |out| ==> Keys(out)[i] == out[i].mac;
    forall p | p in out
      ensures p.mac in Keys(out)
    {
      var i :| 0 <= i < |out| && out[i] == p;
      assert Keys(out)[i] == p.mac;
    }
  }

  lemma ChoiceUnique(x: Ipv4, y: Ipv4, candidates: set<Ipv4>, stored: Option<Ipv4>)
    requires IsChoice(x, candidates, stored) && IsChoice(y, candidates, stored)
    ensures x == y
  {
    if !(stored.Some? && stored.value in candidates) {
      IpNumberInjective(x, y);
    }
  }
}
