// The DHCP snooper's packet parser (RFC 2131 section 2 for the header, RFC 2132 sections 2, 3 and
// 9 for the options).

module Dhcp {
  import opened Options
  import opened Text
  import opened Network

  const OP_OFFSET := 0
  const HTYPE_OFFSET := 1
  const HLEN_OFFSET := 2
  const CIADDR_OFFSET := 12
  const CHADDR_OFFSET := 28
  const MAGIC_COOKIE_OFFSET := 236
  const OPTIONS_OFFSET := 240
  const MAGIC_COOKIE: seq<Byte> := [99, 130, 83, 99]
  const PAD := 0
  const END := 255
  const HOSTNAME := 12
  const REQUESTED_IP := 50
  const MESSAGE_TYPE := 53
  const DISCOVER := 1
  const REQUEST := 3

  datatype Discovery = Discovery(mac: string, hostname: Option<string>, ipHint: Option<Ipv4>)

  // ---- What a packet means ----

  // One option: its code and its value.
  datatype Field = Field(code: Byte, value: seq<Byte>)

  // The options of `buf` from index `i`, up to END or the first one that is not fully present.
  function Fields(buf: seq<Byte>, i: nat): seq<Field>
    decreases |buf| - i
  {
    if i >= |buf| || buf[i] == END then []
    else if buf[i] == PAD then Fields(buf, i + 1)
    else if i + 1 >= |buf| || i + 2 + buf[i + 1] > |buf| then []
    else [Field(buf[i], buf[i + 2..i + 2 + buf[i + 1]])] + Fields(buf, i + 2 + buf[i + 1])
  }

  // The last field that carries the wanted information decides.
  function Last<T>(fields: seq<Field>, read: Field -> Option<T>): Option<T> {
    if fields == [] then None
    else if read(fields[|fields| - 1]).Some? then read(fields[|fields| - 1])
    else Last(fields[..|fields| - 1], read)
  }

  // The last field of a kind.
  ghost predicate LastOne(fields: seq<Field>, k: nat, kind: Field -> bool) {
    k < |fields| && kind(fields[k]) && forall later :: k < later < |fields| ==> !kind(fields[later])
  }

  // A reader that reads exactly the fields of a kind is decided by the last of them.
  lemma {:induction false} LastReads<T>(fields: seq<Field>, read: Field -> Option<T>, kind: Field -> bool)
    requires forall f :: f in fields ==> (read(f).Some? <==> kind(f))
    ensures (forall f :: f in fields ==> !kind(f)) ==> Last(fields, read) == None
    ensures forall k: nat :: LastOne(fields, k, kind) ==> Last(fields, read) == read(fields[k])
  {
    if fields != [] {
      hide Last;
      var init, last := fields[..|fields| - 1], fields[|fields| - 1];
      assert fields == init + [last] && last in fields;
      LastReads(init, read, kind);
      LastAppend(init, last, read);
      forall k: nat | LastOne(fields, k, kind)
        ensures Last(fields, read) == read(fields[k])
      {
        if k < |init| {
          assert LastOne(init, k, kind);
        }
      }
    }
  }

  lemma LastAppend<T>(fields: seq<Field>, f: Field, read: Field -> Option<T>)
    ensures Last(fields + [f], read) == if read(f).Some? then read(f) else Last(fields, read)
  {
    assert (fields + [f])[..|fields|] == fields;
  }

  lemma {:induction false} LastDecides<T>(fields: seq<Field>, read: Field -> Option<T>)
    ensures Last(fields, read).None? <==> forall f :: f in fields ==> read(f).None?
    ensures Last(fields, read).Some? ==>
      exists k :: 0 <= k < |fields| && read(fields[k]) == Last(fields, read)
        && forall later :: k < later < |fields| ==> read(fields[later]).None?
  {
    if fields != [] {
      var init, last := fields[..|fields| - 1], fields[|fields| - 1];
      hide Last;
      LastDecides(init, read);
      LastAppend(init, last, read);
      assert fields == init + [last];
      if read(last).None? && Last(init, read).Some? {
        var k :| 0 <= k < |init| && read(init[k]) == Last(init, read)
          && forall later :: k < later < |init| ==> read(init[later]).None?;
        assert read(fields[k]) == Last(fields, read);
      }
    }
  }

  function MessageType(f: Field): Option<Byte> {
    if f.code == MESSAGE_TYPE && f.value != [] then Some(f.value[0]) else None
  }

  function RequestedIp(f: Field): Option<Ipv4> {
    if f.code == REQUESTED_IP && |f.value| == 4 then Some(Ipv4(f.value[0], f.value[1], f.value[2], f.value[3])) else None
  }

  function TrimNulStart(s: string): string {
    if s != [] && s[0] == '\0' then TrimNulStart(s[1..]) else s
  }

  function TrimNulEnd(s: string): string {
    if s != [] && s[|s| - 1] == '\0' then TrimNulEnd(s[..|s| - 1]) else s
  }

  // `utf8` is the standard library's decoder: the text of a valid byte string, else nothing.
  function HostName(utf8: seq<Byte> -> Option<string>, f: Field): Option<string> {
    if f.code == HOSTNAME && utf8(f.value).Some? then
      var name := Trim(TrimNulEnd(TrimNulStart(utf8(f.value).value)));
      if name == "" then None else Some(name)
    else None
  }

  function HostNameReader(utf8: seq<Byte> -> Option<string>): Field -> Option<string> {
    f => HostName(utf8, f)
  }

  // ---- The same, in the numbers of the standard ----

  // Option 53 with a value: the message type.
  predicate IsMessageType(f: Field) {
    f.code == 53 && f.value != []
  }

  // Option 50 with four bytes: the requested address.
  predicate IsRequestedIp(f: Field) {
    f.code == 50 && |f.value| == 4
  }

  function Stripped(text: string): string {
    Trim(TrimNulEnd(TrimNulStart(text)))
  }

  // Option 12 with text that is not blank: the host name.
  predicate IsHostName(utf8: seq<Byte> -> Option<string>, f: Field) {
    f.code == 12 && utf8(f.value).Some? && Stripped(utf8(f.value).value) != ""
  }

  // An Ethernet client's request, with the magic cookie before its options.
  predicate FromClient(buf: seq<Byte>) {
    |buf| >= 240 && buf[0] == 1 && buf[1] == 1 && buf[2] == 6 && buf[236..240] == [99, 130, 83, 99]
  }

  // A discovery is made of a client's DISCOVER or REQUEST alone, by its last message type.
  ghost predicate Announces(buf: seq<Byte>, fields: seq<Field>) {
    FromClient(buf) && exists k: nat :: LastOne(fields, k, IsMessageType) && fields[k].value[0] in {1, 3}
  }

  // It has the hardware address; the client's own address, else the one it last requested, if any; and
  // the last host name given that is not blank, if any.
  ghost predicate Tells(buf: seq<Byte>, fields: seq<Field>, utf8: seq<Byte> -> Option<string>, d: Discovery)
    requires |buf| >= 240
  {
    && d.mac == FormatMac(buf[28..34])
    && (buf[12..16] != [0, 0, 0, 0] ==> d.ipHint == Some(Ipv4(buf[12], buf[13], buf[14], buf[15])))
    && (buf[12..16] == [0, 0, 0, 0] ==>
          && ((forall f :: f in fields ==> !IsRequestedIp(f)) ==> d.ipHint == None)
          && forall k: nat :: LastOne(fields, k, IsRequestedIp) ==>
               var v := fields[k].value; d.ipHint == Some(Ipv4(v[0], v[1], v[2], v[3])))
    && ((forall f :: f in fields ==> !IsHostName(utf8, f)) ==> d.hostname == None)
    && forall k: nat :: LastOne(fields, k, (f: Field) => IsHostName(utf8, f)) ==>
         d.hostname == Some(Stripped(utf8(fields[k].value).value))
  }

  // Leading and trailing NULs come off, and nothing else.
  lemma NulsStripped(s: string) returns (head: string, tail: string)
    ensures s == head + TrimNulEnd(TrimNulStart(s)) + tail
    ensures forall i :: 0 <= i < |head| ==> head[i] as int == 0
    ensures forall i :: 0 <= i < |tail| ==> tail[i] as int == 0
    ensures var r := TrimNulEnd(TrimNulStart(s)); r != [] ==> r[0] as int != 0 && r[|r| - 1] as int != 0
  {
    head := NulStartStripped(s);
    tail := NulEndStripped(TrimNulStart(s));
  }

  lemma {:induction false} NulStartStripped(s: string) returns (head: string)
    ensures s == head + TrimNulStart(s) && forall i :: 0 <= i < |head| ==> head[i] as int == 0
    ensures TrimNulStart(s) != [] ==> TrimNulStart(s)[0] as int != 0
  {
    head := [];
    if s != [] && s[0] == '\0' {
      var rest := NulStartStripped(s[1..]);
      head := [s[0]] + rest;
    }
  }

  lemma {:induction false} NulEndStripped(s: string) returns (tail: string)
    ensures s == TrimNulEnd(s) + tail && forall i :: 0 <= i < |tail| ==> tail[i] as int == 0
    ensures TrimNulEnd(s) != [] ==> TrimNulEnd(s)[0] == s[0] && TrimNulEnd(s)[|TrimNulEnd(s)| - 1] as int != 0
  {
    tail := [];
    if s != [] && s[|s| - 1] == '\0' {
      var rest := NulEndStripped(s[..|s| - 1]);
      tail := rest + [s[|s| - 1]];
    }
  }

  predicate ClientRequest(buf: seq<Byte>) {
    && |buf| >= OPTIONS_OFFSET
    && buf[OP_OFFSET] == 1 && buf[HTYPE_OFFSET] == 1 && buf[HLEN_OFFSET] == 6
    && buf[MAGIC_COOKIE_OFFSET..OPTIONS_OFFSET] == MAGIC_COOKIE
  }

  function ClientAddress(buf: seq<Byte>): Ipv4
    requires |buf| >= OPTIONS_OFFSET
  {
    Ipv4(buf[CIADDR_OFFSET], buf[CIADDR_OFFSET + 1], buf[CIADDR_OFFSET + 2], buf[CIADDR_OFFSET + 3])
  }

  function Parsed(buf: seq<Byte>, fields: seq<Field>, utf8: seq<Byte> -> Option<string>): Option<Discovery> {
    if !ClientRequest(buf) then None
    else
      var kind := Last(fields, MessageType);
      if kind != Some(DISCOVER) && kind != Some(REQUEST) then None
      else
        Some(Discovery(
          FormatMac(buf[CHADDR_OFFSET..CHADDR_OFFSET + 6]),
          Last(fields, HostNameReader(utf8)),
          if ClientAddress(buf) != Ipv4(0, 0, 0, 0) then Some(ClientAddress(buf)) else Last(fields, RequestedIp)))
  }

  // The options before index `i` are those walked.
  predicate Walked(buf: seq<Byte>, i: nat, walked: seq<Field>) {
    walked + Fields(buf, i) == Fields(buf, OPTIONS_OFFSET)
  }

  lemma WalkStarts(buf: seq<Byte>)
    ensures Walked(buf, OPTIONS_OFFSET, [])
  {
  }

  lemma WalkedPads(buf: seq<Byte>, i: nat, walked: seq<Field>)
    requires Walked(buf, i, walked) && i < |buf| && buf[i] == PAD
    ensures Walked(buf, i + 1, walked)
  {
    WalkPads(buf, i);
  }

  lemma WalkedOn(buf: seq<Byte>, i: nat, walked: seq<Field>)
    requires Walked(buf, i, walked) && !Stops(buf, i) && buf[i] != PAD
    ensures Walked(buf, i + 2 + buf[i + 1], walked + [FieldAt(buf, i)])
  {
    WalkOn(buf, i);
    var f, rest := FieldAt(buf, i), Fields(buf, i + 2 + buf[i + 1]);
    assert walked + ([f] + rest) == walked + [f] + rest;
  }

  lemma WalkedAll(buf: seq<Byte>, i: nat, walked: seq<Field>)
    requires Walked(buf, i, walked) && Stops(buf, i)
    ensures walked == Fields(buf, OPTIONS_OFFSET)
  {
    WalkStops(buf, i);
  }

  lemma NothingRead(utf8: seq<Byte> -> Option<string>)
    ensures Last([], MessageType) == None && Last([], HostNameReader(utf8)) == None && Last([], RequestedIp) == None
  {
  }

  // The parser's reading of a packet is the one in the numbers of the standard.

  lemma TypeDecides(fields: seq<Field>)
    ensures var kind := Last(fields, MessageType);
      (kind == Some(DISCOVER) || kind == Some(REQUEST))
      <==> exists k: nat :: LastOne(fields, k, IsMessageType) && fields[k].value[0] in {1, 3}
  {
    LastReads(fields, MessageType, IsMessageType);
    if exists f :: f in fields && IsMessageType(f) {
      var k := LastOneExists(fields, IsMessageType);
    }
  }

  lemma {:induction false} LastOneExists(fields: seq<Field>, kind: Field -> bool) returns (k: nat)
    requires exists f :: f in fields && kind(f)
    ensures LastOne(fields, k, kind)
  {
    var init, last := fields[..|fields| - 1], fields[|fields| - 1];
    assert fields == init + [last];
    if kind(last) {
      k := |init|;
    } else {
      var f :| f in fields && kind(f);
      assert f in init;
      k := LastOneExists(init, kind);
    }
  }

  lemma ParsedAnnounces(buf: seq<Byte>, fields: seq<Field>, utf8: seq<Byte> -> Option<string>)
    ensures Parsed(buf, fields, utf8).Some? <==> Announces(buf, fields)
  {
    TypeDecides(fields);
    assert ClientRequest(buf) <==> FromClient(buf);
  }

  lemma ParsedTells(buf: seq<Byte>, fields: seq<Field>, utf8: seq<Byte> -> Option<string>)
    requires Parsed(buf, fields, utf8).Some?
    ensures |buf| >= 240 && Tells(buf, fields, utf8, Parsed(buf, fields, utf8).value)
  {
    var d := Parsed(buf, fields, utf8).value;
    AddressGiven(buf);
    LastReads(fields, RequestedIp, IsRequestedIp);
    var named := (f: Field) => IsHostName(utf8, f);
    forall f | f in fields
      ensures HostNameReader(utf8)(f).Some? <==> named(f)
      ensures named(f) ==> HostNameReader(utf8)(f) == Some(Stripped(utf8(f.value).value))
    {
    }
    LastReads(fields, HostNameReader(utf8), named);
  }

  lemma ParsedMeans(buf: seq<Byte>, fields: seq<Field>, utf8: seq<Byte> -> Option<string>)
    ensures Parsed(buf, fields, utf8).Some? <==> Announces(buf, fields)
    ensures Parsed(buf, fields, utf8).Some? ==> |buf| >= 240 && Tells(buf, fields, utf8, Parsed(buf, fields, utf8).value)
  {
    ParsedAnnounces(buf, fields, utf8);
    if Parsed(buf, fields, utf8).Some? {
      ParsedTells(buf, fields, utf8);
    }
  }

  lemma AddressGiven(buf: seq<Byte>)
    requires |buf| >= 240
    ensures ClientAddress(buf) == Ipv4(buf[12], buf[13], buf[14], buf[15])
    ensures ClientAddress(buf) == Ipv4(0, 0, 0, 0) <==> buf[12..16] == [0, 0, 0, 0]
  {
    assert buf[12..16] == [buf[12], buf[13], buf[14], buf[15]];
  }

  // What one more option decides.
  lemma OptionRead(walked: seq<Field>, f: Field, utf8: seq<Byte> -> Option<string>)
    ensures Last(walked + [f], MessageType) == if MessageType(f).Some? then MessageType(f) else Last(walked, MessageType)
    ensures Last(walked + [f], HostNameReader(utf8))
         == if HostName(utf8, f).Some? then HostName(utf8, f) else Last(walked, HostNameReader(utf8))
    ensures Last(walked + [f], RequestedIp) == if RequestedIp(f).Some? then RequestedIp(f) else Last(walked, RequestedIp)
  {
    assert HostNameReader(utf8)(f) == HostName(utf8, f);
    LastAppend(walked, f, MessageType);
    LastAppend(walked, f, HostNameReader(utf8));
    LastAppend(walked, f, RequestedIp);
  }

  // The three ways the walk can go at an index.

  predicate Stops(buf: seq<Byte>, i: nat) {
    i >= |buf| || buf[i] == END || (buf[i] != PAD && (i + 1 >= |buf| || i + 2 + buf[i + 1] > |buf|))
  }

  function FieldAt(buf: seq<Byte>, i: nat): Field
    requires !Stops(buf, i) && buf[i] != PAD
  {
    Field(buf[i], buf[i + 2..i + 2 + buf[i + 1]])
  }

  lemma WalkStops(buf: seq<Byte>, i: nat)
    requires Stops(buf, i)
    ensures Fields(buf, i) == []
  {
  }

  lemma WalkPads(buf: seq<Byte>, i: nat)
    requires i < |buf| && buf[i] == PAD
    ensures Fields(buf, i) == Fields(buf, i + 1)
  {
  }

  lemma WalkOn(buf: seq<Byte>, i: nat)
    requires !Stops(buf, i) && buf[i] != PAD
    ensures Fields(buf, i) == [FieldAt(buf, i)] + Fields(buf, i + 2 + buf[i + 1])
  {
  }

  // ---- The code ----

  method ParsePacket(buf: seq<Byte>, utf8: seq<Byte> -> Option<string>) returns (r: Option<Discovery>)
    ensures r == Parsed(buf, Fields(buf, 240), utf8)
    ensures r.Some? <==> Announces(buf, Fields(buf, 240))
    ensures r.Some? ==> |buf| >= 240 && Tells(buf, Fields(buf, 240), utf8, r.value)
  {
    hide Announces, Tells, Fields, Last, FormatMac, Trim, TrimNulStart, TrimNulEnd, Walked;
    ParsedMeans(buf, Fields(buf, 240), utf8);
    if |buf| < OPTIONS_OFFSET {
      return None;
    }
    if buf[OP_OFFSET] != 1 || buf[HTYPE_OFFSET] != 1 || buf[HLEN_OFFSET] != 6 {
      return None;
    }
    if buf[MAGIC_COOKIE_OFFSET..OPTIONS_OFFSET] != MAGIC_COOKIE {
      return None;
    }
    var mac := FormatMac(buf[CHADDR_OFFSET..CHADDR_OFFSET + 6]);
    var ciaddr := Ipv4(buf[CIADDR_OFFSET], buf[CIADDR_OFFSET + 1], buf[CIADDR_OFFSET + 2], buf[CIADDR_OFFSET + 3]);

    var messageType: Option<Byte> := None;
    var hostname: Option<string> := None;
    var requestedIp: Option<Ipv4> := None;
    ghost var walked: seq<Field> := [];
    WalkStarts(buf);
    NothingRead(utf8);
    var i := OPTIONS_OFFSET;
    while i < |buf|
      invariant OPTIONS_OFFSET <= i <= |buf|
      invariant Walked(buf, i, walked)
      invariant messageType == Last(walked, MessageType)
      invariant hostname == Last(walked, HostNameReader(utf8))
      invariant requestedIp == Last(walked, RequestedIp)
    {
      var code := buf[i];
      if code == END {
        break;
      }
      if code == PAD {
        WalkedPads(buf, i, walked);
        i := i + 1;
        continue;
      }
      if i + 1 >= |buf| {
        break;
      }
      var len := buf[i + 1];
      var valueStart := i + 2;
      var valueEnd := valueStart + len;
      if valueEnd > |buf| {
        break;
      }
      var value := buf[valueStart..valueEnd];
      if code == MESSAGE_TYPE {
        if |value| > 0 {
          messageType := Some(value[0]);
        }
      } else if code == HOSTNAME {
        var decoded := utf8(value);
        if decoded.Some? {
          var name := Trim(TrimNulEnd(TrimNulStart(decoded.value)));
          if name != "" {
            hostname := Some(name);
          }
        }
      } else if code == REQUESTED_IP && |value| == 4 {
        requestedIp := Some(Ipv4(value[0], value[1], value[2], value[3]));
      }
      ghost var f := Field(code, value);
      OptionRead(walked, f, utf8);
      WalkedOn(buf, i, walked);
      walked := walked + [f];
      i := valueEnd;
    }
    WalkedAll(buf, i, walked);
    if messageType != Some(DISCOVER) && messageType != Some(REQUEST) {
      return None;
    }
    var ipHint := if ciaddr != Ipv4(0, 0, 0, 0) then Some(ciaddr) else requestedIp;
    r := Some(Discovery(mac, hostname, ipHint));
  }

  // ---- Encoding ----

  datatype Item = Padding | Coded(field: Field)

  predicate Encodable(item: Item) {
    item.Coded? ==> item.field.code != 0 && item.field.code != 255 && |item.field.value| < 256
  }

  function EncodeItem(item: Item): seq<Byte>
    requires Encodable(item)
  {
    match item
    case Padding => [0]
    case Coded(f) => [f.code, |f.value|] + f.value
  }

  function Encode(items: seq<Item>): seq<Byte>
    requires forall item :: item in items ==> Encodable(item)
  {
    if items == [] then [] else EncodeItem(items[0]) + Encode(items[1..])
  }

  function CodedFields(items: seq<Item>): seq<Field> {
    if items == [] then []
    else (if items[0].Coded? then [items[0].field] else []) + CodedFields(items[1..])
  }

  lemma FieldAhead(header: seq<Byte>, item: Item, rest: seq<Byte>)
    requires Encodable(item)
    ensures var buf, next := header + EncodeItem(item) + rest, |header + EncodeItem(item)|;
      Fields(buf, |header|) == (if item.Coded? then [item.field] else []) + Fields(buf, next)
  {
    hide Fields;
    var head := EncodeItem(item);
    var buf := header + head + rest;
    assert buf[|header|] == head[0];
    if item.Coded? {
      var f := item.field;
      assert buf[|header| + 1] == head[1] == |f.value|;
      assert buf[|header| + 2..|header| + 2 + |f.value|] == f.value;
      WalkOn(buf, |header|);
    } else {
      WalkPads(buf, |header|);
    }
  }

  lemma Regroup(a: seq<Byte>, b: seq<Byte>, c: seq<Byte>, d: seq<Byte>)
    ensures a + (b + c) + d == a + b + c + d == a + b + (c + d)
  {
  }

  // Options are found again behind any header, among any padding, before any trailer.
  lemma {:induction false} EncodedFields(header: seq<Byte>, items: seq<Item>, trailer: seq<Byte>)
    requires forall item :: item in items ==> Encodable(item)
    requires trailer == [] || trailer[0] == 255
    ensures Fields(header + Encode(items) + trailer, |header|) == CodedFields(items)
    decreases |items|
  {
    if items == [] {
      assert header + Encode(items) + trailer == header + trailer;
      assert trailer != [] ==> (header + trailer)[|header|] == trailer[0];
    } else {
      var head, rest := EncodeItem(items[0]), Encode(items[1..]);
      EncodedFields(header + head, items[1..], trailer);
      Regroup(header, head, rest, trailer);
      FieldAhead(header, items[0], rest + trailer);
    }
  }

  // Cutting a packet short never changes an option: it only loses some at the end.
  lemma {:induction false} TruncatedFields(buf: seq<Byte>, n: nat, i: nat)
    requires i <= n <= |buf|
    ensures Fields(buf[..n], i) <= Fields(buf, i)
    decreases n - i
  {
    hide Fields;
    var cut := buf[..n];
    if Stops(cut, i) {
      WalkStops(cut, i);
    } else {
      assert cut[i] == buf[i];
      if buf[i] == PAD {
        WalkPads(cut, i);
        WalkPads(buf, i);
        TruncatedFields(buf, n, i + 1);
      } else {
        assert cut[i + 1] == buf[i + 1];
        assert FieldAt(cut, i) == FieldAt(buf, i);
        WalkOn(cut, i);
        WalkOn(buf, i);
        TruncatedFields(buf, n, i + 2 + buf[i + 1]);
      }
    }
  }

  // Main result: a well-formed header followed by any options, padding and trailer is parsed to
  // exactly what its options say, and the printed hardware address is the one in the packet.
  lemma PacketRoundTrip(header: seq<Byte>, items: seq<Item>, trailer: seq<Byte>, utf8: seq<Byte> -> Option<string>)
    requires |header| == 240 && FromClient(header)
    requires forall item :: item in items ==> Encodable(item)
    requires trailer == [] || trailer[0] == 255
    ensures var buf, fields := header + Encode(items) + trailer, CodedFields(items);
      var r := Parsed(buf, Fields(buf, 240), utf8);
      && (r.Some? <==> exists k: nat :: LastOne(fields, k, IsMessageType) && fields[k].value[0] in {1, 3})
      && (r.Some? ==> Tells(header, fields, utf8, r.value))
      && (r.Some? ==> ParseMac(r.value.mac) == Some(header[28..34]))
  {
    EncodedFields(header, items, trailer);
    HeaderFirst(header, Encode(items), trailer);
    HeaderDecides(header, Encode(items) + trailer, CodedFields(items), utf8);
    ParsedMeans(header, CodedFields(items), utf8);
    MacRoundTrip(header[28..34]);
  }

  lemma HeaderFirst(header: seq<Byte>, options: seq<Byte>, trailer: seq<Byte>)
    ensures header + options + trailer == header + (options + trailer)
  {
  }

  lemma HeaderDecides(header: seq<Byte>, rest: seq<Byte>, fields: seq<Field>, utf8: seq<Byte> -> Option<string>)
    requires |header| == OPTIONS_OFFSET
    ensures Parsed(header + rest, fields, utf8) == Parsed(header, fields, utf8)
  {
    var buf := header + rest;
    assert buf[MAGIC_COOKIE_OFFSET..OPTIONS_OFFSET] == header[MAGIC_COOKIE_OFFSET..OPTIONS_OFFSET];
    assert buf[CHADDR_OFFSET..CHADDR_OFFSET + 6] == header[CHADDR_OFFSET..CHADDR_OFFSET + 6];
    assert ClientAddress(buf) == ClientAddress(header);
  }
}
