// The SSDP NOTIFY parser (UPnP Device Architecture 1.1, section 1.2.2), on decoded text.

module Ssdp {
  import opened Options
  import opened Text

  datatype Announcement = Announcement(server: Option<string>, deviceTypes: seq<string>)

  function StripReturn(line: string): string {
    if line != [] && line[|line| - 1] == '\r' then line[..|line| - 1] else line
  }

  function StripAll(lines: seq<string>): (r: seq<string>)
    ensures |r| == |lines|
  {
    if lines == [] then [] else [StripReturn(lines[0])] + StripAll(lines[1..])
  }

  function Lines(text: string): (r: seq<string>)
    ensures |r| >= 1
  {
    StripAll(Split(text, '\n'))
  }

  function UpperChar(c: char): char {
    if 'a' <= c <= 'z' then (c as int - 32) as char else c
  }

  const NOTIFY: string := "NOTIFY "

  predicate StartsNotify(line: string) {
    |line| >= |NOTIFY| && forall i :: 0 <= i < |NOTIFY| ==> UpperChar(line[i]) == NOTIFY[i]
  }

  // The text before the first colon and after it.

  function Before(line: string): string {
    if line == [] || line[0] == ':' then [] else [line[0]] + Before(line[1..])
  }

  function After(line: string): string {
    if line == [] then [] else if line[0] == ':' then line[1..] else After(line[1..])
  }

  // ---- What a packet means ----

  function Key(line: string): string {
    Lower(Trim(Before(line)))
  }

  function Value(line: string): string {
    Trim(After(line))
  }

  function ValueOf(line: string, key: string): seq<string> {
    if ':' in line && Value(line) != "" && Key(line) == key then [Value(line)] else []
  }

  // The non-empty values of one header, in order.
  function Values(lines: seq<string>, key: string): seq<string> {
    if lines == [] then [] else Values(lines[..|lines| - 1], key) + ValueOf(lines[|lines| - 1], key)
  }

  function LastOf(values: seq<string>): Option<string> {
    if values == [] then None else Some(values[|values| - 1])
  }

  predicate Alive(nts: Option<string>) {
    nts.Some? && Lower(nts.value) in {"ssdp:alive", "ssdp:update"}
  }

  // The last of these values says that the device is there, in any letter case.
  predicate SaysAlive(values: seq<string>) {
    values != [] && (SameUpToCase(values[|values| - 1], "ssdp:alive") || SameUpToCase(values[|values| - 1], "ssdp:update"))
  }

  // The text starts a NOTIFY request, in any letter case.
  predicate SaysNotify(line: string) {
    |line| >= 7 && SameUpToCase(line[..7], "NOTIFY ")
  }

  lemma AliveIff(values: seq<string>)
    ensures Alive(LastOf(values)) <==> SaysAlive(values)
  {
    assert Lower("ssdp:alive") == "ssdp:alive" && Lower("ssdp:update") == "ssdp:update";
    if values != [] {
      LowerFolds(values[|values| - 1], "ssdp:alive");
      LowerFolds(values[|values| - 1], "ssdp:update");
    }
  }

  lemma UpperLetter(a: char, b: char)
    requires UpperChar(b) == b
    ensures UpperChar(a) == b <==> SameLetter(a, b)
  {
  }

  lemma NotifyIff(line: string)
    ensures StartsNotify(line) <==> SaysNotify(line)
  {
    assert NOTIFY == "NOTIFY ";
    if |line| >= 7 {
      forall i | 0 <= i < 7
        ensures UpperChar(line[i]) == NOTIFY[i] <==> SameLetter(line[i], "NOTIFY "[i])
      {
        UpperLetter(line[i], NOTIFY[i]);
      }
    }
  }

  // A departure, or no NTS at all, is no announcement.
  lemma NotAlive(values: seq<string>)
    requires values == [] || SameUpToCase(values[|values| - 1], "ssdp:byebye")
    ensures !SaysAlive(values)
  {
    if values != [] {
      assert |"ssdp:byebye"| == 11 && |"ssdp:alive"| == 10 && |"ssdp:update"| == 11;
      assert "ssdp:byebye"[5] == 'b' && "ssdp:update"[5] == 'u';
    }
  }

  // The announcement of a NOTIFY whose last non-empty NTS says the device is there: its last
  // non-empty SERVER and every non-empty NT.
  function Announced(lines: seq<string>): Option<Announcement>
    requires |lines| >= 1
  {
    var headers := lines[1..];
    if StartsNotify(lines[0]) && Alive(LastOf(Values(headers, "nts")))
    then Some(Announcement(LastOf(Values(headers, "server")), Values(headers, "nt")))
    else None
  }

  lemma AnnouncedIff(lines: seq<string>)
    requires |lines| >= 1
    ensures Announced(lines).Some? <==> SaysNotify(lines[0]) && SaysAlive(Values(lines[1..], "nts"))
  {
    NotifyIff(lines[0]);
    AliveIff(Values(lines[1..], "nts"));
  }

  // ---- The code ----

  method ParseAnnouncement(text: string) returns (r: Option<Announcement>)
    ensures r == Announced(Lines(text))
    ensures r.Some? <==> SaysNotify(Lines(text)[0]) && SaysAlive(Values(Lines(text)[1..], "nts"))
  {
    var lines := Lines(text);
    hide SaysAlive, SaysNotify, StartsNotify, Lines, Values, Trim, Before, After, Lower;
    AnnouncedIff(lines);
    NothingRead();
    if !StartsNotify(lines[0]) {
      return None;
    }
    var headers := lines[1..];
    var server: Option<string> := None;
    var deviceTypes: seq<string> := [];
    var nts: Option<string> := None;
    ghost var lastNts: Option<string> := None;
    var i := 0;
    while i < |headers|
      invariant 0 <= i <= |headers|
      invariant server == LastOf(Values(headers[..i], "server"))
      invariant deviceTypes == Values(headers[..i], "nt")
      invariant lastNts == LastOf(Values(headers[..i], "nts"))
      invariant nts == if lastNts.Some? then Some(Lower(lastNts.value)) else None
    {
      var line := headers[i];
      LineRead(headers, i);
      i := i + 1;
      if line == "" {
        continue;
      }
      var key := Lower(Trim(Before(line)));
      if ':' !in line {
        continue;
      }
      var value := Trim(After(line));
      if value == "" {
        continue;
      }
      if key == "nts" {
        nts := Some(Lower(value));
        lastNts := Some(value);
      } else if key == "nt" {
        deviceTypes := deviceTypes + [value];
      } else if key == "server" {
        server := Some(value);
      }
    }
    assert headers[..i] == headers;
    if nts == Some("ssdp:alive") || nts == Some("ssdp:update") {
      return Some(Announcement(server, deviceTypes));
    }
    r := None;
  }

  lemma NothingRead()
    ensures Values([], "nts") == [] && Values([], "nt") == [] && Values([], "server") == []
  {
  }

  // What one more header line adds.
  lemma LineRead(headers: seq<string>, i: nat)
    requires i < |headers|
    ensures var past, now, line := headers[..i], headers[..i + 1], headers[i];
      && Values(now, "nt") == Values(past, "nt") + ValueOf(line, "nt")
      && LastOf(Values(now, "nts")) == Latest(Values(past, "nts"), ValueOf(line, "nts"))
      && LastOf(Values(now, "server")) == Latest(Values(past, "server"), ValueOf(line, "server"))
  {
    assert headers[..i + 1] == headers[..i] + [headers[i]];
    ValuesAppend(headers[..i], headers[i], "nt");
    ValuesAppend(headers[..i], headers[i], "nts");
    ValuesAppend(headers[..i], headers[i], "server");
  }

  function Latest(past: seq<string>, more: seq<string>): Option<string> {
    if more == [] then LastOf(past) else LastOf(more)
  }

  lemma ValuesAppend(lines: seq<string>, line: string, key: string)
    ensures Values(lines + [line], key) == Values(lines, key) + ValueOf(line, key)
  {
    assert (lines + [line])[..|lines|] == lines;
  }

  // ---- Rendering and parsing back ----

  datatype Header = Header(name: string, value: string)

  // Any name without colon or line feed, any value without line feed, white space included.
  predicate Renderable(h: Header) {
    ':' !in h.name && '\n' !in h.name && '\n' !in h.value
  }

  function RenderHeader(h: Header): string {
    h.name + ":" + h.value + "\r"
  }

  function RenderHeaders(headers: seq<Header>): string {
    if headers == [] then "\r\n" else RenderHeader(headers[0]) + ['\n'] + RenderHeaders(headers[1..])
  }

  const REQUEST_LINE: string := "NOTIFY * HTTP/1.1"

  function Render(headers: seq<Header>): string {
    REQUEST_LINE + "\r" + ['\n'] + RenderHeaders(headers)
  }

  function Named(headers: seq<Header>, key: string): seq<string> {
    if headers == [] then []
    else
      var h, rest := headers[0], Named(headers[1..], key);
      if Lower(Trim(h.name)) == key && Trim(h.value) != "" then [Trim(h.value)] + rest else rest
  }

  function Plain(headers: seq<Header>): seq<string> {
    if headers == [] then ["", ""] else [headers[0].name + ":" + headers[0].value] + Plain(headers[1..])
  }

  lemma {:induction false} RenderedLines(headers: seq<Header>)
    requires forall h :: h in headers ==> Renderable(h)
    ensures StripAll(Split(RenderHeaders(headers), '\n')) == Plain(headers)
  {
    if headers == [] {
      SplitAtSeparator("\r", '\n', "");
      assert "\r" + ['\n'] + "" == "\r\n";
      assert Split("\r\n", '\n') == ["\r"] + Split("", '\n') == ["\r", ""];
    } else {
      RenderedLines(headers[1..]);
      assert Renderable(headers[0]);
      SplitAtSeparator(RenderHeader(headers[0]), '\n', RenderHeaders(headers[1..]));
      assert StripReturn(RenderHeader(headers[0])) == headers[0].name + ":" + headers[0].value;
    }
  }

  lemma {:induction false} ColonSplits(name: string, value: string)
    requires ':' !in name
    ensures Before(name + ":" + value) == name && After(name + ":" + value) == value
  {
    var line := name + ":" + value;
    if name == [] {
      assert line[0] == ':' && line[1..] == value;
    } else {
      ColonSplits(name[1..], value);
      assert line[1..] == name[1..] + ":" + value;
    }
  }

  lemma Regroup<T>(a: seq<T>, b: seq<T>, c: seq<T>)
    ensures a + b + c == a + (b + c)
  {
  }

  // Values read from the front, for lists that grow at the front.
  lemma {:induction false} ValuesCons(line: string, lines: seq<string>, key: string)
    ensures Values([line] + lines, key) == ValueOf(line, key) + Values(lines, key)
  {
    if lines == [] {
      assert [line] + [] == [] + [line];
      ValuesAppend([], line, key);
    } else {
      var init, last := lines[..|lines| - 1], lines[|lines| - 1];
      ValuesCons(line, init, key);
      assert [line] + lines == [line] + init + [last];
      ValuesAppend([line] + init, last, key);
      Regroup(ValueOf(line, key), Values(init, key), ValueOf(last, key));
    }
  }

  lemma HeaderValue(h: Header, key: string)
    requires Renderable(h)
    ensures ValueOf(h.name + ":" + h.value, key) ==
      if Lower(Trim(h.name)) == key && Trim(h.value) != "" then [Trim(h.value)] else []
  {
    ColonSplits(h.name, h.value);
    assert (h.name + ":" + h.value)[|h.name|] == ':';
  }

  lemma {:induction false} PlainValues(headers: seq<Header>, key: string)
    requires forall h :: h in headers ==> Renderable(h)
    ensures Values(Plain(headers), key) == Named(headers, key)
  {
    if headers == [] {
      ValuesCons("", [""], key);
      ValuesCons("", [], key);
      assert [""] + [""] == ["", ""] && [""] + [] == [""];
    } else {
      var h, rest := headers[0], headers[1..];
      PlainValues(rest, key);
      assert Renderable(h);
      HeaderValue(h, key);
      ValuesCons(h.name + ":" + h.value, Plain(rest), key);
    }
  }

  lemma RenderedText(headers: seq<Header>)
    requires forall h :: h in headers ==> Renderable(h)
    ensures Lines(Render(headers)) == [REQUEST_LINE] + Plain(headers)
  {
    RenderedLines(headers);
    var first := REQUEST_LINE + "\r";
    SplitAtSeparator(first, '\n', RenderHeaders(headers));
    assert StripReturn(first) == REQUEST_LINE;
    StripCons(first, Split(RenderHeaders(headers), '\n'));
  }

  lemma StripCons(line: string, lines: seq<string>)
    ensures StripAll([line] + lines) == [StripReturn(line)] + StripAll(lines)
  {
  }

  // Main result: parsing a rendered header list gives its last non-empty SERVER and all its
  // non-empty NT values, exactly when its last non-empty NTS is alive or update.
  lemma RenderRoundTrip(headers: seq<Header>)
    requires forall h :: h in headers ==> Renderable(h)
    ensures Announced(Lines(Render(headers))) ==
      if SaysAlive(Named(headers, "nts"))
      then Some(Announcement(LastOf(Named(headers, "server")), Named(headers, "nt")))
      else None
  {
    AliveIff(Named(headers, "nts"));
    RenderedText(headers);
    assert StartsNotify(REQUEST_LINE);
    assert Lines(Render(headers))[1..] == Plain(headers);
    PlainValues(headers, "nts");
    PlainValues(headers, "nt");
    PlainValues(headers, "server");
  }

  // ---- Line endings ----

  function Crlf(text: string): string {
    if text == [] then [] else (if text[0] == '\n' then ['\r', '\n'] else [text[0]]) + Crlf(text[1..])
  }

  // The pieces of a text whose line feeds became CRLF: all but the last end in one more '\r'.
  function Returned(pieces: seq<string>): seq<string>
    requires |pieces| >= 1
  {
    if |pieces| == 1 then pieces else [pieces[0] + ['\r']] + Returned(pieces[1..])
  }

  lemma {:induction false} CrlfPieces(text: string)
    ensures Split(Crlf(text), '\n') == Returned(Split(text, '\n'))
  {
    if text != [] {
      CrlfPieces(text[1..]);
      var pieces := Split(text[1..], '\n');
      var rest := Crlf(text[1..]);
      if text[0] == '\n' {
        assert Crlf(text) == "\r" + ['\n'] + rest;
        SplitAtSeparator("\r", '\n', rest);
        assert Split(text, '\n') == [[]] + pieces;
        assert ([[]] + pieces)[1..] == pieces && ([[]] + pieces)[0] + ['\r'] == "\r";
      } else {
        assert Crlf(text) == [text[0]] + rest;
        assert Crlf(text)[1..] == rest;
        var grown := [[text[0]] + pieces[0]] + pieces[1..];
        assert Split(text, '\n') == grown;
        if |pieces| > 1 {
          assert grown[1..] == pieces[1..];
          assert [text[0]] + (pieces[0] + ['\r']) == grown[0] + ['\r'];
          assert Returned(pieces)[1..] == Returned(pieces[1..]);
        }
      }
    }
  }

  // Two lines that differ at most by a trailing carriage return mean the same.
  predicate Alike(a: string, b: string) {
    a == b || a == b + ['\r'] || b == a + ['\r']
  }

  predicate AllAlike(a: seq<string>, b: seq<string>) {
    |a| == |b| && forall i :: 0 <= i < |a| ==> Alike(a[i], b[i])
  }

  lemma StripAlike(line: string)
    ensures Alike(StripReturn(line + ['\r']), StripReturn(line))
  {
    assert (line + ['\r'])[..|line|] == line;
    if line != [] && line[|line| - 1] == '\r' {
      assert line == line[..|line| - 1] + ['\r'];
    }
  }

  lemma {:induction false} ReturnedAlike(pieces: seq<string>)
    requires |pieces| >= 1
    ensures AllAlike(StripAll(Returned(pieces)), StripAll(pieces))
  {
    if |pieces| > 1 {
      StripAlike(pieces[0]);
      ReturnedAlike(pieces[1..]);
    }
  }

  lemma {:induction false} TrailingReturn(line: string)
    ensures ':' in line + ['\r'] <==> ':' in line
    ensures ':' in line ==> Before(line + ['\r']) == Before(line) && After(line + ['\r']) == After(line) + ['\r']
  {
    if line != [] && line[0] != ':' {
      TrailingReturn(line[1..]);
      assert (line + ['\r'])[1..] == line[1..] + ['\r'];
      assert line == [line[0]] + line[1..];
    }
  }

  lemma AlikeHeader(a: string, b: string)
    requires Alike(a, b)
    ensures ':' in a <==> ':' in b
    ensures ':' in a ==> Key(a) == Key(b) && Value(a) == Value(b)
  {
    TrailingReturn(a);
    TrailingReturn(b);
    if ':' in a {
      TrimIgnoresTrailing(After(a), '\r');
      TrimIgnoresTrailing(After(b), '\r');
    }
  }

  lemma {:induction false} AlikeValues(a: seq<string>, b: seq<string>, key: string)
    requires AllAlike(a, b)
    ensures Values(a, key) == Values(b, key)
  {
    if a != [] {
      AlikeValues(a[..|a| - 1], b[..|b| - 1], key);
      AlikeHeader(a[|a| - 1], b[|b| - 1]);
    }
  }

  // Main result: rewriting every LF of any text as CRLF never changes what is parsed.
  lemma LineEndingsIrrelevant(text: string)
    ensures Announced(Lines(Crlf(text))) == Announced(Lines(text))
  {
    CrlfPieces(text);
    ReturnedAlike(Split(text, '\n'));
    AlikeAnnounced(Lines(Crlf(text)), Lines(text));
  }

  lemma AlikeAnnounced(a: seq<string>, b: seq<string>)
    requires AllAlike(a, b) && |a| >= 1
    ensures Announced(a) == Announced(b)
  {
    AlikeValues(a[1..], b[1..], "nts");
    AlikeValues(a[1..], b[1..], "nt");
    AlikeValues(a[1..], b[1..], "server");
    AlikeStart(a[0], b[0]);
  }

  lemma AlikeStart(a: string, b: string)
    requires Alike(a, b)
    ensures StartsNotify(a) <==> StartsNotify(b)
  {
    assert NOTIFY[6] == ' ' && UpperChar('\r') != ' ';
    if a == b + ['\r'] {
      assert forall i :: 0 <= i < |b| ==> a[i] == b[i];
    } else if b == a + ['\r'] {
      assert forall i :: 0 <= i < |a| ==> b[i] == a[i];
    }
  }
}
