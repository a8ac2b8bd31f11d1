// MAC and IPv4 addresses as text.

module Network {
  import opened Options
  import opened Devices
  import opened Text

  type Byte = n: int | 0 <= n < 256

  // ---- MAC addresses ----

  function HexChar(d: int): char
    requires 0 <= d < 16
  {
    if d < 10 then (d + '0' as int) as char else (d - 10 + 'a' as int) as char
  }

  function HexValue(c: char): Option<int> {
    if '0' <= c <= '9' then Some(c as int - '0' as int)
    else if 'a' <= c <= 'f' then Some(c as int - 'a' as int + 10)
    else None
  }

  // Two lower-case hexadecimal digits a byte, joined by colons.
  function FormatMac(bytes: seq<Byte>): string {
    if bytes == [] then ""
    else
      var octet := [HexChar(bytes[0] / 16), HexChar(bytes[0] % 16)];
      if |bytes| == 1 then octet else octet + [':'] + FormatMac(bytes[1..])
  }

  function ParseMac(text: string): Option<seq<Byte>>
    decreases |text|
  {
    if text == "" then Some([])
    else if |text| < 2 then None
    else
      match (HexValue(text[0]), HexValue(text[1]))
      case (Some(hi), Some(lo)) =>
        if !(0 <= 16 * hi + lo < 256) then None
        else if |text| == 2 then Some([16 * hi + lo])
        else if text[2] != ':' || |text| == 3 then None
        else
          (match ParseMac(text[3..])
           case Some(rest) => Some([16 * hi + lo] + rest)
           case None => None)
      case _ => None
  }

  // The text determines the bytes, so distinct hardware addresses never share a key, and
  // formatted addresses are already in normal form.
  lemma {:induction false} MacRoundTrip(bytes: seq<Byte>)
    ensures ParseMac(FormatMac(bytes)) == Some(bytes)
    ensures Lower(FormatMac(bytes)) == FormatMac(bytes)
    ensures |FormatMac(bytes)| == if bytes == [] then 0 else 3 * |bytes| - 1
  {
    if bytes != [] {
      var octet := HexOctet(bytes[0]);
      if |bytes| == 1 {
        assert bytes == [bytes[0]] && FormatMac(bytes) == octet;
      } else {
        MacRoundTrip(bytes[1..]);
        var rest := FormatMac(bytes[1..]);
        ParseNext(bytes[0], octet, rest);
        LowerConcat(octet + [':'], rest);
        LowerConcat(octet, [':']);
        assert bytes == [bytes[0]] + bytes[1..];
      }
    }
  }

  // Any spelling of a hardware address, in capitals or mixed case, normalises to its formatted text.
  lemma AnySpelling(text: string, bytes: seq<Byte>)
    ensures SameUpToCase(text, FormatMac(bytes)) <==> NormalizeMac(text) == FormatMac(bytes)
  {
    MacRoundTrip(bytes);
    NormalizeFolds(text, FormatMac(bytes));
  }

  lemma FormatExample()
    ensures FormatMac([10, 255]) == "0a:ff"
  {
    assert FormatMac([255]) == "ff";
  }

  lemma HexOctet(b: Byte) returns (octet: string)
    ensures octet == [HexChar(b / 16), HexChar(b % 16)] && Lower(octet) == octet
    ensures HexValue(octet[0]) == Some(b / 16) && HexValue(octet[1]) == Some(b % 16)
    ensures ParseMac(octet) == Some([b])
  {
    octet := [HexChar(b / 16), HexChar(b % 16)];
    HexBack(b / 16);
    HexBack(b % 16);
  }

  lemma HexBack(d: int)
    requires 0 <= d < 16
    ensures HexValue(HexChar(d)) == Some(d) && LowerChar(HexChar(d)) == HexChar(d)
  {
  }

  lemma ParseNext(b: Byte, octet: string, rest: string)
    requires |octet| == 2 && HexValue(octet[0]) == Some(b / 16) && HexValue(octet[1]) == Some(b % 16)
    requires rest != "" && ParseMac(rest).Some?
    ensures ParseMac(octet + [':'] + rest) == Some([b] + ParseMac(rest).value)
  {
    assert (octet + [':'] + rest)[3..] == rest;
  }

  lemma MacInjective(a: seq<Byte>, b: seq<Byte>)
    requires FormatMac(a) == FormatMac(b)
    ensures a == b
  {
    MacRoundTrip(a);
    MacRoundTrip(b);
  }

  // ---- IPv4 addresses ----

  datatype Ipv4 = Ipv4(a: Byte, b: Byte, c: Byte, d: Byte)

  function IpNumber(ip: Ipv4): nat {
    ((ip.a * 256 + ip.b) * 256 + ip.c) * 256 + ip.d
  }

  lemma IpNumberInjective(x: Ipv4, y: Ipv4)
    requires IpNumber(x) == IpNumber(y)
    ensures x == y
  {
    LastByte((x.a * 256 + x.b) * 256 + x.c, x.d, (y.a * 256 + y.b) * 256 + y.c, y.d);
    LastByte(x.a * 256 + x.b, x.c, y.a * 256 + y.b, y.c);
    LastByte(x.a, x.b, y.a, y.b);
  }

  // By the first octet in which they differ.
  lemma IpNumberOrder(x: Ipv4, y: Ipv4)
    ensures IpNumber(x) < IpNumber(y) <==>
      || x.a < y.a || (x.a == y.a && x.b < y.b) || (x.a == y.a && x.b == y.b && x.c < y.c)
      || (x.a == y.a && x.b == y.b && x.c == y.c && x.d < y.d)
  {
  }

  lemma LastByte(p: nat, x: Byte, q: nat, y: Byte)
    requires p * 256 + x == q * 256 + y
    ensures p == q && x == y
  {
  }

  // Decimal without leading zeros.
  function PrintOctet(n: Byte): string {
    if n < 10 then [DigitChar(n)]
    else if n < 100 then [DigitChar(n / 10), DigitChar(n % 10)]
    else [DigitChar(n / 100), DigitChar(n / 10 % 10), DigitChar(n % 10)]
  }

  function DigitValue(c: char): int {
    c as int - '0' as int
  }

  predicate AllDigits(s: string) {
    forall c :: c in s ==> '0' <= c <= '9'
  }

  // One to three digits, no leading zero, at most 255.
  function ParseOctet(s: string): Option<Byte> {
    if !(1 <= |s| <= 3) || !AllDigits(s) || (|s| > 1 && s[0] == '0') then None
    else
      var n := if |s| == 1 then DigitValue(s[0])
               else if |s| == 2 then 10 * DigitValue(s[0]) + DigitValue(s[1])
               else 100 * DigitValue(s[0]) + 10 * DigitValue(s[1]) + DigitValue(s[2]);
      if 0 <= n <= 255 then Some(n) else None
  }

  lemma DigitKept(d: int)
    requires 0 <= d <= 9
    ensures DigitValue(DigitChar(d)) == d && '0' <= DigitChar(d) <= '9' && DigitChar(d) != '.'
    ensures d > 0 ==> DigitChar(d) != '0'
  {
  }

  lemma OctetRoundTrip(n: Byte)
    ensures ParseOctet(PrintOctet(n)) == Some(n)
    ensures '.' !in PrintOctet(n) && PrintOctet(n) != ""
  {
    DigitKept(n % 10);
    if n >= 100 {
      DigitKept(n / 100);
      DigitKept(n / 10 % 10);
      assert 100 * (n / 100) + 10 * (n / 10 % 10) + n % 10 == n;
    } else if n >= 10 {
      DigitKept(n / 10);
    }
    hide DigitChar, DigitValue;
    assert AllDigits(PrintOctet(n));
  }

  lemma DigitBack(c: char)
    requires '0' <= c <= '9'
    ensures 0 <= DigitValue(c) <= 9 && DigitChar(DigitValue(c)) == c
  {
  }

  lemma TwoDigits(x: int, y: int)
    requires 1 <= x <= 9 && 0 <= y <= 9
    ensures PrintOctet(10 * x + y) == [DigitChar(x), DigitChar(y)]
  {
  }

  lemma ThreeDigits(x: int, y: int, z: int)
    requires 1 <= x <= 9 && 0 <= y <= 9 && 0 <= z <= 9 && 100 * x + 10 * y + z < 256
    ensures PrintOctet(100 * x + 10 * y + z) == [DigitChar(x), DigitChar(y), DigitChar(z)]
  {
    var n := 100 * x + 10 * y + z;
    assert n / 100 == x && n % 10 == z && n / 10 == 10 * x + y;
  }

  lemma OctetCanonical(s: string, n: Byte)
    requires ParseOctet(s) == Some(n)
    ensures s == PrintOctet(n)
  {
    forall i | 0 <= i < |s|
      ensures 0 <= DigitValue(s[i]) <= 9 && DigitChar(DigitValue(s[i])) == s[i]
    {
      assert s[i] in s;
      DigitBack(s[i]);
    }
    if |s| == 1 {
      assert s == [s[0]];
    } else if |s| == 2 {
      TwoDigits(DigitValue(s[0]), DigitValue(s[1]));
      assert s == [s[0], s[1]];
    } else {
      ThreeDigits(DigitValue(s[0]), DigitValue(s[1]), DigitValue(s[2]));
      assert s == [s[0], s[1], s[2]];
    }
  }

  function PrintIp(ip: Ipv4): string {
    PrintOctet(ip.a) + ['.'] + (PrintOctet(ip.b) + ['.'] + (PrintOctet(ip.c) + ['.'] + PrintOctet(ip.d)))
  }

  function ParseIp(s: string): Option<Ipv4> {
    var parts := Split(s, '.');
    if |parts| != 4 then None
    else
      match (ParseOctet(parts[0]), ParseOctet(parts[1]), ParseOctet(parts[2]), ParseOctet(parts[3]))
      case (Some(a), Some(b), Some(c), Some(d)) => Some(Ipv4(a, b, c, d))
      case _ => None
  }

  lemma PrintExample()
    ensures PrintIp(Ipv4(192, 168, 1, 20)) == "192.168.1.20"
  {
  }

  lemma IpPieces(ip: Ipv4)
    ensures Split(PrintIp(ip), '.') == [PrintOctet(ip.a), PrintOctet(ip.b), PrintOctet(ip.c), PrintOctet(ip.d)]
  {
    OctetRoundTrip(ip.a);
    OctetRoundTrip(ip.b);
    OctetRoundTrip(ip.c);
    OctetRoundTrip(ip.d);
    SplitAtSeparator(PrintOctet(ip.d), '.', "");
    var cd := PrintOctet(ip.c) + ['.'] + PrintOctet(ip.d);
    SplitAtSeparator(PrintOctet(ip.c), '.', PrintOctet(ip.d));
    SplitAtSeparator(PrintOctet(ip.b), '.', cd);
    SplitAtSeparator(PrintOctet(ip.a), '.', PrintOctet(ip.b) + ['.'] + cd);
  }

  // A text is read back as an address exactly when it is that address printed.
  lemma IpRoundTrip(s: string, ip: Ipv4)
    ensures ParseIp(s) == Some(ip) <==> s == PrintIp(ip)
  {
    IpPieces(ip);
    OctetRoundTrip(ip.a);
    OctetRoundTrip(ip.b);
    OctetRoundTrip(ip.c);
    OctetRoundTrip(ip.d);
    if ParseIp(s) == Some(ip) {
      var parts := Split(s, '.');
      OctetCanonical(parts[0], ip.a);
      OctetCanonical(parts[1], ip.b);
      OctetCanonical(parts[2], ip.c);
      OctetCanonical(parts[3], ip.d);
      assert parts == Split(PrintIp(ip), '.');
      SplitInjective(s, PrintIp(ip), '.');
    }
  }

  lemma {:induction false} SplitInjective(s: string, t: string, sep: char)
    requires Split(s, sep) == Split(t, sep)
    ensures s == t
    decreases |s|
  {
    if s != [] && t != [] {
      var p, q := Split(s[1..], sep), Split(t[1..], sep);
      if s[0] == sep {
        assert Split(s, sep)[0] == [];
        assert t[0] == sep;
        assert p == Split(s, sep)[1..] && q == Split(t, sep)[1..];
      } else {
        assert Split(s, sep)[0] == [s[0]] + p[0];
        assert t[0] != sep;
        assert Split(t, sep)[0] == [t[0]] + q[0];
        assert s[0] == Split(s, sep)[0][0] && t[0] == Split(t, sep)[0][0];
        assert p[0] == Split(s, sep)[0][1..] && q[0] == Split(t, sep)[0][1..];
        assert p[1..] == Split(s, sep)[1..] && q[1..] == Split(t, sep)[1..];
        assert p == [p[0]] + p[1..] && q == [q[0]] + q[1..];
      }
      SplitInjective(s[1..], t[1..], sep);
      assert s == [s[0]] + s[1..] && t == [t[0]] + t[1..];
    }
  }

  lemma PrintNonEmpty(ip: Ipv4)
    ensures PrintIp(ip) != ""
  {
    OctetRoundTrip(ip.a);
  }
}
