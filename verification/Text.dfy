// Strings as the backend treats them: ASCII letter case, byte order, trimming, splitting and
// fixed-width decimals.

module Options {
  datatype Option<+T> = None | Some(value: T)
}

module Text {
  // ASCII lower case, the normal form of a MAC address and of every NOCASE column.

  function LowerChar(c: char): char {
    if 'A' <= c <= 'Z' then (c as int + 32) as char else c
  }

  function Lower(s: string): (r: string)
    ensures |r| == |s|
  {
    seq(|s|, i requires 0 <= i < |s| => LowerChar(s[i]))
  }

  // Equal up to ASCII letter case, by character codes.

  predicate SameLetter(a: char, b: char) {
    var m, n := a as int, b as int;
    m == n || (65 <= m <= 90 && n == m + 32) || (65 <= n <= 90 && m == n + 32)
  }

  predicate SameUpToCase(s: string, t: string) {
    |s| == |t| && forall i :: 0 <= i < |s| ==> SameLetter(s[i], t[i])
  }

  lemma LowerLetter(a: char, b: char)
    ensures LowerChar(a) == LowerChar(b) <==> SameLetter(a, b)
  {
  }

  // Two texts have one lower case exactly when they differ in letter case only.
  lemma LowerFolds(s: string, t: string)
    ensures Lower(s) == Lower(t) <==> SameUpToCase(s, t)
  {
    forall i | 0 <= i < |s| && i < |t|
      ensures Lower(s)[i] == Lower(t)[i] <==> SameLetter(s[i], t[i])
    {
      LowerLetter(s[i], t[i]);
    }
    if SameUpToCase(s, t) {
      assert forall i :: 0 <= i < |s| ==> Lower(s)[i] == Lower(t)[i];
    } else if |s| == |t| {
      var i :| 0 <= i < |s| && !SameLetter(s[i], t[i]);
      assert Lower(s)[i] != Lower(t)[i];
    }
  }

  // The lower case has no capitals, is its own lower case, and differs from the text in case only.
  lemma LowerIsLower(s: string)
    ensures forall i :: 0 <= i < |s| ==> !(65 <= Lower(s)[i] as int <= 90)
    ensures Lower(Lower(s)) == Lower(s) && SameUpToCase(Lower(s), s)
  {
    forall i | 0 <= i < |s|
      ensures !(65 <= Lower(s)[i] as int <= 90) && Lower(Lower(s))[i] == Lower(s)[i]
    {
      assert Lower(s)[i] == LowerChar(s[i]);
    }
    assert Lower(Lower(s)) == Lower(s);
    LowerFolds(Lower(s), s);
  }

  lemma LowerConcat(a: string, b: string)
    ensures Lower(a + b) == Lower(a) + Lower(b)
  {
    assert forall i :: 0 <= i < |a + b| ==> Lower(a + b)[i] == (Lower(a) + Lower(b))[i];
  }

  // Byte order (SQLite's BINARY collation, Rust's `Ord for String`): code point order on text.

  predicate Less(a: string, b: string)
    decreases |a|
  {
    |b| > 0 && (|a| == 0 || a[0] < b[0] || (a[0] == b[0] && Less(a[1..], b[1..])))
  }

  lemma {:induction false} LessTotal(a: string, b: string)
    ensures a == b || Less(a, b) || Less(b, a)
    decreases |a|
  {
    if |a| > 0 && |b| > 0 && a[0] == b[0] {
      LessTotal(a[1..], b[1..]);
      assert a == [a[0]] + a[1..] && b == [b[0]] + b[1..];
    }
  }

  lemma {:induction false} LessAsymmetric(a: string, b: string)
    ensures !(Less(a, b) && Less(b, a))
    ensures !Less(a, a)
    decreases |a|
  {
    if |a| > 0 {
      LessAsymmetric(a[1..], a[1..]);
    }
    if |a| > 0 && |b| > 0 && a[0] == b[0] {
      LessAsymmetric(a[1..], b[1..]);
    }
  }

  lemma {:induction false} LessTransitive(a: string, b: string, c: string)
    requires Less(a, b) && Less(b, c)
    ensures Less(a, c)
    decreases |a|
  {
    if |a| > 0 && a[0] == b[0] == c[0] {
      LessTransitive(a[1..], b[1..], c[1..]);
    }
  }

  // Two texts that start with blocks of equal width are ordered by those blocks first.
  lemma {:induction false} LessByBlocks(p: string, q: string, x: string, y: string)
    requires |p| == |q|
    ensures Less(p + x, q + y) <==> Less(p, q) || (p == q && Less(x, y))
    decreases |p|
  {
    if p == [] {
      assert p + x == x && q + y == y;
    } else {
      assert (p + x)[1..] == p[1..] + x && (q + y)[1..] == q[1..] + y;
      LessByBlocks(p[1..], q[1..], x, y);
      assert p == [p[0]] + p[1..] && q == [q[0]] + q[1..];
    }
  }

  // Trimming removes Unicode white space at both ends.

  predicate IsSpace(c: char) {
    var n := c as int;
    || 0x09 <= n <= 0x0D || n == 0x20 || n == 0x85 || n == 0xA0 || n == 0x1680
    || 0x2000 <= n <= 0x200A || n == 0x2028 || n == 0x2029 || n == 0x202F || n == 0x205F || n == 0x3000
  }

  function TrimStart(s: string): string {
    if s != [] && IsSpace(s[0]) then TrimStart(s[1..]) else s
  }

  function TrimEnd(s: string): string {
    if s != [] && IsSpace(s[|s| - 1]) then TrimEnd(s[..|s| - 1]) else s
  }

  function Trim(s: string): string {
    TrimEnd(TrimStart(s))
  }

  predicate AllSpace(s: string) {
    forall i :: 0 <= i < |s| ==> IsSpace(s[i])
  }

  // Trimming takes white space off both ends and nothing else.
  lemma TrimStrips(s: string) returns (head: string, tail: string)
    ensures s == head + Trim(s) + tail && AllSpace(head) && AllSpace(tail)
    ensures Trim(s) != [] ==> !IsSpace(Trim(s)[0]) && !IsSpace(Trim(s)[|Trim(s)| - 1])
  {
    head := TrimStartStrips(s);
    tail := TrimEndStrips(TrimStart(s));
  }

  lemma {:induction false} TrimStartStrips(s: string) returns (head: string)
    ensures s == head + TrimStart(s) && AllSpace(head)
    ensures TrimStart(s) != [] ==> !IsSpace(TrimStart(s)[0])
  {
    head := [];
    if s != [] && IsSpace(s[0]) {
      var rest := TrimStartStrips(s[1..]);
      head := [s[0]] + rest;
    }
  }

  lemma {:induction false} TrimEndStrips(s: string) returns (tail: string)
    ensures s == TrimEnd(s) + tail && AllSpace(tail)
    ensures TrimEnd(s) != [] ==> TrimEnd(s)[0] == s[0] && !IsSpace(TrimEnd(s)[|TrimEnd(s)| - 1])
  {
    tail := [];
    if s != [] && IsSpace(s[|s| - 1]) {
      var rest := TrimEndStrips(s[..|s| - 1]);
      tail := rest + [s[|s| - 1]];
    }
  }

  // Of the ASCII characters, white space is the tab, the line breaks and the blank.
  lemma AsciiSpace(c: char)
    requires c as int < 128
    ensures IsSpace(c) <==> c in {'\t', '\n', '\U{0B}', '\U{0C}', '\r', ' '}
  {
  }

  lemma {:induction false} TrimIgnoresTrailing(s: string, c: char)
    requires IsSpace(c)
    ensures Trim(s + [c]) == Trim(s)
  {
    if s == [] {
      assert TrimStart([c]) == [];
    } else if IsSpace(s[0]) {
      assert (s + [c])[1..] == s[1..] + [c];
      TrimIgnoresTrailing(s[1..], c);
    } else {
      assert TrimEnd(s + [c]) == TrimEnd(s) by {
        assert (s + [c])[..|s|] == s;
      }
    }
  }

  // Splitting on a separator always yields at least one piece.

  function Split(s: string, sep: char): (r: seq<string>)
    ensures |r| >= 1
  {
    if s == [] then [[]]
    else
      var rest := Split(s[1..], sep);
      if s[0] == sep then [[]] + rest else [[s[0]] + rest[0]] + rest[1..]
  }

  lemma {:induction false} SplitAtSeparator(p: string, sep: char, rest: string)
    requires sep !in p
    ensures Split(p, sep) == [p]
    ensures Split(p + [sep] + rest, sep) == [p] + Split(rest, sep)
  {
    if p == [] {
      assert (p + [sep] + rest)[1..] == rest;
    } else {
      SplitAtSeparator(p[1..], sep, rest);
      assert (p + [sep] + rest)[1..] == p[1..] + [sep] + rest;
      assert p == [p[0]] + p[1..];
    }
  }

  // Decimal digits of a number, padded with zeros to a fixed width.

  function Pow10(n: nat): (r: nat)
    ensures r > 0
  {
    if n == 0 then 1 else 10 * Pow10(n - 1)
  }

  function DigitChar(d: int): (c: char)
    requires 0 <= d <= 9
    ensures '0' <= c <= '9'
  {
    (d + '0' as int) as char
  }

  function Digits(v: nat, width: nat): (s: string)
    ensures |s| == width
    ensures forall c :: c in s ==> '0' <= c <= '9'
  {
    if width == 0 then [] else Digits(v / 10, width - 1) + [DigitChar(v % 10)]
  }

  lemma {:induction false} DigitsOrder(v: nat, w: nat, width: nat)
    requires v < Pow10(width) && w < Pow10(width)
    ensures Less(Digits(v, width), Digits(w, width)) <==> v < w
    ensures Digits(v, width) == Digits(w, width) <==> v == w
  {
    if width > 0 {
      DigitsOrder(v / 10, w / 10, width - 1);
      var p, q := Digits(v / 10, width - 1), Digits(w / 10, width - 1);
      var x, y := [DigitChar(v % 10)], [DigitChar(w % 10)];
      LessByBlocks(p, q, x, y);
      assert Less(x, y) <==> v % 10 < w % 10;
      assert p + x == q + y <==> p == q && x == y by {
        if p + x == q + y {
          assert p == (p + x)[..width - 1] && q == (q + y)[..width - 1];
          assert x[0] == (p + x)[width - 1] && y[0] == (q + y)[width - 1];
        }
      }
    }
  }

  // Dropping the last `n` decimal digits.
  function DropDigits(v: nat, n: nat): nat {
    if n == 0 then v else DropDigits(v / 10, n - 1)
  }

  // The leading digits of a padded number are those of the number without its last digits.
  lemma {:induction false} DigitsSplit(v: nat, width: nat, tail: nat)
    requires tail <= width
    ensures Digits(v, width) == Digits(DropDigits(v, tail), width - tail) + Digits(v, tail)
    decreases tail
  {
    if tail > 0 {
      DigitsSplit(v / 10, width - 1, tail - 1);
    }
  }
}
