/** The local address column of `/proc/net/{tcp,udp}{,6}`: hexadecimal little-endian words and a port. */
module SocketAddress {
  import opened Traffic

  datatype Ip = V4(octets: seq<int>) | V6(octets: seq<int>)

  datatype Endpoint = Endpoint(ip: Ip, port: int)

  const U16: int := 0x1_0000
  const U32: int := 0x1_0000_0000

  // ---------- `from_str_radix(_, 16)` ----------

  predicate IsHex(c: char) {
    '0' <= c <= '9' || 'a' <= c <= 'f' || 'A' <= c <= 'F'
  }

  function HexValue(c: char): (v: nat) {
    if '0' <= c <= '9' then c as int - '0' as int
    else if 'A' <= c <= 'F' then c as int - 'A' as int + 10
    else if 'a' <= c <= 'f' then c as int - 'a' as int + 10
    else 0
  }

  /** Only digits from index `i` up to `n`. */
  predicate AllHexTo(s: string, i: nat, n: nat)
    requires n <= |s|
  {
    n <= i || (AllHexTo(s, i, n - 1) && IsHex(s[n - 1]))
  }

  function ValueTo(s: string, i: nat, n: nat): (v: nat)
    requires n <= |s|
  {
    if n <= i then 0 else 16 * ValueTo(s, i, n - 1) + HexValue(s[n - 1])
  }

  /** Where the digits start: a plus sign may come before them. */
  function Sign(s: string): nat {
    if |s| > 1 && s[0] == '+' then 1 else 0
  }

  /** The number below `limit` that `s` denotes: at least one digit, only digits, no overflow. */
  function FromHex(s: string, limit: int): Option<int> {
    if Sign(s) < |s| && AllHexTo(s, Sign(s), |s|) && ValueTo(s, Sign(s), |s|) < limit then
      Some(ValueTo(s, Sign(s), |s|))
    else None
  }

  /** The conversion as it runs: a digit at a time, failing on the first overflow. */
  method ParseHex(s: string, limit: int) returns (r: Option<int>)
    requires limit > 0
    ensures r == FromHex(s, limit)
  {
    var first := if |s| > 1 && s[0] == '+' then 1 else 0;
    if first == |s| {
      return None;
    }
    var v := 0;
    for i := first to |s|
      invariant AllHexTo(s, first, i) && v == ValueTo(s, first, i) && v < limit
    {
      if !IsHex(s[i]) {
        DigitsFail(s, first, i + 1, |s|);
        return None;
      }
      v := 16 * v + HexValue(s[i]);
      if v >= limit {
        DigitsFail(s, first, i + 1, |s|);
        return None;
      }
    }
    r := Some(v);
  }

  /** Neither a wrong digit nor an overflow is repaired by what follows. */
  lemma {:induction false} DigitsFail(s: string, i: nat, m: nat, n: nat)
    requires m <= n <= |s|
    ensures ValueTo(s, i, m) <= ValueTo(s, i, n)
    ensures i < m && !AllHexTo(s, i, m) ==> !AllHexTo(s, i, n)
    decreases n
  {
    if m < n {
      DigitsFail(s, i, m, n - 1);
    }
  }

  // ---------- `parse_local` ----------

  /** `to_le_bytes` of a 32-bit word. */
  function LeBytes(w: int): (b: seq<int>)
    ensures |b| == 4
  {
    [w % 256, w / 0x100 % 256, w / 0x1_0000 % 256, w / 0x100_0000 % 256]
  }

  function ColonFrom(s: string, i: nat): nat
    requires i <= |s|
    decreases |s| - i
  {
    if i == |s| || s[i] == ':' then i else ColonFrom(s, i + 1)
  }

  lemma {:induction false} FirstColon(s: string, i: nat)
    requires i <= |s|
    ensures i <= ColonFrom(s, i) <= |s|
    ensures forall j :: i <= j < ColonFrom(s, i) ==> s[j] != ':'
    ensures ColonFrom(s, i) < |s| ==> s[ColonFrom(s, i)] == ':'
    decreases |s| - i
  {
    if i < |s| && s[i] != ':' {
      FirstColon(s, i + 1);
    }
  }

  /** The `k`-th word of an IPv6 column, as text. */
  function WordText(hex: string, k: nat): string
    requires 8 * k + 8 <= |hex|
  {
    hex[8 * k..8 * k + 8]
  }

  /** The octets of the first `n` words of an IPv6 column, if they all parse. */
  function OctetsTo(hex: string, n: nat): Option<seq<int>>
    requires 8 * n <= |hex|
  {
    if n == 0 then Some([])
    else
      var before, word := OctetsTo(hex, n - 1), FromHex(WordText(hex, n - 1), U32);
      if before.Some? && word.Some? then Some(before.value + LeBytes(word.value)) else None
  }

  function ParsedIp(hex: string, v6: bool): Option<Ip> {
    if v6 then
      if |hex| == 32 && OctetsTo(hex, 4).Some? then Some(V6(OctetsTo(hex, 4).value)) else None
    else
      var word := FromHex(hex, U32);
      if word.Some? then Some(V4(LeBytes(word.value))) else None
  }

  function Parsed(s: string, v6: bool): Option<Endpoint> {
    var at := ColonFrom(s, 0);
    FirstColon(s, 0);
    if at == |s| then None
    else
      var ip, port := ParsedIp(s[..at], v6), FromHex(s[at + 1..], U16);
      if ip.Some? && port.Some? then Some(Endpoint(ip.value, port.value)) else None
  }

  /** `chunk.copy_from_slice(bytes)` for the chunk at `at`. */
  method CopyChunk(b: array<int>, at: nat, bytes: seq<int>)
    requires |bytes| == 4 && at + 4 <= b.Length
    modifies b
    ensures b[..] == old(b[..at]) + bytes + old(b[at + 4..])
  {
    b[at], b[at + 1], b[at + 2], b[at + 3] := bytes[0], bytes[1], bytes[2], bytes[3];
  }

  /** Fills the address four bytes at a time; any word that does not parse ends it. */
  method ParseOctets(hex: string, words: nat) returns (r: Option<seq<int>>)
    requires |hex| == 8 * words
    ensures r == OctetsTo(hex, words)
  {
    var b := new int[4 * words](_ => 0);
    for i := 0 to words
      invariant OctetsTo(hex, i) == Some(b[..4 * i])
    {
      var w := ParseHex(WordText(hex, i), U32);
      if w.None? {
        NoOctets(hex, i + 1, words);
        return None;
      }
      ghost var done := b[..4 * i];
      CopyChunk(b, 4 * i, LeBytes(w.value));
      assert b[..4 * (i + 1)] == done + LeBytes(w.value);
    }
    assert b[..4 * words] == b[..];
    r := Some(b[..]);
  }

  lemma {:induction false} NoOctets(hex: string, m: nat, n: nat)
    requires m <= n && 8 * n <= |hex| && OctetsTo(hex, m).None?
    ensures OctetsTo(hex, n).None?
    decreases n
  {
    if m < n {
      NoOctets(hex, m, n - 1);
    }
  }

  method ParseLocal(s: string, v6: bool) returns (r: Option<Endpoint>)
    ensures r == Parsed(s, v6)
  {
    FirstColon(s, 0);
    var at := ColonFrom(s, 0);
    if at == |s| {
      return None;
    }
    var hex := s[..at];
    var port := ParseHex(s[at + 1..], U16);
    if port.None? {
      return None;
    }
    if v6 {
      if |hex| != 32 {
        return None;
      }
      var octets := ParseOctets(hex, 4);
      if octets.None? {
        return None;
      }
      return Some(Endpoint(V6(octets.value), port.value));
    } else {
      var raw := ParseHex(hex, U32);
      if raw.None? {
        return None;
      }
      return Some(Endpoint(V4(LeBytes(raw.value)), port.value));
    }
  }

  // ---------- the kernel's form ----------

  function HexDigit(n: int): char
    requires 0 <= n < 16
  {
    "0123456789ABCDEF"[n]
  }

  /** `%0{width}X`. */
  function Hex(n: nat, width: nat): (s: string)
    ensures |s| == width
  {
    if width == 0 then "" else Hex(n / 16, width - 1) + [HexDigit(n % 16)]
  }

  predicate IsOctet(x: int) {
    0 <= x < 256
  }

  predicate AreOctets(o: seq<int>) {
    forall i :: 0 <= i < |o| ==> IsOctet(o[i])
  }

  /** The 32-bit word that a little-endian host reads from four octets. */
  function Word(o: seq<int>, i: nat): (w: nat)
    requires i + 4 <= |o| && AreOctets(o)
    ensures w < U32
  {
    o[i] + 0x100 * o[i + 1] + 0x1_0000 * o[i + 2] + 0x100_0000 * o[i + 3]
  }

  function WordsTo(o: seq<int>, n: nat): (s: string)
    requires 4 * n <= |o| && AreOctets(o)
    ensures |s| == 8 * n
  {
    if n == 0 then "" else WordsTo(o, n - 1) + Hex(Word(o, 4 * (n - 1)), 8)
  }

  predicate IsAddress(ip: Ip) {
    AreOctets(ip.octets) && |ip.octets| == if ip.V6? then 16 else 4
  }

  function Printed(ip: Ip, port: nat): string
    requires IsAddress(ip)
  {
    WordsTo(ip.octets, |ip.octets| / 4) + ":" + Hex(port, 4)
  }

  // ---------- round trip ----------

  function Power(width: nat): nat {
    if width == 0 then 1 else 16 * Power(width - 1)
  }

  lemma {:induction false} DigitsPrefix(a: string, b: string, n: nat)
    requires n <= |a| && n <= |b|
    requires forall i :: 0 <= i < n ==> a[i] == b[i]
    ensures ValueTo(a, 0, n) == ValueTo(b, 0, n) && AllHexTo(a, 0, n) == AllHexTo(b, 0, n)
  {
    if n > 0 {
      DigitsPrefix(a, b, n - 1);
    }
  }

  lemma DigitRoundTrip(n: int)
    requires 0 <= n < 16
    ensures IsHex(HexDigit(n)) && HexValue(HexDigit(n)) == n
  {
  }

  lemma {:induction false} HexRoundTrip(n: nat, width: nat)
    requires n < Power(width)
    ensures AllHexTo(Hex(n, width), 0, width) && ValueTo(Hex(n, width), 0, width) == n
    ensures forall i :: 0 <= i < width ==> IsHex(Hex(n, width)[i])
  {
    if width > 0 {
      HexRoundTrip(n / 16, width - 1);
      DigitRoundTrip(n % 16);
      DigitsPrefix(Hex(n, width), Hex(n / 16, width - 1), width - 1);
    }
  }

  lemma FromHexRoundTrip(n: nat, width: nat, limit: int)
    requires n < limit <= Power(width) && width > 0
    ensures FromHex(Hex(n, width), limit) == Some(n)
    ensures forall i :: 0 <= i < width ==> Hex(n, width)[i] != ':'
  {
    HexRoundTrip(n, width);
    assert IsHex(Hex(n, width)[0]);
  }

  lemma Powers()
    ensures Power(4) == U16 && Power(8) == U32
  {
    assert Power(2) == 256 && Power(4) == 256 * Power(2) && Power(6) == 256 * Power(4);
  }

  lemma LeRoundTrip(o: seq<int>, i: nat)
    requires i + 4 <= |o| && AreOctets(o)
    ensures LeBytes(Word(o, i)) == o[i..i + 4]
  {
    var w := Word(o, i);
    assert IsOctet(o[i]) && IsOctet(o[i + 1]) && IsOctet(o[i + 2]) && IsOctet(o[i + 3]);
    assert w / 0x100 == o[i + 1] + 0x100 * o[i + 2] + 0x1_0000 * o[i + 3];
    assert w / 0x1_0000 == o[i + 2] + 0x100 * o[i + 3];
    assert w / 0x100_0000 == o[i + 3];
  }

  lemma {:induction false} WordsNoColon(o: seq<int>, n: nat)
    requires 4 * n <= |o| && AreOctets(o)
    ensures forall i :: 0 <= i < 8 * n ==> WordsTo(o, n)[i] != ':'
  {
    if n > 0 {
      WordsNoColon(o, n - 1);
      Powers();
      FromHexRoundTrip(Word(o, 4 * (n - 1)), 8, U32);
    }
  }

  /** Word `k` of a printed column. */
  lemma {:induction false} WordPrinted(o: seq<int>, n: nat, k: nat)
    requires k < n && 4 * n <= |o| && AreOctets(o)
    ensures WordText(WordsTo(o, n), k) == Hex(Word(o, 4 * k), 8)
  {
    var before, last := WordsTo(o, n - 1), Hex(Word(o, 4 * (n - 1)), 8);
    if k < n - 1 {
      WordPrinted(o, n - 1, k);
      assert WordText(before + last, k) == WordText(before, k);
    } else {
      assert WordText(before + last, k) == last;
    }
  }

  lemma OctetsNext(hex: string, k: nat, before: seq<int>, w: int)
    requires 8 * k + 8 <= |hex| && OctetsTo(hex, k) == Some(before) && FromHex(WordText(hex, k), U32) == Some(w)
    ensures OctetsTo(hex, k + 1) == Some(before + LeBytes(w))
  {
  }

  lemma WordReads(o: seq<int>, m: nat, k: nat)
    requires k < m && 4 * m <= |o| && AreOctets(o)
    ensures FromHex(WordText(WordsTo(o, m), k), U32) == Some(Word(o, 4 * k))
  {
    WordPrinted(o, m, k);
    Powers();
    FromHexRoundTrip(Word(o, 4 * k), 8, U32);
  }

  lemma PrefixGrows(o: seq<int>, k: nat)
    requires 4 * k + 4 <= |o| && AreOctets(o)
    ensures o[..4 * k] + LeBytes(Word(o, 4 * k)) == o[..4 * (k + 1)]
  {
    LeRoundTrip(o, 4 * k);
    assert o[..4 * (k + 1)] == o[..4 * k] + o[4 * k..4 * k + 4];
  }

  /** Words read back from a printed column. */
  lemma {:induction false} OctetsRoundTrip(o: seq<int>, m: nat, n: nat)
    requires n <= m && 4 * m <= |o| && AreOctets(o)
    ensures OctetsTo(WordsTo(o, m), n) == Some(o[..4 * n])
  {
    if n > 0 {
      var k := n - 1;
      var w := Word(o, 4 * k);
      OctetsRoundTrip(o, m, k);
      WordReads(o, m, k);
      OctetsNext(WordsTo(o, m), k, o[..4 * k], w);
      PrefixGrows(o, k);
    }
  }

  lemma V4RoundTrip(o: seq<int>)
    requires AreOctets(o) && |o| == 4
    ensures FromHex(WordsTo(o, 1), U32) == Some(Word(o, 0)) && LeBytes(Word(o, 0)) == o
  {
    assert WordsTo(o, 1) == WordsTo(o, 0) + Hex(Word(o, 0), 8) == Hex(Word(o, 0), 8);
    Powers();
    FromHexRoundTrip(Word(o, 0), 8, U32);
    LeRoundTrip(o, 0);
    assert o[0..4] == o;
  }

  lemma IpRoundTrip(ip: Ip)
    requires IsAddress(ip)
    ensures ParsedIp(WordsTo(ip.octets, |ip.octets| / 4), ip.V6?) == Some(ip)
  {
    var o := ip.octets;
    if ip.V6? {
      OctetsRoundTrip(o, 4, 4);
      assert o[..16] == o;
    } else {
      V4RoundTrip(o);
    }
  }

  lemma SplitsAtColon(hex: string, port: string)
    requires forall i :: 0 <= i < |hex| ==> hex[i] != ':'
    ensures var s := hex + ":" + port;
            ColonFrom(s, 0) == |hex| && s[..|hex|] == hex && s[|hex| + 1..] == port
  {
    var s := hex + ":" + port;
    FirstColon(s, 0);
    assert s[|hex|] == ':';
    assert forall i :: 0 <= i < |hex| ==> s[i] == hex[i];
  }

  /** Every address and every port survive printing and parsing. */
  lemma AddressRoundTrip(ip: Ip, port: nat)
    requires IsAddress(ip) && port < U16
    ensures Parsed(Printed(ip, port), ip.V6?) == Some(Endpoint(ip, port))
  {
    var hex := WordsTo(ip.octets, |ip.octets| / 4);
    WordsNoColon(ip.octets, |ip.octets| / 4);
    SplitsAtColon(hex, Hex(port, 4));
    IpRoundTrip(ip);
    assert FromHex(Hex(port, 4), U16) == Some(port) by {
      Powers();
      FromHexRoundTrip(port, 4, U16);
    }
  }

  // ---------- other spellings ----------

  /** The digits of either case, and no other characters, are hexadecimal. */
  lemma HexDigits(c: char)
    ensures IsHex(c) <==> c in "0123456789abcdef" || c in "0123456789ABCDEF"
    ensures forall n :: 0 <= n < 16 && (c == "0123456789abcdef"[n] || c == "0123456789ABCDEF"[n]) ==> HexValue(c) == n
  {
    if IsHex(c) {
      var n := HexValue(c);
      assert c == "0123456789abcdef"[n] || c == "0123456789ABCDEF"[n];
    }
  }

  /** The same letter, in either case. */
  predicate Alike(c: char, d: char) {
    || c == d
    || ('a' <= c <= 'f' && d as int == c as int - 'a' as int + 'A' as int)
    || ('a' <= d <= 'f' && c as int == d as int - 'a' as int + 'A' as int)
  }

  ghost predicate AllAlike(a: string, b: string) {
    |a| == |b| && forall i :: 0 <= i < |a| ==> Alike(a[i], b[i])
  }

  lemma {:induction false} ValueAnyCase(a: string, b: string, i: nat, n: nat)
    requires AllAlike(a, b) && n <= |a|
    ensures AllHexTo(a, i, n) == AllHexTo(b, i, n)
    ensures AllHexTo(a, i, n) ==> ValueTo(a, i, n) == ValueTo(b, i, n)
  {
    if i < n {
      ValueAnyCase(a, b, i, n - 1);
      assert Alike(a[n - 1], b[n - 1]);
    }
  }

  lemma FromHexAnyCase(a: string, b: string, limit: int)
    requires AllAlike(a, b)
    ensures FromHex(a, limit) == FromHex(b, limit)
  {
    if |a| > 0 {
      assert Alike(a[0], b[0]);
    }
    ValueAnyCase(a, b, Sign(a), |a|);
  }

  lemma {:induction false} OctetsAnyCase(a: string, b: string, n: nat)
    requires AllAlike(a, b) && 8 * n <= |a|
    ensures OctetsTo(a, n) == OctetsTo(b, n)
  {
    if n > 0 {
      OctetsAnyCase(a, b, n - 1);
      FromHexAnyCase(WordText(a, n - 1), WordText(b, n - 1), U32);
    }
  }

  lemma {:induction false} ColonAnyCase(a: string, b: string, i: nat)
    requires AllAlike(a, b) && i <= |a|
    ensures ColonFrom(a, i) == ColonFrom(b, i)
    decreases |a| - i
  {
    if i < |a| {
      assert Alike(a[i], b[i]);
      ColonAnyCase(a, b, i + 1);
    }
  }

  /** Letters may be of either case anywhere. */
  lemma ParsedAnyCase(a: string, b: string, v6: bool)
    requires AllAlike(a, b)
    ensures Parsed(a, v6) == Parsed(b, v6)
  {
    ColonAnyCase(a, b, 0);
    FirstColon(a, 0);
    var at := ColonFrom(a, 0);
    if at < |a| {
      FromHexAnyCase(a[at + 1..], b[at + 1..], U16);
      FromHexAnyCase(a[..at], b[..at], U32);
      if at == 32 {
        OctetsAnyCase(a[..at], b[..at], 4);
      }
    }
  }

  lemma {:induction false} ShiftedDigits(s: string, n: nat)
    requires n <= |s|
    ensures ValueTo("+" + s, 1, n + 1) == ValueTo(s, 0, n) && AllHexTo("+" + s, 1, n + 1) == AllHexTo(s, 0, n)
  {
    if n > 0 {
      ShiftedDigits(s, n - 1);
    }
  }

  /** A plus sign before the digits changes nothing, and alone it is no number. */
  lemma PlusSign(s: string, limit: int)
    requires s == "" || s[0] != '+'
    ensures FromHex("+" + s, limit) == FromHex(s, limit)
  {
    ShiftedDigits(s, |s|);
    if s == "" {
      assert AllHexTo("+", 0, 1) == (AllHexTo("+", 0, 0) && IsHex('+'));
    }
  }

  lemma {:induction false} OctetsAreOctets(hex: string, n: nat)
    requires 8 * n <= |hex| && OctetsTo(hex, n).Some?
    ensures AreOctets(OctetsTo(hex, n).value) && |OctetsTo(hex, n).value| == 4 * n
  {
    if n > 0 {
      OctetsAreOctets(hex, n - 1);
    }
  }

  /** What parses is an address of the table's family and a port; an IPv6 address takes exactly 32 characters. */
  lemma ParsedShape(s: string, v6: bool)
    requires Parsed(s, v6).Some?
    ensures var e := Parsed(s, v6).value;
            IsAddress(e.ip) && e.ip.V6? == v6 && 0 <= e.port < 65536
    ensures v6 ==> |s| > 33 && s[32] == ':' && forall i :: 0 <= i < 32 ==> s[i] != ':'
  {
    FirstColon(s, 0);
    if v6 {
      OctetsAreOctets(s[..ColonFrom(s, 0)], 4);
    }
  }
}
