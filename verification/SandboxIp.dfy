/**
 Sandbox address allowlisting: the IPv4 parser, CIDR membership by 32-bit masks, and the
 always-denied blocks. Numbers are the bit patterns of JavaScript's unsigned 32-bit integers.
 */
module SandboxIps {
  import opened Arithmetic
  import opened JsText
  import opened Options

  const WORD: nat := 0x1_0000_0000

  // ---- 32-bit operators ----

  function BitAnd(a: nat, b: nat): nat {
    if a == 0 || b == 0 then 0 else 2 * BitAnd(a / 2, b / 2) + if a % 2 == 1 && b % 2 == 1 then 1 else 0
  }

  function BitOr(a: nat, b: nat): nat
    decreases a + b
  {
    if a == 0 && b == 0 then 0 else 2 * BitOr(a / 2, b / 2) + if a % 2 == 1 || b % 2 == 1 then 1 else 0
  }

  /** (a << k) >>> 0: the shift count is taken modulo 32, the result modulo 2^32. */
  function ShiftLeft(a: nat, k: nat): nat {
    a * Pow2(k % 32) % WORD
  }

  // ---- Parsing ----

  /** /^\d{1,3}$/ */
  predicate DigitsOk(p: string) {
    1 <= |p| <= 3 && forall i :: 0 <= i < |p| ==> '0' <= p[i] <= '9'
  }

  function Number(p: string): nat
    requires forall i :: 0 <= i < |p| ==> '0' <= p[i] <= '9'
  {
    if p == "" then 0 else 10 * Number(p[..|p| - 1]) + (p[|p| - 1] as int - '0' as int)
  }

  /** One to three digits, no leading zero, at most 255. */
  predicate PartOk(p: string) {
    DigitsOk(p) && !(|p| > 1 && p[0] == '0') && Number(p) <= 255
  }

  function ParseParts(parts: seq<string>, n: nat): Option<nat> {
    if parts == [] then Some(n)
    else if !PartOk(parts[0]) then None
    else ParseParts(parts[1..], BitOr(ShiftLeft(n, 8), Number(parts[0])))
  }

  function ParseIPv4(ip: string): Option<nat> {
    var parts := Split(ip, '.');
    if |parts| != 4 then None else ParseParts(parts, 0)
  }

  /** The parser as it runs, accumulating octet by octet. */
  method ParseAddress(ip: string) returns (r: Option<nat>)
    ensures r == ParseIPv4(ip)
  {
    var parts := Split(ip, '.');
    if |parts| != 4 {
      return None;
    }
    var n := 0;
    for i := 0 to 4
      invariant ParseParts(parts[i..], n) == ParseParts(parts, 0)
    {
      var p := parts[i];
      if !DigitsOk(p) {
        return None;
      }
      if |p| > 1 && p[0] == '0' {
        return None;
      }
      var v := Number(p);
      if v > 255 {
        return None;
      }
      n := BitOr(ShiftLeft(n, 8), v);
    }
    r := Some(n);
  }

  // ---- Membership ----

  /** A CIDR block as written: network text, and the suffix as the number it denotes, if integral. */
  datatype Cidr = Cidr(net: string, bits: Option<int>)

  function Mask(bits: nat): nat
    requires bits <= 32
  {
    if bits == 0 then 0 else ShiftLeft(0xffff_ffff, 32 - bits)
  }

  predicate InCidr(ip: nat, c: Cidr) {
    var net := ParseIPv4(c.net);
    net.Some? && c.bits.Some? && 0 <= c.bits.value <= 32
    && BitAnd(ip, Mask(c.bits.value)) == BitAnd(net.value, Mask(c.bits.value))
  }

  const ALWAYS_DENIED: seq<Cidr> := [
    Cidr("127.0.0.0", Some(8)), Cidr("169.254.0.0", Some(16)), Cidr("100.64.0.0", Some(10)),
    Cidr("0.0.0.0", Some(8)), Cidr("224.0.0.0", Some(4))]

  const DEFAULT_ALLOWED: seq<Cidr> := [
    Cidr("10.0.0.0", Some(8)), Cidr("172.16.0.0", Some(12)), Cidr("192.168.0.0", Some(16))]

  predicate InSome(ip: nat, blocks: seq<Cidr>) {
    exists i :: 0 <= i < |blocks| && InCidr(ip, blocks[i])
  }

  /** allowlist is None when it is not configured at all. */
  predicate IsAllowedSandboxIP(ip: string, allowlist: Option<seq<Cidr>>) {
    var n := ParseIPv4(ip);
    if n.None? then false
    else if InSome(n.value, ALWAYS_DENIED) then false
    else
      var allowed := if allowlist.None? then DEFAULT_ALLOWED else allowlist.value;
      if allowed == [] then false else InSome(n.value, allowed)
  }

  // ---- Masks are quotients ----

  lemma {:induction false} OrZero(a: nat)
    ensures BitOr(a, 0) == a
  {
    if a > 0 {
      OrZero(a / 2);
    }
  }

  /** Or-ing in fewer bits than were shifted in is adding. */
  lemma {:induction false} OrIsSum(a: nat, v: nat, k: nat)
    requires v < Pow2(k)
    ensures BitOr(a * Pow2(k), v) == a * Pow2(k) + v
  {
    if k == 0 {
      OrZero(a);
    } else {
      var half := a * Pow2(k - 1);
      assert a * Pow2(k) == 2 * half;
      OrIsSum(a, v / 2, k - 1);
      if half == 0 && v == 0 {
        assert BitOr(0, 0) == 0;
      } else {
        assert BitOr(2 * half, v) == 2 * BitOr(half, v / 2) + v % 2;
      }
    }
  }

  lemma {:induction false} AndOnes(x: nat, w: nat)
    requires x < Pow2(w)
    ensures BitAnd(x, Pow2(w) - 1) == x
  {
    if x > 0 {
      var ones := Pow2(w) - 1;
      assert ones == 2 * (Pow2(w - 1) - 1) + 1;
      AndOnes(x / 2, w - 1);
    }
  }

  /** Halving k times. */
  function Shr(x: nat, k: nat): nat {
    if k == 0 then x else Shr(x / 2, k - 1)
  }

  lemma HalfFirst(x: nat, p: nat)
    requires p > 0
    ensures x / (2 * p) == x / 2 / p
  {
    var h := x / 2;
    var q, r := h / p, h % p;
    assert h == q * p + r;
    assert q * (2 * p) == 2 * (q * p);
    QuotientUnique(x, 2 * p, q, 2 * r + x % 2);
  }

  lemma {:induction false} ShrIsQuotient(x: nat, k: nat)
    ensures x / Pow2(k) == Shr(x, k)
  {
    if k > 0 {
      ShrIsQuotient(x / 2, k - 1);
      HalfFirst(x, Pow2(k - 1));
    }
  }

  /** And-ing with w - k ones over k zeros clears the low k bits. */
  lemma {:induction false} AndMask(x: nat, w: nat, k: nat)
    requires k <= w && x < Pow2(w)
    ensures Pow2(k) <= Pow2(w) && BitAnd(x, Pow2(w) - Pow2(k)) == Shr(x, k) * Pow2(k)
  {
    if k == 0 {
      AndOnes(x, w);
    } else {
      AndMask(x / 2, w - 1, k - 1);
      AndEven(x, Pow2(w) - Pow2(k), Pow2(w - 1) - Pow2(k - 1), Shr(x / 2, k - 1), Pow2(k - 1));
    }
  }

  lemma AndEven(x: nat, mask: nat, half: nat, q: nat, p: nat)
    requires mask == 2 * half && BitAnd(x / 2, half) == q * p
    ensures BitAnd(x, mask) == q * (2 * p)
  {
    assert q * (2 * p) == 2 * (q * p);
  }

  lemma Pow32()
    ensures Pow2(32) == WORD
  {
    assert Pow2(8) == 256;
    assert Pow2(16) == 256 * Pow2(8);
    assert Pow2(24) == 256 * Pow2(16);
    assert Pow2(32) == 256 * Pow2(24);
  }

  lemma OnesShifted(p: nat)
    requires 1 <= p < WORD
    ensures 0xffff_ffff * p % WORD == WORD - p
  {
    assert 0xffff_ffff * p == (p - 1) * WORD + (WORD - p);
    QuotientUnique(0xffff_ffff * p, WORD, p - 1, WORD - p);
  }

  /** With one bit or more, the mask is the ones shifted and cut to a word. */
  lemma MaskShifted(bits: nat)
    requires 0 < bits <= 32
    ensures Pow2(32 - bits) < WORD && Mask(bits) == WORD - Pow2(32 - bits)
  {
    var p := Pow2(32 - bits);
    Pow32();
    Pow2Monotone(32 - bits, 31);
    assert Pow2(32) == 2 * Pow2(31);
    assert (32 - bits) % 32 == 32 - bits;
    OnesShifted(p);
  }

  lemma MaskIs(bits: nat)
    requires bits <= 32
    ensures Pow2(32 - bits) <= WORD && Mask(bits) == WORD - Pow2(32 - bits)
  {
    if bits == 0 {
      Pow32();
    } else {
      MaskShifted(bits);
    }
  }

  // ---- Printing and parsing are inverse ----

  function DigitChar(d: nat): char
    requires d < 10
  {
    ('0' as int + d) as char
  }

  /** The decimal numeral of an octet. */
  function Dec(v: nat): string
    requires v <= 255
  {
    if v < 10 then [DigitChar(v)]
    else if v < 100 then [DigitChar(v / 10), DigitChar(v % 10)]
    else [DigitChar(v / 100), DigitChar(v / 10 % 10), DigitChar(v % 10)]
  }

  function Octets(n: nat): seq<string>
    requires n < WORD
  {
    [Dec(n / 0x100_0000), Dec(n / 0x1_0000 % 256), Dec(n / 256 % 256), Dec(n % 256)]
  }

  /** The canonical dotted quad of an address. */
  function Print(n: nat): string
    requires n < WORD
  {
    Join(Octets(n), ".")
  }

  lemma NumberOf1(a: char)
    requires '0' <= a <= '9'
    ensures Number([a]) == a as int - '0' as int
  {
    assert [a][..0] == "";
  }

  lemma NumberOf2(a: char, b: char)
    requires '0' <= a <= '9' && '0' <= b <= '9'
    ensures Number([a, b]) == 10 * (a as int - '0' as int) + (b as int - '0' as int)
  {
    NumberOf1(a);
    assert [a, b][..1] == [a];
  }

  lemma NumberOf3(a: char, b: char, c: char)
    requires '0' <= a <= '9' && '0' <= b <= '9' && '0' <= c <= '9'
    ensures Number([a, b, c]) == 100 * (a as int - '0' as int) + 10 * (b as int - '0' as int) + (c as int - '0' as int)
  {
    NumberOf2(a, b);
    assert [a, b, c][..2] == [a, b];
  }

  lemma Printed2(a: nat, b: nat)
    requires 1 <= a < 10 && b < 10
    ensures var p := [DigitChar(a), DigitChar(b)]; PartOk(p) && Number(p) == 10 * a + b && '.' !in p
  {
    NumberOf2(DigitChar(a), DigitChar(b));
  }

  lemma Printed3(a: nat, b: nat, c: nat)
    requires 1 <= a < 10 && b < 10 && c < 10 && 100 * a + 10 * b + c <= 255
    ensures var p := [DigitChar(a), DigitChar(b), DigitChar(c)];
      PartOk(p) && Number(p) == 100 * a + 10 * b + c && '.' !in p
  {
    NumberOf3(DigitChar(a), DigitChar(b), DigitChar(c));
  }

  lemma PartPrinted(v: nat)
    requires v <= 255
    ensures PartOk(Dec(v)) && Number(Dec(v)) == v && '.' !in Dec(v)
  {
    if v < 10 {
      NumberOf1(DigitChar(v));
    } else if v < 100 {
      Printed2(v / 10, v % 10);
    } else {
      assert v == 100 * (v / 100) + 10 * (v / 10 % 10) + v % 10;
      Printed3(v / 100, v / 10 % 10, v % 10);
    }
  }

  lemma DecOf2(a: nat, b: nat)
    requires 1 <= a < 10 && b < 10
    ensures Dec(10 * a + b) == [DigitChar(a), DigitChar(b)]
  {
  }

  lemma DecOf3(a: nat, b: nat, c: nat)
    requires 1 <= a && b < 10 && c < 10 && 100 * a + 10 * b + c <= 255
    ensures Dec(100 * a + 10 * b + c) == [DigitChar(a), DigitChar(b), DigitChar(c)]
  {
    var v := 100 * a + 10 * b + c;
    assert v / 10 == 10 * a + b;
    assert v / 100 == a;
  }

  function DigitValue(c: char): (d: nat)
    requires '0' <= c <= '9'
    ensures d < 10 && DigitChar(d) == c
  {
    c as int - '0' as int
  }

  lemma PartParsed(p: string)
    requires PartOk(p)
    ensures Dec(Number(p)) == p
  {
    if |p| == 1 {
      assert p == [p[0]];
      NumberOf1(p[0]);
      assert DigitChar(DigitValue(p[0])) == p[0];
    } else if |p| == 2 {
      assert p == [p[0], p[1]];
      NumberOf2(p[0], p[1]);
      DecOf2(DigitValue(p[0]), DigitValue(p[1]));
    } else {
      assert p == [p[0], p[1], p[2]];
      NumberOf3(p[0], p[1], p[2]);
      DecOf3(DigitValue(p[0]), DigitValue(p[1]), DigitValue(p[2]));
    }
  }

  /** One turn of the accumulator is a multiply-add, as long as no bit falls off the top. */
  lemma Accumulate(n: nat, v: nat)
    requires n < 0x100_0000 && v < 256
    ensures BitOr(ShiftLeft(n, 8), v) == 256 * n + v
  {
    var p := Pow2(8);
    assert p == 256;
    assert ShiftLeft(n, 8) == n * p;
    OrIsSum(n, v, 8);
  }

  lemma PartStep(parts: seq<string>, i: nat, n: nat)
    requires i < |parts| && n < 0x100_0000
    ensures ParseParts(parts[i..], n) ==
      if PartOk(parts[i]) then ParseParts(parts[i + 1..], 256 * n + Number(parts[i])) else None
  {
    assert parts[i..][1..] == parts[i + 1..];
    if PartOk(parts[i]) {
      Accumulate(n, Number(parts[i]));
    }
  }

  lemma PartsValue(parts: seq<string>)
    requires |parts| == 4
    ensures ParseParts(parts, 0) ==
      if PartOk(parts[0]) && PartOk(parts[1]) && PartOk(parts[2]) && PartOk(parts[3])
      then Some(0x100_0000 * Number(parts[0]) + 0x1_0000 * Number(parts[1]) + 256 * Number(parts[2]) + Number(parts[3]))
      else None
  {
    assert parts[0..] == parts && parts[4..] == [];
    PartStep(parts, 0, 0);
    if PartOk(parts[0]) {
      var a := Number(parts[0]);
      PartStep(parts, 1, a);
      if PartOk(parts[1]) {
        var b := 256 * a + Number(parts[1]);
        PartStep(parts, 2, b);
        if PartOk(parts[2]) {
          PartStep(parts, 3, 256 * b + Number(parts[2]));
        }
      }
    }
  }

  lemma OctetsOf(a: nat, b: nat, c: nat, d: nat)
    requires a <= 255 && b <= 255 && c <= 255 && d <= 255
    ensures var n := 0x100_0000 * a + 0x1_0000 * b + 256 * c + d;
      n < WORD && n / 0x100_0000 == a && n / 0x1_0000 % 256 == b && n / 256 % 256 == c && n % 256 == d
  {
    QuotientUnique(0x100_0000 * a + (0x1_0000 * b + 256 * c + d), 0x100_0000, a, 0x1_0000 * b + 256 * c + d);
    QuotientUnique(0x1_0000 * (256 * a + b) + (256 * c + d), 0x1_0000, 256 * a + b, 256 * c + d);
    QuotientUnique(256 * (0x1_0000 * a + 256 * b + c) + d, 256, 0x1_0000 * a + 256 * b + c, d);
    QuotientUnique(256 * a + b, 256, a, b);
    QuotientUnique(256 * (256 * a + b) + c, 256, 256 * a + b, c);
  }

  lemma OctetsPrinted(parts: seq<string>)
    requires |parts| == 4 && PartOk(parts[0]) && PartOk(parts[1]) && PartOk(parts[2]) && PartOk(parts[3])
    ensures
      var n := 0x100_0000 * Number(parts[0]) + 0x1_0000 * Number(parts[1]) + 256 * Number(parts[2]) + Number(parts[3]);
      n < WORD && Octets(n) == parts
  {
    OctetsOf(Number(parts[0]), Number(parts[1]), Number(parts[2]), Number(parts[3]));
    PartParsed(parts[0]);
    PartParsed(parts[1]);
    PartParsed(parts[2]);
    PartParsed(parts[3]);
  }

  lemma ParsedIsPrinted(s: string)
    ensures var n := ParseIPv4(s); n.Some? ==> n.value < WORD && s == Print(n.value)
  {
    var parts := Split(s, '.');
    if |parts| == 4 {
      PartsValue(parts);
      if ParseParts(parts, 0).Some? {
        OctetsPrinted(parts);
        JoinSplit(s, '.');
      }
    }
  }

  lemma QuadParsed(a: nat, b: nat, c: nat, d: nat)
    requires a <= 255 && b <= 255 && c <= 255 && d <= 255
    ensures ParseIPv4(Join([Dec(a), Dec(b), Dec(c), Dec(d)], ".")) == Some(0x100_0000 * a + 0x1_0000 * b + 256 * c + d)
  {
    var o := [Dec(a), Dec(b), Dec(c), Dec(d)];
    PartPrinted(a);
    PartPrinted(b);
    PartPrinted(c);
    PartPrinted(d);
    SplitJoin(o, '.');
    PartsValue(o);
  }

  lemma SumOfOctets(n: nat)
    requires n < WORD
    ensures n / 0x100_0000 <= 255
    ensures n == 0x100_0000 * (n / 0x100_0000) + 0x1_0000 * (n / 0x1_0000 % 256) + 256 * (n / 256 % 256) + n % 256
  {
    var h := n / 256;
    var g := h / 256;
    QuotientUnique(n, 0x1_0000, g, 256 * (h % 256) + n % 256);
    QuotientUnique(n, 0x100_0000, g / 256, 0x1_0000 * (g % 256) + 256 * (h % 256) + n % 256);
  }

  lemma PrintedIsParsed(n: nat)
    requires n < WORD
    ensures ParseIPv4(Print(n)) == Some(n)
  {
    SumOfOctets(n);
    QuadParsed(n / 0x100_0000, n / 0x1_0000 % 256, n / 256 % 256, n % 256);
  }

  /** The parser accepts exactly the canonical dotted quads and inverts their printer. */
  lemma ParseExact(s: string, n: nat)
    ensures ParseIPv4(s) == Some(n) <==> n < WORD && s == Print(n)
  {
    ParsedIsPrinted(s);
    if n < WORD {
      PrintedIsParsed(n);
    }
  }

  lemma JoinFour(a: string, b: string, c: string, d: string)
    ensures Join([a, b, c, d], ".") == a + "." + b + "." + c + "." + d
  {
    assert [a, b, c, d][1..] == [b, c, d] && [b, c, d][1..] == [c, d] && [c, d][1..] == [d];
    assert Join([c, d], ".") == c + "." + d;
    assert Join([b, c, d], ".") == b + "." + (c + "." + d);
  }

  /** The address a.b.c.d, written out. */
  lemma Quad(a: nat, b: nat, c: nat, d: nat)
    requires a <= 255 && b <= 255 && c <= 255 && d <= 255
    ensures ParseIPv4(Dec(a) + "." + Dec(b) + "." + Dec(c) + "." + Dec(d))
         == Some(0x100_0000 * a + 0x1_0000 * b + 256 * c + d)
  {
    JoinFour(Dec(a), Dec(b), Dec(c), Dec(d));
    QuadParsed(a, b, c, d);
  }

  // ---- Membership ----

  lemma MaskedIs(x: nat, bits: nat)
    requires x < WORD && bits <= 32
    ensures BitAnd(x, Mask(bits)) == Shr(x, 32 - bits) * Pow2(32 - bits)
  {
    Pow32();
    MaskIs(bits);
    AndMask(x, 32, 32 - bits);
  }

  lemma SameProduct(a: nat, b: nat, p: nat)
    requires p >= 1
    ensures a * p == b * p <==> a == b
  {
    MulMono(a + 1, b, p);
    MulMono(b + 1, a, p);
  }

  lemma Scaled(a: nat, b: nat, p: nat, u: nat, v: nat)
    requires p >= 1 && u == a * p && v == b * p
    ensures u == v <==> a == b
  {
    SameProduct(a, b, p);
  }

  lemma MaskedEqual(x: nat, y: nat, bits: nat)
    requires x < WORD && y < WORD && bits <= 32
    ensures BitAnd(x, Mask(bits)) == BitAnd(y, Mask(bits)) <==> x / Pow2(32 - bits) == y / Pow2(32 - bits)
  {
    var k := 32 - bits;
    MaskedIs(x, bits);
    MaskedIs(y, bits);
    Scaled(Shr(x, k), Shr(y, k), Pow2(k), BitAnd(x, Mask(bits)), BitAnd(y, Mask(bits)));
    ShrIsQuotient(x, k);
    ShrIsQuotient(y, k);
  }

  /** Masking with 32-bit shifts compares the leading bits: the quotients by 2^(32 - bits). */
  lemma InCidrExactly(ip: nat, c: Cidr)
    requires ip < WORD
    ensures InCidr(ip, c) <==>
      && ParseIPv4(c.net).Some? && c.bits.Some? && 0 <= c.bits.value <= 32
      && ip / Pow2(32 - c.bits.value) == ParseIPv4(c.net).value / Pow2(32 - c.bits.value)
  {
    var net := ParseIPv4(c.net);
    if net.Some? && c.bits.Some? && 0 <= c.bits.value <= 32 {
      ParsedIsPrinted(c.net);
      MaskedEqual(ip, net.value, c.bits.value);
    }
  }

  // ---- What the lists admit ----

  /** Loopback, link-local, carrier-grade NAT, "this network" and multicast, by number. */
  predicate NeverAllowed(n: nat) {
    || n / 0x100_0000 == 127
    || n / 0x1_0000 == 169 * 256 + 254
    || n / 0x40_0000 == 100 * 4 + 1
    || n / 0x100_0000 == 0
    || n / 0x1000_0000 == 14
  }

  /** 10/8, 172.16/12 and 192.168/16, by number. */
  predicate Private(n: nat) {
    || n / 0x100_0000 == 10
    || n / 0x10_0000 == 172 * 16 + 1
    || n / 0x1_0000 == 192 * 256 + 168
  }

  /** A block whose network is a.b.0.0, decided by one quotient. */
  lemma Block(n: nat, net: string, a: nat, b: nat, bits: nat, size: nat, lead: nat)
    requires n < WORD && a <= 255 && b <= 255 && bits <= 32
    requires net == Dec(a) + "." + Dec(b) + "." + Dec(0) + "." + Dec(0)
    requires size == Pow2(32 - bits) && 0x100_0000 * a + 0x1_0000 * b == lead * size
    ensures InCidr(n, Cidr(net, Some(bits))) <==> n / size == lead
  {
    Quad(a, b, 0, 0);
    InCidrExactly(n, Cidr(net, Some(bits)));
    QuotientUnique(lead * size, size, lead, 0);
  }

  lemma Powers()
    ensures Pow2(16) == 0x1_0000 && Pow2(20) == 0x10_0000 && Pow2(22) == 0x40_0000
    ensures Pow2(24) == 0x100_0000 && Pow2(28) == 0x1000_0000
  {
    assert Pow2(8) == 256;
    assert Pow2(16) == 256 * Pow2(8);
    assert Pow2(20) == 16 * Pow2(16);
    assert Pow2(22) == 4 * Pow2(20);
    assert Pow2(24) == 4 * Pow2(22);
    assert Pow2(28) == 16 * Pow2(24);
  }

  lemma Loopback(n: nat, c: Cidr)
    requires n < WORD && c == Cidr("127.0.0.0", Some(8))
    ensures InCidr(n, c) <==> n / 0x100_0000 == 127
  {
    assert Dec(127) == "127" && Dec(0) == "0";
    assert Pow2(24) == 0x100_0000 by { Powers(); }
    Block(n, c.net, 127, 0, 8, 0x100_0000, 127);
  }

  lemma LinkLocal(n: nat, c: Cidr)
    requires n < WORD && c == Cidr("169.254.0.0", Some(16))
    ensures InCidr(n, c) <==> n / 0x1_0000 == 169 * 256 + 254
  {
    assert Dec(169) == "169" && Dec(254) == "254" && Dec(0) == "0";
    assert Pow2(16) == 0x1_0000 by { Powers(); }
    Block(n, c.net, 169, 254, 16, 0x1_0000, 169 * 256 + 254);
  }

  lemma SharedSpace(n: nat, c: Cidr)
    requires n < WORD && c == Cidr("100.64.0.0", Some(10))
    ensures InCidr(n, c) <==> n / 0x40_0000 == 100 * 4 + 1
  {
    assert Dec(100) == "100" && Dec(64) == "64" && Dec(0) == "0";
    assert Pow2(22) == 0x40_0000 by { Powers(); }
    Block(n, c.net, 100, 64, 10, 0x40_0000, 100 * 4 + 1);
  }

  lemma ThisNetwork(n: nat, c: Cidr)
    requires n < WORD && c == Cidr("0.0.0.0", Some(8))
    ensures InCidr(n, c) <==> n / 0x100_0000 == 0
  {
    assert Dec(0) == "0";
    assert Pow2(24) == 0x100_0000 by { Powers(); }
    Block(n, c.net, 0, 0, 8, 0x100_0000, 0);
  }

  lemma Multicast(n: nat, c: Cidr)
    requires n < WORD && c == Cidr("224.0.0.0", Some(4))
    ensures InCidr(n, c) <==> n / 0x1000_0000 == 14
  {
    assert Dec(224) == "224" && Dec(0) == "0";
    assert Pow2(28) == 0x1000_0000 by { Powers(); }
    Block(n, c.net, 224, 0, 4, 0x1000_0000, 14);
  }

  lemma Private10(n: nat, c: Cidr)
    requires n < WORD && c == Cidr("10.0.0.0", Some(8))
    ensures InCidr(n, c) <==> n / 0x100_0000 == 10
  {
    assert Dec(10) == "10" && Dec(0) == "0";
    assert Pow2(24) == 0x100_0000 by { Powers(); }
    Block(n, c.net, 10, 0, 8, 0x100_0000, 10);
  }

  lemma Private172(n: nat, c: Cidr)
    requires n < WORD && c == Cidr("172.16.0.0", Some(12))
    ensures InCidr(n, c) <==> n / 0x10_0000 == 172 * 16 + 1
  {
    assert Dec(172) == "172" && Dec(16) == "16" && Dec(0) == "0";
    assert Pow2(20) == 0x10_0000 by { Powers(); }
    Block(n, c.net, 172, 16, 12, 0x10_0000, 172 * 16 + 1);
  }

  lemma Private192(n: nat, c: Cidr)
    requires n < WORD && c == Cidr("192.168.0.0", Some(16))
    ensures InCidr(n, c) <==> n / 0x1_0000 == 192 * 256 + 168
  {
    assert Dec(192) == "192" && Dec(168) == "168" && Dec(0) == "0";
    assert Pow2(16) == 0x1_0000 by { Powers(); }
    Block(n, c.net, 192, 168, 16, 0x1_0000, 192 * 256 + 168);
  }

  lemma {:induction false} InSomeCons(n: nat, blocks: seq<Cidr>)
    requires blocks != []
    ensures InSome(n, blocks) <==> InCidr(n, blocks[0]) || InSome(n, blocks[1..])
  {
    if InSome(n, blocks[1..]) {
      var i :| 0 <= i < |blocks[1..]| && InCidr(n, blocks[1..][i]);
      assert InCidr(n, blocks[i + 1]);
    }
    if i :| 0 < i < |blocks| && InCidr(n, blocks[i]) {
      assert InCidr(n, blocks[1..][i - 1]);
    }
  }

  lemma ListsExactly(n: nat, denied: seq<Cidr>, private: seq<Cidr>)
    requires n < WORD && denied == ALWAYS_DENIED && private == DEFAULT_ALLOWED
    ensures InSome(n, denied) <==> NeverAllowed(n)
    ensures InSome(n, private) <==> Private(n)
  {
    Loopback(n, denied[0]);
    LinkLocal(n, denied[1]);
    SharedSpace(n, denied[2]);
    ThisNetwork(n, denied[3]);
    Multicast(n, denied[4]);
    InSomeFive(n, denied);
    Private10(n, private[0]);
    Private172(n, private[1]);
    Private192(n, private[2]);
    InSomeThree(n, private);
  }

  lemma InSomeThree(n: nat, blocks: seq<Cidr>)
    requires |blocks| == 3
    ensures InSome(n, blocks) <==> InCidr(n, blocks[0]) || InCidr(n, blocks[1]) || InCidr(n, blocks[2])
  {
    InSomeCons(n, blocks);
    InSomeCons(n, blocks[1..]);
    InSomeCons(n, blocks[2..]);
    assert blocks[1..][1..] == blocks[2..];
  }

  lemma InSomeFive(n: nat, blocks: seq<Cidr>)
    requires |blocks| == 5
    ensures InSome(n, blocks) <==>
      || InCidr(n, blocks[0]) || InCidr(n, blocks[1]) || InCidr(n, blocks[2])
      || InCidr(n, blocks[3]) || InCidr(n, blocks[4])
  {
    InSomeCons(n, blocks);
    InSomeCons(n, blocks[1..]);
    InSomeThree(n, blocks[2..]);
    assert blocks[1..][1..] == blocks[2..];
  }

  /**
   Exactly what is admitted: a canonical dotted quad outside the always-denied blocks that some
   listed block contains. So no list whatsoever admits an always-denied address, an empty list
   admits nothing, and without a list exactly the private addresses are admitted.
   */
  lemma AllowedExactly(ip: string, allowlist: Option<seq<Cidr>>)
    ensures IsAllowedSandboxIP(ip, allowlist) <==>
      exists n | 0 <= n < WORD && ip == Print(n) ::
        !NeverAllowed(n) && (if allowlist.None? then Private(n) else InSome(n, allowlist.value))
  {
    var parsed := ParseIPv4(ip);
    if parsed.Some? {
      ParseExact(ip, parsed.value);
      ListsExactly(parsed.value, ALWAYS_DENIED, DEFAULT_ALLOWED);
    }
    forall n | 0 <= n < WORD && ip == Print(n)
      ensures parsed == Some(n)
    {
      ParseExact(ip, n);
    }
  }

  /**
   The reserved addresses from 240.0.0.0 on are in no denied block, although the comment beside the
   list names them: a list that contains them admits them.
   */
  lemma ReservedAdmitted(n: nat, c: Cidr)
    requires n < WORD && n / 0x1000_0000 == 15 && c == Cidr("240.0.0.0", Some(4))
    ensures !NeverAllowed(n) && IsAllowedSandboxIP(Print(n), Some([c]))
  {
    assert Dec(240) == "240" && Dec(0) == "0";
    assert Pow2(28) == 0x1000_0000 by { Powers(); }
    Block(n, c.net, 240, 0, 4, 0x1000_0000, 15);
    ReservedNotDenied(n);
    assert InCidr(n, [c][0]);
    AllowedExactly(Print(n), Some([c]));
  }

  lemma ReservedNotDenied(n: nat)
    requires n < WORD && n / 0x1000_0000 == 15
    ensures !NeverAllowed(n)
  {
    assert n >= 0xF000_0000;
  }
}
