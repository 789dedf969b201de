/** Host patterns of the allow and deny lists: exact addresses and subnets. */
module Hosts {
  import opened Bytes

  // ---------------------------------------------------------------- prefixes of addresses

  /** An address as a number, most significant octet first. */
  function Value(s: seq<byte>): nat {
    if s == [] then 0 else 0x100 * Value(s[..|s| - 1]) + s[|s| - 1]
  }

  function Pow2(k: nat): (p: nat)
    ensures p >= 1
  {
    if k == 0 then 1 else 2 * Pow2(k - 1)
  }

  /** Section 3.1 of RFC 4632: the first p bits agree, that is, the numbers without their low bits are equal. */
  ghost predicate SamePrefix(net: seq<byte>, host: seq<byte>, p: nat)
    requires |net| == |host| && p <= 8 * |net|
  {
    Value(net) / Pow2(8 * |net| - p) == Value(host) / Pow2(8 * |host| - p)
  }

  /** The octet with its low k bits cleared. */
  function Masked(b: byte, k: nat): int { b / Pow2(k) * Pow2(k) }

  /** What the octets have to satisfy: full octets equal, and the rest under the mask. */
  ghost predicate OctetsAgree(net: seq<byte>, host: seq<byte>, p: nat)
    requires |net| == |host| && p <= 8 * |net|
  {
    && net[..p / 8] == host[..p / 8]
    && (p % 8 > 0 ==> Masked(net[p / 8], 8 - p % 8) == Masked(host[p / 8], 8 - p % 8))
  }

  lemma {:induction false} ValueInjective(a: seq<byte>, b: seq<byte>)
    requires |a| == |b| && Value(a) == Value(b)
    ensures a == b
  {
    if a != [] {
      ValueInjective(a[..|a| - 1], b[..|b| - 1]);
      assert a == a[..|a| - 1] + [a[|a| - 1]] && b == b[..|b| - 1] + [b[|b| - 1]];
    }
  }

  lemma DivDiv(x: nat, a: nat, b: nat)
    requires a > 0 && b > 0
    ensures a * b > 0 && x / (a * b) == x / a / b
  {
    var q, r := x / a / b, x / a % b;
    assert x == a * (b * q + r) + x % a;
    assert a * (b * q + r) == (a * b) * q + a * r;
    assert a * r <= a * (b - 1);
    DivModUnique(x, a * b, q, a * r + x % a);
  }

  lemma {:induction false} Pow2Sum(j: nat, k: nat)
    ensures Pow2(j + k) == Pow2(j) * Pow2(k)
  {
    if j > 0 {
      Pow2Sum(j - 1, k);
    }
  }

  lemma SmallPow2(k: nat)
    requires k <= 8
    ensures Pow2(k) == [1, 2, 4, 8, 16, 32, 64, 128, 256][k]
  {
    assert Pow2(2) == 4 && Pow2(4) == 16 && Pow2(6) == 64;
  }

  /** The number with its low k bits cut off. */
  function Cut(v: nat, k: nat): int { v / Pow2(k) }

  /** Cut inside its low octet a number keeps the octets before it whole. */
  lemma CutLastOctet(v: nat, b: byte, k: nat)
    requires k < 8
    ensures Cut(0x100 * v + b, k) == v * Pow2(8 - k) + Cut(b, k)
    ensures 0 <= Cut(b, k) < Pow2(8 - k)
  {
    SmallPow2(k);
    SmallPow2(8 - k);
  }

  lemma CutsAgree(v: nat, b: byte, v': nat, b': byte, k: nat)
    requires k < 8
    ensures Cut(0x100 * v + b, k) == Cut(0x100 * v' + b', k) <==> v == v' && Cut(b, k) == Cut(b', k)
  {
    hide Pow2, Cut;
    CutLastOctet(v, b, k);
    CutLastOctet(v', b', k);
    PairsAgree(v, Cut(b, k), v', Cut(b', k), Pow2(8 - k));
  }

  lemma PairsAgree(v: nat, x: int, v': nat, x': int, d: nat)
    requires 0 <= x < d && 0 <= x' < d
    ensures v * d + x == v' * d + x' <==> v == v' && x == x'
  {
    DivModUnique(v * d + x, d, v, x);
    DivModUnique(v' * d + x', d, v', x');
  }

  lemma MaskedAgree(b: byte, b': byte, k: nat)
    ensures Masked(b, k) == Masked(b', k) <==> Cut(b, k) == Cut(b', k)
  {
    DivModUnique(Masked(b, k), Pow2(k), b / Pow2(k), 0);
    DivModUnique(Masked(b', k), Pow2(k), b' / Pow2(k), 0);
  }

  lemma DropLastOctet(s: seq<byte>, j: nat)
    requires s != []
    ensures Value(s) / Pow2(8 + j) == Value(s[..|s| - 1]) / Pow2(j)
  {
    SmallPow2(8);
    Pow2Sum(8, j);
    DivDiv(Value(s), 0x100, Pow2(j));
    DivModUnique(Value(s), 0x100, Value(s[..|s| - 1]), s[|s| - 1]);
  }

  /** The comparison octet by octet decides exactly whether the first p bits agree. */
  lemma {:induction false} OctetsAgreeExactly(net: seq<byte>, host: seq<byte>, p: nat)
    requires |net| == |host| && p <= 8 * |net|
    ensures OctetsAgree(net, host, p) <==> SamePrefix(net, host, p)
    decreases |net|
  {
    hide Value, Pow2, Masked;
    var n := |net|;
    if p == 8 * n {
      WholeAgree(net, host);
    } else {
      var net0, host0 := net[..n - 1], host[..n - 1];
      if p <= 8 * (n - 1) {
        OctetsAgreeExactly(net0, host0, p);
        DropLastOctet(net, 8 * (n - 1) - p);
        DropLastOctet(host, 8 * (n - 1) - p);
        assert net0[..p / 8] == net[..p / 8] && host0[..p / 8] == host[..p / 8];
      } else {
        LastOctetAgree(net, host, p);
      }
    }
  }

  lemma WholeAgree(net: seq<byte>, host: seq<byte>)
    requires |net| == |host|
    ensures OctetsAgree(net, host, 8 * |net|) <==> SamePrefix(net, host, 8 * |net|)
  {
    assert net[..|net|] == net && host[..|host|] == host;
    assert Value(net) / Pow2(0) == Value(net) && Value(host) / Pow2(0) == Value(host);
    if Value(net) == Value(host) {
      ValueInjective(net, host);
    }
  }

  lemma LastOctetAgree(net: seq<byte>, host: seq<byte>, p: nat)
    requires |net| == |host| && 8 * (|net| - 1) < p < 8 * |net|
    ensures OctetsAgree(net, host, p) <==> SamePrefix(net, host, p)
  {
    var n := |net|;
    var k := 8 * n - p;
    var net0, host0 := net[..n - 1], host[..n - 1];
    assert p / 8 == n - 1 && 8 - p % 8 == k;
    CutsAgree(Value(net0), net[n - 1], Value(host0), host[n - 1], k);
    MaskedAgree(net[n - 1], host[n - 1], k);
    if Value(net0) == Value(host0) {
      ValueInjective(net0, host0);
    }
  }

  /** A match at a longer prefix is a match at every shorter one. */
  lemma ShorterPrefixMatches(net: seq<byte>, host: seq<byte>, p: nat, q: nat)
    requires |net| == |host| && q <= p <= 8 * |net| && SamePrefix(net, host, p)
    ensures SamePrefix(net, host, q)
  {
    var k, j := 8 * |net| - p, p - q;
    Pow2Sum(k, j);
    DivDiv(Value(net), Pow2(k), Pow2(j));
    DivDiv(Value(host), Pow2(k), Pow2(j));
  }

  // ---------------------------------------------------------------- patterns

  datatype Family = Inet | Inet6

  function Octets(af: Family): nat { if af.Inet? then 4 else 16 }

  /** inet_pton, as a parameter: the octets of an address text. */
  type Pton = f: (Family, string) -> Option<seq<byte>> | AddressLengths(f) witness (_, _) => None

  ghost predicate AddressLengths(f: (Family, string) -> Option<seq<byte>>) {
    forall af, s :: f(af, s).Some? ==> |f(af, s).value| == Octets(af)
  }

  const NETWORK_STR := 47

  predicate Space(c: char) { c == ' ' || '\t' <= c <= '\r' }

  function SkipSpaces(s: string): string { if s != [] && Space(s[0]) then SkipSpaces(s[1..]) else s }

  predicate Digits(s: string) { s != [] && forall i :: 0 <= i < |s| ==> '0' <= s[i] <= '9' }

  function Decimal(s: string): nat
    requires forall i :: 0 <= i < |s| ==> '0' <= s[i] <= '9'
  {
    if s == [] then 0 else 10 * Decimal(s[..|s| - 1]) + (s[|s| - 1] as int - '0' as int)
  }

  const TWO_63 := 0x8000_0000_0000_0000

  /** strtol in base 10 on the whole of s; None when it finds no number, something behind it, or a range error. */
  function Strtol(s: string): Option<int> {
    var t := SkipSpaces(s);
    var sign := if t != [] && t[0] == '-' then -1 else 1;
    var d := if t != [] && (t[0] == '-' || t[0] == '+') then t[1..] else t;
    if Digits(d) && -TWO_63 <= sign * Decimal(d) < TWO_63 then Some(sign * Decimal(d)) else None
  }

  /** The long becomes an int: the low 32 bits, as a signed number. */
  function ToInt(n: int): int { (n + 0x8000_0000) % TWO_32 - 0x8000_0000 }

  function Slash(s: string): (i: nat)
    ensures i <= |s| && (i < |s| ==> s[i] == '/') && '/' !in s[..i]
  {
    if s == [] || s[0] == '/' then 0
    else
      var i := Slash(s[1..]);
      assert s[..1 + i] == [s[0]] + s[1..][..i];
      1 + i
  }

  datatype Subnet = Subnet(net: seq<byte>, host: seq<byte>, length: nat)

  /** The pattern and the address as octets of one family, and the prefix length; None asks for a plain comparison. */
  function Read(pton: Pton, pattern: string, addr: string): (r: Option<Subnet>)
    ensures r.Some? ==> |r.value.net| == |r.value.host| && r.value.length <= 8 * |r.value.net|
  {
    var i := Slash(pattern);
    if i == |pattern| || i == 0 || i >= NETWORK_STR then None
    else
      var n := Strtol(pattern[i + 1..]);
      var af := FamilyOf(pattern[..i]);
      if n.None? || ToInt(n.value) < 0 then None
      else if pton(af, pattern[..i]).None? || pton(af, addr).None? || ToInt(n.value) > 8 * Octets(af) then None
      else Some(Subnet(pton(af, pattern[..i]).value, pton(af, addr).value, ToInt(n.value)))
  }

  /** A subnet accepts the addresses that share its prefix; any other pattern accepts itself. */
  ghost predicate Accepts(pton: Pton, pattern: string, addr: string) {
    var r := Read(pton, pattern, addr);
    if r.None? then pattern == addr else SamePrefix(r.value.net, r.value.host, r.value.length)
  }

  method PrefixMatches(net: seq<byte>, host: seq<byte>, p: nat) returns (ok: bool)
    requires |net| == |host| && p <= 8 * |net|
    ensures ok == SamePrefix(net, host, p)
  {
    hide SamePrefix, Masked;
    OctetsAgreeExactly(net, host, p);
    var fullBytes, remainingBits := p / 8, p % 8;
    for i := 0 to fullBytes
      invariant net[..i] == host[..i]
    {
      if net[i] != host[i] {
        assert net[..fullBytes][i] != host[..fullBytes][i];
        return false;
      }
    }
    if remainingBits > 0 {
      if Masked(net[fullBytes], 8 - remainingBits) != Masked(host[fullBytes], 8 - remainingBits) {
        return false;
      }
    }
    return true;
  }

  method MatchHostCidr(pton: Pton, pattern: string, addr: string) returns (ok: bool)
    ensures ok == Accepts(pton, pattern, addr)
  {
    hide SamePrefix, Strtol, ToInt;
    var i := 0;
    while i < |pattern| && pattern[i] != '/'
      invariant i <= |pattern| && '/' !in pattern[..i]
    {
      i := i + 1;
    }
    assert i == Slash(pattern) by { SlashIs(pattern, i); }
    if i == |pattern| || i == 0 || i >= NETWORK_STR {
      return pattern == addr;
    }
    var prefixLen := Strtol(pattern[i + 1..]);
    if prefixLen.None? || ToInt(prefixLen.value) < 0 {
      return pattern == addr;
    }
    var af := FamilyOf(pattern[..i]);
    var net := pton(af, pattern[..i]);
    if net.None? {
      return pattern == addr;
    }
    var host := pton(af, addr);
    if host.None? || ToInt(prefixLen.value) > 8 * Octets(af) {
      return pattern == addr;
    }
    ok := PrefixMatches(net.value, host.value, ToInt(prefixLen.value));
  }

  /** The int that a long becomes: in range, and with the same low 32 bits. */
  lemma NarrowsToInt(n: int)
    ensures -0x8000_0000 <= ToInt(n) < 0x8000_0000 && (ToInt(n) - n) % TWO_32 == 0
    ensures -0x8000_0000 <= n < 0x8000_0000 ==> ToInt(n) == n
  {
    var q := (n + 0x8000_0000) / TWO_32;
    assert ToInt(n) == n - TWO_32 * q;
    DivModUnique(0 - TWO_32 * q, TWO_32, 0 - q, 0);
  }

  /** Digits, with a sign or a blank in front of them, are read as a decimal number. */
  lemma NumbersRead(d: string)
    requires Digits(d) && Decimal(d) < TWO_63
    ensures Strtol(d) == Some(Decimal(d)) && Strtol("+" + d) == Some(Decimal(d)) && Strtol(" " + d) == Some(Decimal(d))
    ensures Strtol("-" + d) == Some(0 - Decimal(d))
  {
    hide Decimal;
    assert ("+" + d)[1..] == d && ("-" + d)[1..] == d && (" " + d)[1..] == d;
    assert SkipSpaces(" " + d) == SkipSpaces(d);
  }

  /** Anything behind the digits is an error. */
  lemma OnlyNumbersRead(d: string, c: char, more: string)
    requires Digits(d) && !('0' <= c <= '9')
    ensures Strtol(d + [c] + more) == None
  {
    hide Decimal;
    var t := d + [c] + more;
    assert t[0] == d[0] && t[|d|] == c;
  }

  lemma SlashIs(s: string, i: nat)
    requires i <= |s| && (i < |s| ==> s[i] == '/') && '/' !in s[..i]
    ensures Slash(s) == i
  {
  }

  lemma DecimalAppend(s: string, c: char)
    requires (s == [] || Digits(s)) && '0' <= c <= '9'
    ensures Digits(s + [c]) && Decimal(s + [c]) == 10 * Decimal(s) + (c as int - '0' as int)
  {
    assert (s + [c])[..|s|] == s;
  }

  lemma WideLength()
    ensures Strtol("4294967296") == Some(TWO_32)
  {
    hide Digits, Decimal;
    DecimalAppend("", '4');
    DecimalAppend("" + "4", '2');
    var a := "" + "4" + "2";
    DecimalAppend(a, '9');
    DecimalAppend(a + "9", '4');
    DecimalAppend(a + "9" + "4", '9');
    var b := a + "9" + "4" + "9";
    DecimalAppend(b, '6');
    DecimalAppend(b + "6", '7');
    DecimalAppend(b + "6" + "7", '2');
    var c := b + "6" + "7" + "2";
    DecimalAppend(c, '9');
    DecimalAppend(c + "9", '6');
    assert c + "9" + "6" == "4294967296";
    NoDigits();
  }

  lemma NoDigits()
    ensures Decimal("") == 0
  {
  }

  lemma {:induction false} ValueBound(s: seq<byte>)
    ensures Value(s) < Pow2(8 * |s|)
  {
    if s != [] {
      ValueBound(s[..|s| - 1]);
      Pow2Sum(8, 8 * |s| - 8);
      SmallPow2(8);
    }
  }

  function FamilyOf(net: string): Family { if ':' in net then Inet6 else Inet }

  /** The length that is compared is within the width of the address. */
  predicate Narrows(net: string, length: string)
    requires Strtol(length).Some?
  {
    0 <= ToInt(Strtol(length).value) <= 8 * Octets(FamilyOf(net))
  }

  /** What a pattern of a network and a number accepts: the low 32 bits of the number are the prefix length. */
  lemma PatternAccepts(pton: Pton, net: string, length: string, addr: string)
    requires 0 < |net| < NETWORK_STR && '/' !in net
    requires pton(FamilyOf(net), net).Some? && Strtol(length).Some?
    ensures var host := pton(FamilyOf(net), addr);
            Accepts(pton, net + "/" + length, addr) <==>
            if host.Some? && Narrows(net, length)
            then SamePrefix(pton(FamilyOf(net), net).value, host.value, ToInt(Strtol(length).value))
            else net + "/" + length == addr
  {
    hide Strtol, ToInt, SamePrefix;
    var pattern := net + "/" + length;
    assert pattern[..|net|] == net && pattern[|net| + 1..] == length;
    SlashIs(pattern, |net|);
  }

  /** A pattern without a slash, or with nothing in front of it, accepts itself alone. */
  lemma PlainPattern(pton: Pton, pattern: string, addr: string)
    requires '/' !in pattern || pattern[0] == '/'
    ensures Accepts(pton, pattern, addr) <==> pattern == addr
  {
    hide Strtol, SamePrefix;
    if '/' !in pattern {
      assert pattern[..|pattern|] == pattern;
      SlashIs(pattern, |pattern|);
    }
  }

  /** So does one whose network is too long or no address, or whose length is no number. */
  lemma BrokenPattern(pton: Pton, net: string, rest: string, addr: string)
    requires '/' !in net && (|net| > 46 || Strtol(rest).None? || pton(FamilyOf(net), net).None?)
    ensures Accepts(pton, net + "/" + rest, addr) <==> net + "/" + rest == addr
  {
    hide Strtol, SamePrefix, ToInt;
    var pattern := net + "/" + rest;
    assert pattern[..|net|] == net && pattern[|net| + 1..] == rest;
    SlashIs(pattern, |net|);
  }

  /**
    A number outside the width of the address, negative or too large, makes a plain comparison, as documented,
    if and only if its low 32 bits as an int are outside too.  Otherwise the pattern is the subnet of those bits.
   */
  lemma WideLengthExactly(pton: Pton, net: string, length: string)
    requires 0 < |net| < NETWORK_STR && '/' !in net
    requires pton(FamilyOf(net), net).Some?
    requires Strtol(length).Some? && !(0 <= Strtol(length).value <= 8 * Octets(FamilyOf(net)))
    ensures (forall addr :: Accepts(pton, net + "/" + length, addr) <==> net + "/" + length == addr) <==>
            !Narrows(net, length)
  {
    hide Strtol, ToInt, Accepts, SamePrefix;
    if Narrows(net, length) {
      PatternAccepts(pton, net, length, net);
      SamePrefixOfItself(pton(FamilyOf(net), net).value, ToInt(Strtol(length).value));
      assert net + "/" + length != net;
    } else {
      forall addr: string
        ensures Accepts(pton, net + "/" + length, addr) <==> net + "/" + length == addr
      {
        PatternAccepts(pton, net, length, addr);
      }
    }
  }

  lemma SamePrefixOfItself(net: seq<byte>, p: nat)
    requires p <= 8 * |net|
    ensures SamePrefix(net, net, p)
  {
  }

  /** A number whose low 32 bits are zero makes the pattern accept every address of its family. */
  lemma WideLengthAcceptsAll(pton: Pton, net: string, length: string, addr: string)
    requires 0 < |net| < NETWORK_STR && '/' !in net
    requires pton(FamilyOf(net), net).Some? && pton(FamilyOf(net), addr).Some?
    requires Strtol(length).Some? && Strtol(length).value % TWO_32 == 0
    ensures Accepts(pton, net + "/" + length, addr)
  {
    hide Strtol, ToInt, Accepts, SamePrefix;
    WrapsToZero(Strtol(length).value);
    PatternAccepts(pton, net, length, addr);
    ZeroPrefix(pton(FamilyOf(net), net).value, pton(FamilyOf(net), addr).value);
  }

  /** Such a number is 2 to the 32, which is no length that the documentation allows. */
  lemma WidePatternAcceptsAll(pton: Pton, addr: string)
    requires pton(Inet, "10.0.0.0").Some? && pton(Inet, addr).Some?
    ensures Accepts(pton, "10.0.0.0" + "/" + "4294967296", addr)
    ensures Strtol("4294967296").Some? && Strtol("4294967296").value > 8 * Octets(Inet)
  {
    hide Strtol, Accepts;
    WideLength();
    WideLengthAcceptsAll(pton, "10.0.0.0", "4294967296", addr);
  }

  lemma WrapsToZero(n: int)
    requires n % TWO_32 == 0
    ensures ToInt(n) == 0
  {
    DivModUnique(n + 0x8000_0000, TWO_32, n / TWO_32, 0x8000_0000);
  }

  lemma ZeroPrefix(net: seq<byte>, host: seq<byte>)
    requires |net| == |host|
    ensures SamePrefix(net, host, 0)
  {
    hide Pow2, Value;
    ValueBound(net);
    ValueBound(host);
    DivModUnique(Value(net), Pow2(8 * |net|), 0, Value(net));
    DivModUnique(Value(host), Pow2(8 * |host|), 0, Value(host));
  }

  // ---------------------------------------------------------------- lists

  datatype Lookup = Found | NotFound | Invalid

  /** The table hands out its patterns in any order; the answer does not depend on it. */
  method LookupHostsMap(pton: Pton, patterns: Option<set<string>>, host: string) returns (r: Lookup)
    ensures r == Invalid <==> patterns.None?
    ensures r == Found <==>
            patterns.Some? && exists pattern :: pattern in patterns.value && Accepts(pton, pattern, host)
  {
    hide Accepts;
    if patterns.None? {
      return Invalid;
    }
    var todo := patterns.value;
    while todo != {}
      invariant todo <= patterns.value
      invariant forall pattern :: pattern in patterns.value && pattern !in todo ==> !Accepts(pton, pattern, host)
    {
      var pattern :| pattern in todo;
      var ok := MatchHostCidr(pton, pattern, host);
      if ok {
        return Found;
      }
      todo := todo - {pattern};
    }
    return NotFound;
  }
}
