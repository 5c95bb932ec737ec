/**
  The part of Go's net/netip the system relies on: addresses, address/port
  pairs in their 18-byte wire form (IPv4 travels IPv4-mapped, section 2.5.5.2
  of RFC 4291), and prefixes.
 */
module NetAddr {
  import opened ByteCodec
  import opened SortedSeqs

  /** netip.Addr; NoAddr is its zero value. */
  datatype Addr = NoAddr | V4(v4: uint32) | V6(v6: uint128, zone: string)

  datatype AddrPort = AddrPort(addr: Addr, port: uint16)

  const MAPPED: int := 0xFFFF
  const TWO32: int := 0x1_0000_0000

  /** Addr.As16: zones are lost, IPv4 is mapped, the zero Addr is all zeros. */
  function As16(a: Addr): (b: seq<byte>)
    ensures |b| == 16
  {
    Pow256Values();
    match a
    case NoAddr => PutBE(0, 16)
    case V4(v) => PutBE(MAPPED * TWO32 + v, 16)
    case V6(v, _) => PutBE(v, 16)
  }

  /** netip.AddrFrom16. */
  function From16(b: seq<byte>): Addr
    requires |b| == 16
  {
    Pow256Values(); V6(GetBE(b), "")
  }

  predicate Is4In6(a: Addr) {
    a.V6? && a.v6 / TWO32 == MAPPED
  }

  function Unmap(a: Addr): Addr {
    if Is4In6(a) then V4(a.v6 % TWO32) else a
  }

  /** The addresses that survive the 16-byte form: valid, zone-free, not IPv4-mapped. */
  predicate Canonical(a: Addr) {
    a.V4? || (a.V6? && a.zone == "" && !Is4In6(a))
  }

  lemma AddrRoundTrip(a: Addr)
    ensures Unmap(From16(As16(a))) == a <==> Canonical(a)
  {
    Pow256Values();
    match a
    case NoAddr => GetPut(0, 16);
    case V4(v) =>
      GetPut(MAPPED * TWO32 + v, 16);
      assert (MAPPED * TWO32 + v) / TWO32 == MAPPED && (MAPPED * TWO32 + v) % TWO32 == v;
    case V6(v, z) => GetPut(v, 16);
  }

  lemma DecodedAddrCanonical(b: seq<byte>)
    requires |b| == 16
    ensures Canonical(Unmap(From16(b)))
  {
  }

  /** Length of an address/port pair on the wire. */
  const EP_LENGTH := 18

  function PutEndpoint(e: AddrPort): (b: seq<byte>)
    ensures |b| == EP_LENGTH
  {
    As16(e.addr) + Put16(e.port)
  }

  function GetEndpoint(b: seq<byte>): AddrPort
    requires |b| == EP_LENGTH
  {
    AddrPort(Unmap(From16(b[..16])), Get16(b[16..]))
  }

  lemma EndpointRoundTrip(e: AddrPort)
    ensures GetEndpoint(PutEndpoint(e)) == e <==> Canonical(e.addr)
  {
    var b := PutEndpoint(e);
    assert b[..16] == As16(e.addr) && b[16..] == Put16(e.port);
    AddrRoundTrip(e.addr);
    IntegersRoundTrip(e.port, 0, 0, 0);
  }

  // ----- order and prefixes

  function BitLen(a: Addr): int {
    match a
    case NoAddr => 0
    case V4(_) => 32
    case V6(_, _) => 128
  }

  function Bits(a: Addr): int {
    match a
    case NoAddr => 0
    case V4(v) => v
    case V6(v, _) => v
  }

  function Zone(a: Addr): string {
    if a.V6? then a.zone else ""
  }

  /** Addr.Compare < 0: by family, then by value, then by zone. */
  predicate AddrLess(a: Addr, b: Addr) {
    if BitLen(a) != BitLen(b) then BitLen(a) < BitLen(b)
    else if Bits(a) != Bits(b) then Bits(a) < Bits(b)
    else TextLess(Zone(a), Zone(b))
  }

  lemma AddrOrder()
    ensures StrictOrder(AddrLess)
  {
    TextOrder();
  }

  /** netip.Prefix; bits is -1 in an invalid one.  Prefixes carry no zone. */
  datatype Prefix = Prefix(ip: Addr, bits: int)

  predicate WellFormed(p: Prefix) {
    Zone(p.ip) == "" && -1 <= p.bits <= BitLen(p.ip) && (p.ip.NoAddr? ==> p.bits == -1)
  }

  /** x without its h low bits. */
  function Shr(x: nat, h: nat): (r: nat)
    decreases h
  {
    if h == 0 then x else Shr(x / 2, h - 1)
  }

  /** Prefix.Contains: the same family, no zone, and equal leading bits. */
  predicate Contains(p: Prefix, a: Addr) {
    && 0 <= p.bits <= BitLen(p.ip)
    && Zone(a) == ""
    && BitLen(p.ip) == BitLen(a) != 0
    && Shr(Bits(p.ip), BitLen(a) - p.bits) == Shr(Bits(a), BitLen(a) - p.bits)
  }

  function WithoutZone(a: Addr): Addr {
    if a.V6? then a.(zone := "") else a
  }

  /** netip.PrefixFrom(a, a.BitLen()): the prefix of one address. */
  function Single(a: Addr): (p: Prefix)
    ensures WellFormed(p)
  {
    Prefix(WithoutZone(a), if a.NoAddr? then -1 else BitLen(a))
  }

  predicate IsSingleIP(p: Prefix) {
    p.bits == BitLen(p.ip) && !p.ip.NoAddr?
  }

  /** A single-address prefix contains its own address and no other. */
  lemma SingleContains(p: Prefix, a: Addr)
    requires WellFormed(p) && IsSingleIP(p)
    ensures Contains(p, a) <==> p == Single(a) && Zone(a) == "" && !a.NoAddr?
  {
  }

  // ----- the range of addresses in a prefix

  /** x with its h low bits cleared. */
  function Low(x: nat, h: nat): (r: nat)
    ensures r <= x && Shr(r, h) == Shr(x, h)
    decreases h
  {
    if h == 0 then x else 2 * Low(x / 2, h - 1)
  }

  /** x with its h low bits set. */
  function High(x: nat, h: nat): (r: nat)
    ensures r >= x && Shr(r, h) == Shr(x, h)
    decreases h
  {
    if h == 0 then x else 2 * High(x / 2, h - 1) + 1
  }

  lemma {:induction false} ShrMonotone(x: nat, y: nat, h: nat)
    requires x <= y
    ensures Shr(x, h) <= Shr(y, h)
    decreases h
  {
    if h > 0 {
      ShrMonotone(x / 2, y / 2, h - 1);
    }
  }

  lemma {:induction false} SameHighBits(x: nat, y: nat, h: nat)
    requires Shr(x, h) == Shr(y, h)
    ensures Low(x, h) <= y <= High(x, h)
    decreases h
  {
    if h > 0 {
      SameHighBits(x / 2, y / 2, h - 1);
    }
  }

  /** q followed by h zero bits. */
  function Shl(q: nat, h: nat): nat {
    if h == 0 then q else 2 * Shl(q, h - 1)
  }

  /** q followed by h one bits. */
  function Fill(q: nat, h: nat): nat {
    if h == 0 then q else 2 * Fill(q, h - 1) + 1
  }

  lemma {:induction false} BlockOf(q: nat, h: nat)
    ensures Shr(Shl(q, h), h) == q && Shr(Fill(q, h), h) == q
    ensures Low(Shl(q, h), h) == Shl(q, h) && High(Shl(q, h), h) == Fill(q, h)
    decreases h
  {
    if h > 0 {
      BlockOf(q, h - 1);
    }
  }

  lemma InBlock(q: nat, h: nat, x: nat)
    requires Shl(q, h) <= x <= Fill(q, h)
    ensures Shr(x, h) == q
  {
    BlockOf(q, h);
    ShrMonotone(Shl(q, h), x, h);
    ShrMonotone(x, Fill(q, h), h);
  }

  lemma EightUp(q: nat, h: nat)
    ensures Shl(q, h + 8) == 0x100 * Shl(q, h) && Fill(q, h + 8) == 0x100 * Fill(q, h) + 0xFF
  {
    TwoUp(q, h);
    TwoUp(q, h + 2);
    TwoUp(q, h + 4);
    TwoUp(q, h + 6);
  }

  lemma SixteenUp(q: nat, h: nat)
    requires h == 16
    ensures Shl(q, h) == 0x1_0000 * q && Fill(q, h) == 0x1_0000 * q + 0xFFFF
  {
    EightUp(q, h - 16);
    EightUp(q, h - 8);
  }

  lemma TwoUp(q: nat, h: nat)
    ensures Shl(q, h + 2) == 4 * Shl(q, h) && Fill(q, h + 2) == 4 * Fill(q, h) + 3
  {
  }

  /** Only a block of one address ends where it begins. */
  lemma LastAbove(p: Prefix)
    ensures IsValid(p) && !IsSingleIP(p) && p == Masked(p) ==> Bits(LastIP(p)) > Bits(p.ip)
  {
  }

  function Pow2(n: nat): (r: nat) {
    if n == 0 then 1 else 2 * Pow2(n - 1)
  }

  lemma {:induction false} HighFits(x: nat, n: nat, h: nat)
    requires h <= n && x < Pow2(n)
    ensures High(x, h) < Pow2(n)
    decreases h
  {
    if h > 0 {
      HighFits(x / 2, n - 1, h - 1);
    }
  }

  lemma EightMore(n: nat)
    ensures Pow2(n + 8) == 0x100 * Pow2(n)
  {
    assert Pow2(n + 2) == 4 * Pow2(n);
    assert Pow2(n + 4) == 4 * Pow2(n + 2);
    assert Pow2(n + 6) == 4 * Pow2(n + 4);
    assert Pow2(n + 8) == 4 * Pow2(n + 6);
  }

  const TWO64: int := 0x1_0000_0000_0000_0000
  const TWO128: int := 0x1_0000_0000_0000_0000_0000_0000_0000_0000

  lemma Pow2Values()
    ensures Pow2(32) == TWO32 && Pow2(64) == TWO64
  {
    EightMore(0); EightMore(8); EightMore(16); EightMore(24);
    EightMore(32); EightMore(40); EightMore(48); EightMore(56);
  }

  lemma Pow2Of128()
    ensures Pow2(128) == TWO128
  {
    Pow2Values();
    EightMore(64); EightMore(72); EightMore(80); EightMore(88);
    EightMore(96); EightMore(104); EightMore(112); EightMore(120);
  }

  predicate IsValid(p: Prefix) {
    !p.ip.NoAddr? && 0 <= p.bits <= BitLen(p.ip)
  }

  function HostBits(p: Prefix): nat
    requires IsValid(p)
  {
    BitLen(p.ip) - p.bits
  }

  lemma RangeFits(p: Prefix)
    requires IsValid(p)
    ensures High(Bits(p.ip), HostBits(p)) < if p.ip.V4? then TWO32 else TWO128
  {
    if p.ip.V4? {
      Pow2Values();
    } else {
      Pow2Of128();
    }
    HighFits(Bits(p.ip), BitLen(p.ip), HostBits(p));
  }

  function WithBits(a: Addr, v: nat): (r: Addr)
    requires !a.NoAddr? && v < if a.V4? then TWO32 else TWO128
    ensures Bits(r) == v && BitLen(r) == BitLen(a) && Zone(r) == "" && !r.NoAddr?
  {
    if a.V4? then V4(v) else V6(v, "")
  }

  /** Prefix.Masked: the prefix named by its first address. */
  function Masked(p: Prefix): Prefix {
    if IsValid(p) then
      RangeFits(p); Prefix(WithBits(p.ip, Low(Bits(p.ip), HostBits(p))), p.bits)
    else Prefix(NoAddr, -1)
  }

  /** netipx.PrefixLastIP. */
  function LastIP(p: Prefix): Addr {
    if IsValid(p) then
      RangeFits(p); WithBits(p.ip, High(Bits(p.ip), HostBits(p)))
    else NoAddr
  }

  /** What the ends of a block have in common, everything between them has. */
  lemma Between(lo: nat, x: nat, h: nat, k: nat)
    requires lo == Low(lo, h) && Shr(x, h) == Shr(lo, h) && Shr(lo, k) == Shr(High(lo, h), k)
    ensures Shr(x, k) == Shr(lo, k)
  {
    SameHighBits(lo, x, h);
    ShrMonotone(lo, x, k);
    ShrMonotone(x, High(lo, h), k);
  }

  /** A prefix that contains the first and the last address of a masked range contains all of it. */
  lemma EndsContainAll(r: Prefix, p: Prefix, x: Addr)
    requires p == Masked(p) && Contains(r, p.ip) && Contains(r, LastIP(p)) && Contains(p, x)
    ensures Contains(r, x)
  {
    Between(Bits(p.ip), Bits(x), HostBits(p), BitLen(x) - r.bits);
  }
}
