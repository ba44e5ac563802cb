/** IPv4 addresses, CIDR blocks (RFC 4632, section 3.1) and the search for a free host address. */
module IPv4 {
  import opened Wrappers
  import opened Bitwise

  const SPACE: int := 0x1_0000_0000

  type Addr = a: int | 0 <= a < SPACE

  newtype byte = b: int | 0 <= b < 256

  type Bytes = b: seq<byte> | |b| == 4 witness [0, 0, 0, 0]

  function Value(b: Bytes): Addr {
    0x100 * (0x100 * (0x100 * b[0] as int + b[1] as int) + b[2] as int) + b[3] as int
  }

  function ToBytes(a: Addr): (b: Bytes)
    ensures Value(b) == a
  {
    var hi := a / 256;
    var mid := hi / 256;
    [(mid / 256) as byte, (mid % 256) as byte, (hi % 256) as byte, (a % 256) as byte]
  }

  /** The next address, by carrying from the last byte to the first. */
  method NextIP(ip: Bytes) returns (out: Bytes)
    ensures Value(out) == (Value(ip) + 1) % SPACE
  {
    hide Value;
    out := ip;
    var i := 3;
    while i >= 0
      invariant -1 <= i <= 3
      invariant forall j :: 0 <= j <= i ==> out[j] == ip[j]
      invariant forall j :: i < j < 4 ==> out[j] == 0 && ip[j] == 255
      decreases i
    {
      out := out[i := if out[i] == 255 then 0 else out[i] + 1];
      if out[i] != 0 {
        CarryAdds(ip, out, i);
        return;
      }
      i := i - 1;
    }
    CarryAdds(ip, out, i);
  }

  /** Byte i goes up by one, those behind it roll over, those before it stay; without such a byte all roll over. */
  lemma CarryAdds(ip: Bytes, out: Bytes, i: int)
    requires -1 <= i < 4 && (i >= 0 ==> ip[i] < 255 && out[i] == ip[i] + 1)
    requires forall j :: 0 <= j < i ==> out[j] == ip[j]
    requires forall j :: i < j < 4 ==> out[j] == 0 && ip[j] == 255
    ensures Value(out) == (Value(ip) + 1) % SPACE
  {
    assert i < 0 ==> ip[0] == 255 && out[0] == 0;
    assert i < 1 ==> ip[1] == 255 && out[1] == 0;
    assert i < 2 ==> ip[2] == 255 && out[2] == 0;
    assert i < 3 ==> ip[3] == 255 && out[3] == 0;
    assert i >= 0 ==> Value(out) == Value(ip) + 1;
  }

  // ---- masks, byte by byte ----

  type Prefix = p: int | 0 <= p <= 32

  /** The number of addresses in a /p block. */
  function Size(p: Prefix): (s: int)
    ensures 1 <= s <= SPACE
  {
    Pow2Words();
    Pow2Mono(32 - p, 32);
    Pow2(32 - p)
  }

  /** Byte i of the mask of a /p block: as many leading ones as the prefix leaves for it. */
  function MaskByte(p: Prefix, i: nat): byte
    requires i < 4
  {
    Pow2Words();
    var k := if p <= 8 * i then 0 else if p >= 8 * i + 8 then 8 else p - 8 * i;
    Pow2Mono(8 - k, 8);
    (256 - Pow2(8 - k)) as byte
  }

  function Mask(p: Prefix): Bytes {
    [MaskByte(p, 0), MaskByte(p, 1), MaskByte(p, 2), MaskByte(p, 3)]
  }

  function BitsByte(op: BitOp, x: byte, y: byte): byte {
    Pow2Words();
    Bits(op, 8, x as int, y as int) as byte
  }

  function NotByte(x: byte): byte { 255 - x }

  function ApplyMask(ip: Bytes, m: Bytes): Bytes {
    [BitsByte(And, ip[0], m[0]), BitsByte(And, ip[1], m[1]), BitsByte(And, ip[2], m[2]), BitsByte(And, ip[3], m[3])]
  }

  lemma MaskBytes(p: Prefix)
    ensures p <= 8 ==> Mask(p) == [MaskByte(p, 0), 0, 0, 0] && Size(p) == (256 - MaskByte(p, 0) as int) * 0x100_0000
    ensures 8 <= p <= 16 ==>
              Mask(p) == [255, MaskByte(p, 1), 0, 0] && Size(p) == (256 - MaskByte(p, 1) as int) * 0x1_0000
    ensures 16 <= p <= 24 ==>
              Mask(p) == [255, 255, MaskByte(p, 2), 0] && Size(p) == (256 - MaskByte(p, 2) as int) * 0x100
    ensures 24 <= p ==> Mask(p) == [255, 255, 255, MaskByte(p, 3)] && Size(p) == 256 - MaskByte(p, 3) as int
  {
    hide Pow2;
    Pow2Words();
    Pow2Zero();
    if p <= 8 {
      Pow2Add(8 - p, 24);
    }
    if 8 <= p <= 16 {
      Pow2Add(16 - p, 16);
    }
    if 16 <= p <= 24 {
      Pow2Add(24 - p, 8);
    }
  }

  lemma Pow2Zero()
    ensures Pow2(0) == 1
  {
  }

  /** The mask of a /p block, and its complement, as 32-bit words. */
  lemma MaskValue(p: Prefix)
    ensures Value(Mask(p)) == SPACE - Size(p)
    ensures Value([NotByte(Mask(p)[0]), NotByte(Mask(p)[1]), NotByte(Mask(p)[2]), NotByte(Mask(p)[3])]) == Size(p) - 1
  {
    MaskBytes(p);
  }

  /** Combining four bytes one by one combines the 32-bit words. */
  lemma BytesAreWords(op: BitOp, x: Bytes, y: Bytes, z: Bytes)
    requires forall i :: 0 <= i < 4 ==> z[i] == BitsByte(op, x[i], y[i])
    ensures Value(z) == Bits(op, 32, Value(x), Value(y))
  {
    hide Bits;
    assert z[0] == BitsByte(op, x[0], y[0]) && z[1] == BitsByte(op, x[1], y[1]);
    assert z[2] == BitsByte(op, x[2], y[2]) && z[3] == BitsByte(op, x[3], y[3]);
    var a1, b1 := AppendByte(op, 8, x[0] as int, y[0] as int, x[1], y[1]);
    var a2, b2 := AppendByte(op, 16, a1, b1, x[2], y[2]);
    var a3, b3 := AppendByte(op, 24, a2, b2, x[3], y[3]);
  }

  lemma AppendByte(op: BitOp, n: nat, a: nat, b: nat, x: byte, y: byte) returns (a': nat, b': nat)
    ensures a' == 0x100 * a + x as int && b' == 0x100 * b + y as int
    ensures Bits(op, n + 8, a', b') == 0x100 * Bits(op, n, a, b) + BitsByte(op, x, y) as int
  {
    hide Bits, Shl;
    a', b' := 0x100 * a + x as int, 0x100 * b + y as int;
    Pow2Words();
    BitsSplit(op, n, 8, a, b, x as int, y as int);
    ShlByte(a);
    ShlByte(b);
    ShlByte(Bits(op, n, a, b));
  }

  lemma ModBounds(a: nat, s: nat)
    requires s > 0
    ensures 0 <= a % s < s && a % s <= a
  {
    assert a == s * (a / s) + a % s && s * (a / s) >= 0;
  }

  /** The network address of a: its part above the prefix. */
  function Network(a: Addr, p: Prefix): (r: Addr)
    ensures r <= a < r + Size(p)
  {
    ModBounds(a, Size(p));
    a - a % Size(p)
  }

  /** Masking the four bytes rounds the address down to its network address. */
  lemma ApplyMaskIsNetwork(ip: Bytes, p: Prefix)
    ensures Value(ApplyMask(ip, Mask(p))) == Network(Value(ip), p)
  {
    hide Bits, Value, BitsByte, MaskByte;
    Pow2Words();
    BytesAreWords(And, ip, Mask(p), ApplyMask(ip, Mask(p)));
    MaskValue(p);
    AndPrefix(32, 32 - p, Value(ip));
    DropLowMod(Value(ip), 32 - p);
  }

  // ---- blocks ----

  /** A parsed network: its (masked) base address and its prefix length. */
  datatype Block = Block(base: int, prefix: int) {
    predicate Valid() {
      0 <= prefix <= 32 && 0 <= base < SPACE && base % Size(prefix) == 0
    }

    /** The address range of the block. */
    predicate Has(a: int)
      requires Valid()
    {
      base <= a < base + Size(prefix)
    }

    /** The library's membership test: mask the address and compare. */
    predicate Contains(a: Addr)
      requires Valid()
    {
      Network(a, prefix) == base
    }

    function Last(): int
      requires Valid()
    {
      base + Size(prefix) - 1
    }
  }

  function BlockOf(a: Addr, p: Prefix): (n: Block)
    ensures n.Valid() && n.Has(a)
  {
    RoundTwice(a, Size(p), 1);
    Block(Network(a, p), p)
  }

  lemma ContainsIsHas(n: Block, a: Addr)
    requires n.Valid()
    ensures n.Contains(a) <==> n.Has(a)
  {
    var s := Size(n.prefix);
    var k := n.base / s;
    assert n.base == s * k;
    if n.Has(a) {
      ModUnique(a, s, k, a - n.base);
    }
  }

  lemma BlockInSpace(n: Block)
    requires n.Valid()
    ensures n.base + Size(n.prefix) <= SPACE
  {
    hide Pow2;
    Pow2Words();
    Pow2Add(32 - n.prefix, n.prefix);
    MultipleBelow(n.base, Size(n.prefix), Pow2(n.prefix));
  }

  lemma MultipleBelow(x: nat, s: nat, c: nat)
    requires s > 0 && x % s == 0 && x < s * c
    ensures x + s <= s * c
  {
    var k := x / s;
    assert x == s * k;
    assert s * (c - k) == s * c - s * k;
    MulAtLeast(s, c - k);
  }

  /** The broadcast address (RFC 1122, section 3.2.1.3): all host bits set, computed byte by byte. */
  method BroadcastAddr(n: Block) returns (out: Bytes)
    requires n.Valid()
    ensures Value(out) == n.Last()
  {
    hide Value, BitsByte, Pow2;
    var base, m := ApplyMask(ToBytes(n.base), Mask(n.prefix)), Mask(n.prefix);
    out := [0, 0, 0, 0];
    for i := 0 to 4
      invariant forall j :: 0 <= j < i ==> out[j] == BitsByte(Or, base[j], NotByte(m[j]))
    {
      out := out[i := BitsByte(Or, base[i], NotByte(m[i]))];
    }
    OrNotMask(n, base, m, out);
  }

  lemma OrNotMask(n: Block, base: Bytes, m: Bytes, out: Bytes)
    requires n.Valid() && m == Mask(n.prefix) && base == ApplyMask(ToBytes(n.base), m)
    requires forall j :: 0 <= j < 4 ==> out[j] == BitsByte(Or, base[j], NotByte(m[j]))
    ensures Value(out) == n.Last()
  {
    hide Bits, Value, BitsByte, MaskByte;
    Pow2Words();
    var h: Bytes := [NotByte(m[0]), NotByte(m[1]), NotByte(m[2]), NotByte(m[3])];
    BytesAreWords(Or, base, h, out);
    MaskValue(n.prefix);
    ApplyMaskIsNetwork(ToBytes(n.base), n.prefix);
    OrSuffix(32, 32 - n.prefix, n.base);
  }

  /** A network mask applied after a longer one: the shorter one decides. */
  lemma NetworkTwice(a: Addr, p: Prefix, q: Prefix)
    requires q <= p
    ensures Network(Network(a, p), q) == Network(a, q)
  {
    Pow2Add(32 - p, p - q);
    RoundTwice(a, Size(p), Pow2(p - q));
  }

  predicate Within(inner: Block, outer: Block)
    requires inner.Valid() && outer.Valid()
  {
    forall a: Addr :: inner.Has(a) ==> outer.Has(a)
  }

  predicate Disjoint(m: Block, n: Block)
    requires m.Valid() && n.Valid()
  {
    forall a: Addr :: !(m.Has(a) && n.Has(a))
  }

  /** Two blocks that share an address are nested: the one with the longer prefix lies in the other. */
  lemma SharedMeansNested(m: Block, n: Block, x: Addr)
    requires m.Valid() && n.Valid() && m.Has(x) && n.Has(x) && n.prefix <= m.prefix
    ensures Within(m, n)
  {
    forall a: Addr | m.Has(a)
      ensures n.Has(a)
    {
      ContainsIsHas(m, a);
      ContainsIsHas(m, x);
      ContainsIsHas(n, x);
      ContainsIsHas(n, a);
      NetworkTwice(a, m.prefix, n.prefix);
      NetworkTwice(x, m.prefix, n.prefix);
    }
  }

  lemma NestedOrDisjoint(m: Block, n: Block)
    requires m.Valid() && n.Valid()
    ensures Within(m, n) || Within(n, m) || Disjoint(m, n)
  {
    if !Disjoint(m, n) {
      var x: Addr :| m.Has(x) && n.Has(x);
      if n.prefix <= m.prefix {
        SharedMeansNested(m, n, x);
      } else {
        SharedMeansNested(n, m, x);
      }
    }
  }

  predicate NetsOverlap(m: Block, n: Block)
    requires m.Valid() && n.Valid()
  {
    m.Contains(n.base) || n.Contains(m.base)
  }

  /** Testing the two base addresses decides whether the address sets intersect. */
  lemma NetsOverlapExact(m: Block, n: Block)
    requires m.Valid() && n.Valid()
    ensures NetsOverlap(m, n) <==> !Disjoint(m, n)
  {
    ContainsIsHas(m, n.base);
    ContainsIsHas(n, m.base);
    assert m.Has(m.base) && n.Has(n.base);
    if !Disjoint(m, n) {
      NestedOrDisjoint(m, n);
    }
  }

  // ---- allocation ----

  /** Addresses that may be handed to a user: inside n, not its first or last, not ending in 0 or 255. */
  predicate Allocatable(n: Block, a: Addr)
    requires n.Valid()
  {
    n.Has(a) && a % 256 != 0 && a % 256 != 255 && a != n.base && a != n.Last()
  }

  method HostAllocatable(ip: Bytes, n: Block) returns (ok: bool)
    requires n.Valid()
    ensures ok <==> Allocatable(n, Value(ip))
  {
    hide Bits, BitsByte, MaskByte, Pow2, Value, Size, Network;
    LastByte(ip);
    ContainsIsHas(n, Value(ip));
    if !n.Contains(Value(ip)) {
      return false;
    }
    if ip[3] == 0 || ip[3] == 255 {
      return false;
    }
    var bc := BroadcastAddr(n);
    var net := ApplyMask(ToBytes(n.base), Mask(n.prefix));
    MaskedBase(n);
    SameValue(ip, net);
    SameValue(ip, bc);
    return ip != net && ip != bc;
  }

  lemma MaskedBase(n: Block)
    requires n.Valid()
    ensures Value(ApplyMask(ToBytes(n.base), Mask(n.prefix))) == n.base
  {
    ApplyMaskIsNetwork(ToBytes(n.base), n.prefix);
  }

  lemma LastByte(ip: Bytes)
    ensures Value(ip) % 256 == ip[3] as int
  {
  }

  lemma SameValue(x: Bytes, y: Bytes)
    ensures x == y <==> Value(x) == Value(y)
  {
    if Value(x) == Value(y) {
      assert x[0] == y[0] && x[1] == y[1] && x[2] == y[2] && x[3] == y[3];
    }
  }

  /** What the search promises: the lowest allocatable address not in use, or none when all are in use. */
  predicate LowestFree(n: Block, used: set<Addr>, r: Option<Addr>)
    requires n.Valid()
  {
    match r
    case Some(a) => Allocatable(n, a) && a !in used && forall b: Addr :: b < a && Allocatable(n, b) ==> b in used
    case None => forall b: Addr :: Allocatable(n, b) ==> b in used
  }

  method NextFreeHost(n: Block, used: set<Addr>) returns (r: Option<Addr>)
    requires n.Valid()
    ensures LowestFree(n, used, r)
    ensures r.Some? ==>
              && Allocatable(n, r.value) && r.value !in used
              && forall a: Addr :: a < r.value && Allocatable(n, a) ==> a in used
    ensures r.None? ==> forall a: Addr :: Allocatable(n, a) ==> a in used
  {
    hide Bits, BitsByte, MaskByte, Pow2, Value, Size, Network, Allocatable;
    BlockInSpace(n);
    MaskedBase(n);
    AllocatableInside(n);
    var ip := ApplyMask(ToBytes(n.base), Mask(n.prefix));
    for i := 0 to Size(n.prefix)
      invariant n.base + i < SPACE ==> Value(ip) == n.base + i
      invariant forall b: Addr :: b < n.base + i && Allocatable(n, b) ==> b in used
    {
      var ok := HostAllocatable(ip, n);
      if ok && Value(ip) !in used {
        return Some(Value(ip));
      }
      ip := NextIP(ip);
    }
    return None;
  }

  lemma AllocatableInside(n: Block)
    requires n.Valid()
    ensures forall a: Addr :: Allocatable(n, a) ==> n.base <= a < n.base + Size(n.prefix)
  {
  }

  // ---- widening ----

  /** The block around n with prefix p. */
  function Widened(n: Block, p: Prefix): (w: Block)
    requires n.Valid()
    ensures w.Valid() && w.prefix == p
  {
    BlockOf(n.base, p)
  }

  /** Widening keeps every address of the pool and every address that could be handed out. */
  lemma WideningKeepsHosts(n: Block, p: Prefix)
    requires n.Valid() && p <= n.prefix
    ensures Within(n, Widened(n, p))
    ensures forall a: Addr :: Allocatable(n, a) ==> Allocatable(Widened(n, p), a)
  {
    var w := Widened(n, p);
    assert n.Has(n.base);
    SharedMeansNested(n, w, n.base);
    BlockInSpace(n);
    BlockInSpace(w);
    assert w.Has(n.base) && w.Has(n.Last());
    forall a: Addr | Allocatable(n, a)
      ensures Allocatable(w, a)
    {
      assert w.Has(a);
    }
  }

  // ---- capacity ----

  ghost function Hosts(n: Block): set<Addr>
    requires n.Valid()
  {
    set a: Addr | n.base <= a < n.base + Size(n.prefix) && Allocatable(n, a)
  }

  /** How many users a /p pool can hold. */
  function Capacity(p: Prefix): int {
    if p <= 24 then 254 * Pow2(24 - p) else Size(p) - 2
  }

  /** The integers from lo up to, but not including, hi. */
  function Range(lo: int, hi: int): (s: set<int>)
    ensures forall a :: a in s <==> lo <= a < hi
    decreases hi - lo
  {
    if hi <= lo then {} else Range(lo, hi - 1) + {hi - 1}
  }

  lemma {:induction false} RangeCard(lo: int, hi: int)
    requires lo <= hi
    ensures |Range(lo, hi)| == hi - lo
    decreases hi - lo
  {
    if lo >= hi {
    } else {
      RangeCard(lo, hi - 1);
    }
  }

  /** The addresses in m pages of 256 that do not end in 0 or 255. */
  function Pages(lo: int, m: nat): set<int> {
    set a | lo <= a < lo + 256 * m && a % 256 != 0 && a % 256 != 255
  }

  lemma TopPage(lo: int, m: nat, page: set<int>)
    requires lo % 256 == 0
    requires forall a :: a in page <==> lo + 256 * m < a < lo + 256 * m + 255
    ensures Pages(lo, m + 1) == Pages(lo, m) + page && Pages(lo, m) !! page
  {
    forall a | lo + 256 * m <= a < lo + 256 * m + 256
      ensures a % 256 == a - (lo + 256 * m)
    {
    }
  }

  lemma UnionCard(s: set<int>, t: set<int>, u: set<int>)
    requires u == s + t && s !! t
    ensures |u| == |s| + |t|
  {
  }

  lemma {:induction false} PagesCard(lo: int, m: nat)
    requires lo % 256 == 0
    ensures |Pages(lo, m)| == 254 * m
  {
    if m == 0 {
      assert Pages(lo, m) == {};
    } else {
      hide Pages;
      PagesCard(lo, m - 1);
      var bottom, top := lo + 256 * (m - 1) + 1, lo + 256 * (m - 1) + 255;
      var page := Range(bottom, top);
      RangeCard(bottom, top);
      TopPage(lo, m - 1, page);
      UnionCard(Pages(lo, m - 1), page, Pages(lo, m));
    }
  }

  lemma DivisibleBy(a: nat, s: nat, k: nat)
    requires s > 0 && k > 0 && s * k > 0 && a % (s * k) == 0
    ensures a % s == 0
  {
    var q := a / (s * k);
    assert a == s * k * q == s * (k * q);
    ModUnique(a, s, k * q, 0);
  }

  lemma CapacityExact(n: Block)
    requires n.Valid()
    ensures |Hosts(n)| == if n.prefix == 32 then 0 else Capacity(n.prefix)
  {
    hide Pow2, Network;
    if n.prefix <= 24 {
      LargeBlock(n);
      PagesCard(n.base, Pow2(24 - n.prefix));
    } else {
      SmallBlock(n);
      if n.prefix < 32 {
        RangeCard(n.base + 1, n.Last());
      }
    }
  }

  /** A block of whole pages. */
  lemma LargeBlock(n: Block)
    requires n.Valid() && n.prefix <= 24
    ensures n.base % 256 == 0 && Hosts(n) == Pages(n.base, Pow2(24 - n.prefix))
  {
    hide Pow2, Network, Pages, Hosts;
    Pow2Words();
    var m := Pow2(24 - n.prefix);
    Pow2Add(8, 24 - n.prefix);
    DivisibleBy(n.base, 256, m);
    WholePages(n, m);
  }

  lemma WholePages(n: Block, m: nat)
    requires n.Valid() && n.base % 256 == 0 && Size(n.prefix) == 256 * m && m > 0
    ensures Hosts(n) == Pages(n.base, m)
  {
    hide Pow2, Network, Size;
    BlockInSpace(n);
    PageEnd(n.base, m);
    assert n.Last() == n.base + 256 * m - 1;
  }

  lemma PageEnd(lo: nat, m: nat)
    requires lo % 256 == 0 && m > 0
    ensures (lo + 256 * m - 1) % 256 == 255
  {
    ModUnique(lo + 256 * m - 1, 256, lo / 256 + m - 1, 255);
  }

  /** A block smaller than a page meets the page borders only at its own ends. */
  lemma SmallBlock(n: Block)
    requires n.Valid() && n.prefix > 24
    ensures n.prefix == 32 ==> Hosts(n) == {}
    ensures n.prefix < 32 ==> n.base < n.Last() && Hosts(n) == Range(n.base + 1, n.Last())
  {
    hide Pow2;
    Pow2Words();
    assert n.prefix < 32 ==> Size(n.prefix) >= 2 by {
      Pow2Mono(1, if n.prefix < 32 then 32 - n.prefix else 1);
      OneBit();
    }
    OneBit();
    BlockInSpace(n);
    InOnePage(n);
    forall a: Addr | n.base < a < n.Last()
      ensures a % 256 != 0 && a % 256 != 255
    {
      InsidePage(n.base, a, n.Last());
    }
  }

  lemma InsidePage(lo: int, a: int, hi: int)
    requires lo < a < hi && lo / 256 == hi / 256
    ensures a % 256 != 0 && a % 256 != 255
  {
  }

  lemma OneBit()
    ensures Pow2(1) == 2 && Pow2(0) == 1
  {
  }

  lemma InOnePage(n: Block)
    requires n.Valid() && n.prefix > 24
    ensures n.base / 256 == n.Last() / 256
  {
    hide Pow2, Network;
    Pow2Words();
    var page := BlockOf(n.base, 24);
    assert page.prefix == 24 && Size(24) == 256;
    assert n.Has(n.base) && page.Has(n.base);
    SharedMeansNested(n, page, n.base);
    BlockInSpace(n);
    assert n.Has(n.Last());
    assert page.Has(n.Last());
  }

  lemma MeetOfSubset(s: set<Addr>, u: set<Addr>)
    ensures s <= u ==> u * s == s
  {
  }

  /** With fewer addresses in use than the pool holds, the search cannot fail. */
  lemma FreeHostExists(n: Block, used: set<Addr>, r: Option<Addr>)
    requires n.Valid() && n.prefix <= 31 && LowestFree(n, used, r)
    requires |used * Hosts(n)| < Capacity(n.prefix)
    ensures r.Some?
  {
    CapacityExact(n);
    MeetOfSubset(Hosts(n), used);
  }
}
