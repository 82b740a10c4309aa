/** Interface names, their decimal suffix, and the per-bearer subnets derived from it. */
module Addressing {
  import opened Common

  // ---------------------------------------------------------------------------------------------
  // Decimal text
  // ---------------------------------------------------------------------------------------------

  predicate IsDigit(c: char) { '0' <= c <= '9' }

  function Digit(d: nat): (c: char)
    requires d < 10
    ensures IsDigit(c)
  {
    ('0' as int + d) as char
  }

  /** The text of a natural number, as in an f-string. */
  function Decimal(n: nat): (s: string)
    ensures s != "" && forall i :: 0 <= i < |s| ==> IsDigit(s[i])
  {
    if n < 10 then [Digit(n)] else Decimal(n / 10) + [Digit(n % 10)]
  }

  function ParseNat(s: string): Option<nat> {
    if s == "" || !IsDigit(s[|s| - 1]) then None
    else
      var d := s[|s| - 1] as int - '0' as int;
      if |s| == 1 then Some(d)
      else
        match ParseNat(s[..|s| - 1])
        case None => None
        case Some(v) => Some(10 * v + d)
  }

  /** `int(s)` on plain decimal text with an optional sign. */
  function ParseInt(s: string): Option<int> {
    if s != "" && (s[0] == '-' || s[0] == '+') then
      match ParseNat(s[1..])
      case None => None
      case Some(v) => var w: int := v; Some(if s[0] == '-' then -w else w)
    else
      match ParseNat(s)
      case None => None
      case Some(v) => var w: int := v; Some(w)
  }

  lemma {:induction false} DecimalParses(n: nat)
    ensures ParseNat(Decimal(n)) == Some(n)
    decreases n
  {
    if n >= 10 {
      var s := Decimal(n);
      assert s[..|s| - 1] == Decimal(n / 10);
      DecimalParses(n / 10);
    }
  }

  // ---------------------------------------------------------------------------------------------
  // Pool names
  // ---------------------------------------------------------------------------------------------

  function PoolName(prefix: string, i: nat): string { prefix + Decimal(i) }

  /** The bearer index read back from an interface name; 0 when the suffix is not a number. */
  function BearerIndex(prefix: string, ifname: string): int {
    var suffix := if |ifname| < |prefix| then "" else ifname[|prefix|..];
    match ParseInt(suffix)
    case None => 0
    case Some(v) => v
  }

  /** Reading the suffix of a pool-generated name recovers its index. */
  lemma PoolNameIndex(prefix: string, i: nat)
    ensures BearerIndex(prefix, PoolName(prefix, i)) == i
  {
    assert PoolName(prefix, i)[|prefix|..] == Decimal(i);
    DecimalParses(i);
    assert IsDigit(Decimal(i)[0]);
  }

  lemma PoolNamesDistinct(prefix: string, i: nat, j: nat)
    ensures PoolName(prefix, i) == PoolName(prefix, j) <==> i == j
  {
    PoolNameIndex(prefix, i);
    PoolNameIndex(prefix, j);
  }

  // ---------------------------------------------------------------------------------------------
  // Addresses
  // ---------------------------------------------------------------------------------------------

  function Pow2(n: nat): (r: nat)
    ensures r > 0
  {
    if n == 0 then 1 else 2 * Pow2(n - 1)
  }

  /** Address widths and subnet strides as powers of two: IPv4 moves one /24, IPv6 one /64 per bearer. */
  datatype Family = IPv4 | IPv6 {
    function Width(): nat { if IPv4? then 32 else 128 }
    function StrideBits(): nat { if IPv4? then 8 else 64 }
    function Stride(): nat { Pow2(StrideBits()) }
    function Limit(): nat { Pow2(Width()) }
  }

  /** Text that does not parse as an address is passed through unchanged. */
  datatype Address = Address(family: Family, value: nat) | Text(text: string)

  predicate Fits(f: Family, v: int) { 0 <= v < f.Limit() }

  /** An overflowing shift raises in the library and is also passed through unchanged. */
  function OffsetIp(a: Address, offset: int): Address {
    if a.Address? && Fits(a.family, a.value + offset) then Address(a.family, a.value + offset) else a
  }

  /** An address of the seed moved to bearer `idx`. */
  function ForBearer(a: Address, f: Family, idx: int): Address {
    OffsetIp(a, idx * f.Stride())
  }

  predicate NoOverflow(a: Address, f: Family, idx: int) {
    a.Address? && a.family == f && Fits(f, a.value + idx * f.Stride())
  }

  /** The network of a value under a prefix length. */
  function Network(f: Family, prefixLen: nat, v: nat): int
    requires prefixLen <= f.Width()
  {
    v / Pow2(f.Width() - prefixLen)
  }

  predicate OnLink(f: Family, prefixLen: nat, addr: nat, gw: nat)
    requires prefixLen <= f.Width()
  {
    Network(f, prefixLen, addr) == Network(f, prefixLen, gw)
  }

  /** The prefix length at which one stride is exactly one block: /24 and /64. */
  function StridePrefix(f: Family): (p: nat)
    ensures p <= f.Width()
  {
    f.Width() - f.StrideBits()
  }

  lemma AtLeastOnce(d: int, b: int)
    requires d >= 1 && b > 0
    ensures d * b >= b
  {
    assert (d - 1) * b >= 0;
    assert d * b == (d - 1) * b + b;
  }

  lemma DivUnique(x: int, q: int, b: int, r: int)
    requires 0 <= r < b && x == q * b + r
    ensures x / b == q
  {
    var q', r' := x / b, x % b;
    assert x == q' * b + r';
    assert (q' - q) * b == r - r';
    if q' > q {
      AtLeastOnce(q' - q, b);
    } else if q' < q {
      AtLeastOnce(q - q', b);
    }
  }

  lemma DivShift(v: int, b: int, k: int)
    requires b > 0
    ensures (v + k * b) / b == v / b + k
  {
    var q, r := v / b, v % b;
    assert v == q * b + r;
    assert v + k * b == (q + k) * b + r;
    DivUnique(v + k * b, q + k, b, r);
  }

  /** What cannot be moved is passed on as it is: text that is no address, and an address that would overflow. */
  lemma PassedThrough(a: Address, f: Family, idx: int)
    ensures a.Text? || !Fits(a.family, a.value + idx * f.Stride()) ==> ForBearer(a, f, idx) == a
    ensures a.Address? && Fits(a.family, a.value + idx * f.Stride())
            ==> ForBearer(a, f, idx) == Address(a.family, a.value + idx * f.Stride())
  {}

  /** An interface name without the pool's prefix, or with no number after it, counts as bearer 0. */
  lemma ForeignNameIsZero(prefix: string, ifname: string)
    requires |ifname| <= |prefix| || (!IsDigit(ifname[|prefix|]) && ifname[|prefix|] != '-' && ifname[|prefix|] != '+')
    ensures BearerIndex(prefix, ifname) == 0
  {
    if |ifname| > |prefix| {
      var suffix := ifname[|prefix|..];
      assert suffix[0] == ifname[|prefix|];
      if ParseNat(suffix).Some? { DigitsOnly(suffix); }
    }
  }

  lemma {:induction false} DigitsOnly(s: string)
    requires ParseNat(s).Some?
    ensures forall i :: 0 <= i < |s| ==> IsDigit(s[i])
  {
    if |s| > 1 { DigitsOnly(s[..|s| - 1]); }
  }

  /** Two bearers with different indices live in different /24 (IPv4) or /64 (IPv6) blocks. */
  lemma BearersInDifferentBlocks(f: Family, a: Address, i: int, j: int)
    requires i != j && NoOverflow(a, f, i) && NoOverflow(a, f, j)
    ensures Network(f, StridePrefix(f), ForBearer(a, f, i).value) != Network(f, StridePrefix(f), ForBearer(a, f, j).value)
  {
    DivShift(a.value, f.Stride(), i);
    DivShift(a.value, f.Stride(), j);
  }

  // ---------------------------------------------------------------------------------------------
  // When the gateway stays on-link
  // ---------------------------------------------------------------------------------------------

  lemma {:induction false} Pow2Divides(small: nat, big: nat)
    requires small <= big
    ensures Pow2(big) == Pow2(small) * Pow2(big - small)
    decreases big
  {
    if small < big {
      Pow2Divides(small, big - 1);
      assert Pow2(big) == 2 * (Pow2(small) * Pow2(big - 1 - small));
      assert Pow2(small) * (2 * Pow2(big - 1 - small)) == 2 * (Pow2(small) * Pow2(big - 1 - small));
    } else {
      assert Pow2(small) * Pow2(0) == Pow2(small);
    }
  }

  /** Shifting two values by the same number of whole blocks. */
  lemma ShiftKeepsBlocks(block: int, stride: int, k: int, a: int, g: int, idx: int)
    requires block > 0 && stride == block * k
    ensures (a + idx * stride) / block == (g + idx * stride) / block <==> a / block == g / block
  {
    assert idx * stride == (idx * k) * block;
    DivShift(a, block, idx * k);
    DivShift(g, block, idx * k);
  }

  /** One stride short of a block boundary: together before the shift, apart after it. */
  lemma ShiftSplitsBlocks(block: int, stride: int)
    requires 0 < stride && 2 * stride <= block
    ensures (block - 2 * stride) / block == (block - stride) / block
    ensures (block - 2 * stride + stride) / block != (block - stride + stride) / block
  {
    DivUnique(block - 2 * stride, 0, block, block - 2 * stride);
    DivUnique(block - stride, 0, block, block - stride);
    DivUnique(block, 1, block, 0);
  }

  lemma {:induction false} Pow2Monotone(a: nat, b: nat)
    requires a <= b
    ensures Pow2(a) <= Pow2(b)
    decreases b
  {
    if a < b { Pow2Monotone(a, b - 1); }
  }

  /** The gateway of bearer `idx` is on-link for that bearer exactly when it was for the seed. */
  ghost predicate KeepsOnLink(f: Family, prefixLen: nat, addr: nat, gw: nat, idx: int)
    requires prefixLen <= f.Width()
  {
    Fits(f, addr) && Fits(f, gw) && Fits(f, addr + idx * f.Stride()) && Fits(f, gw + idx * f.Stride()) ==>
      (OnLink(f, prefixLen, addr + idx * f.Stride(), gw + idx * f.Stride()) <==> OnLink(f, prefixLen, addr, gw))
  }

  lemma LongPrefixKeepsOnLink(f: Family, prefixLen: nat, addr: nat, gw: nat, idx: int)
    requires StridePrefix(f) <= prefixLen <= f.Width()
    ensures KeepsOnLink(f, prefixLen, addr, gw, idx)
  {
    var hostBits := f.Width() - prefixLen;
    Pow2Divides(hostBits, f.StrideBits());
    ShiftKeepsBlocks(Pow2(hostBits), f.Stride(), Pow2(f.StrideBits() - hostBits), addr, gw, idx);
  }

  lemma EmptyPrefixKeepsOnLink(f: Family, addr: nat, gw: nat, idx: int)
    ensures KeepsOnLink(f, 0, addr, gw, idx)
  {
    forall v: nat | Fits(f, v) ensures Network(f, 0, v) == 0 { DivUnique(v, 0, f.Limit(), v); }
  }

  lemma BreaksOnLink(f: Family, prefixLen: nat, block: nat, stride: nat)
    requires prefixLen <= f.Width() && block == Pow2(f.Width() - prefixLen) && stride == f.Stride()
    requires 0 < stride && 2 * stride <= block && 2 * block <= f.Limit()
    ensures !KeepsOnLink(f, prefixLen, block - 2 * stride, block - stride, 1)
  {
    ShiftSplitsBlocks(block, stride);
    assert 1 * f.Stride() == stride;
  }

  lemma BlockBounds(f: Family, prefixLen: nat)
    requires 1 <= prefixLen < StridePrefix(f)
    ensures var block := Pow2(f.Width() - prefixLen); 2 * f.Stride() <= block && 2 * block <= f.Limit()
  {
    var hostBits, strideBits := f.Width() - prefixLen, f.StrideBits();
    Pow2Double(strideBits);
    Pow2Double(hostBits);
    Pow2Monotone(strideBits + 1, hostBits);
    Pow2Monotone(hostBits + 1, f.Width());
  }

  /** With a shorter prefix some seed configuration loses its gateway on bearer 1. */
  lemma ShortPrefixBreaksOnLink(f: Family, prefixLen: nat) returns (addr: nat, gw: nat)
    requires 1 <= prefixLen < StridePrefix(f)
    ensures !KeepsOnLink(f, prefixLen, addr, gw, 1)
  {
    BlockBounds(f, prefixLen);
    var block, stride := Pow2(f.Width() - prefixLen), f.Stride();
    BreaksOnLink(f, prefixLen, block, stride);
    addr, gw := block - 2 * stride, block - stride;
  }

  lemma Pow2Double(n: nat)
    ensures Pow2(n + 1) == 2 * Pow2(n)
  {}

  /**
    Over all seeds and all bearers that do not overflow, every gateway is on-link for its own bearer
    exactly when it was for the seed, if and only if the prefix is at least /24 (IPv6: /64) or is /0.
   */
  lemma OnLinkPreservedIff(f: Family, prefixLen: nat)
    requires prefixLen <= f.Width()
    ensures (forall addr: nat, gw: nat, idx: int :: KeepsOnLink(f, prefixLen, addr, gw, idx))
            <==> prefixLen == 0 || StridePrefix(f) <= prefixLen
  {
    if prefixLen == 0 || StridePrefix(f) <= prefixLen {
      forall addr: nat, gw: nat, idx: int ensures KeepsOnLink(f, prefixLen, addr, gw, idx) {
        if prefixLen == 0 {
          EmptyPrefixKeepsOnLink(f, addr, gw, idx);
        } else {
          LongPrefixKeepsOnLink(f, prefixLen, addr, gw, idx);
        }
      }
    } else {
      var addr, gw := ShortPrefixBreaksOnLink(f, prefixLen);
      assert !KeepsOnLink(f, prefixLen, addr, gw, 1);
    }
  }
}
