/**
 Address selection and the address hash. The resolver's answers are parameters.
 */
module IpAddress {
  import opened Wrappers

  type IP = Bytes

  const MAPPED_PREFIX: IP := [0, 0, 0, 0, 0, 0, 0, 0, 0, 0, 0xff, 0xff]

  /** The four-byte form of an IPv4 or IPv4-mapped address. */
  function To4(ip: IP): Option<IP> {
    if |ip| == 4 then Some(ip)
    else if |ip| == 16 && ip[..12] == MAPPED_PREFIX then Some(ip[12..])
    else None
  }

  /** The bytes that are hashed. A slice of any other length is no address and contributes nothing. */
  function Normalised(ip: IP): IP {
    if To4(ip).Some? then To4(ip).value else if |ip| == 16 then ip else []
  }

  // ----- FNV-1a modulo 2^32 -----

  const TWO32 := 0x1_0000_0000

  type U32 = n: int | 0 <= n < TWO32

  const FNV_OFFSET: U32 := 2166136261
  const FNV_PRIME: U32 := 16777619
  /** FNV_PRIME * FNV_INVERSE == 1 modulo 2^32. */
  const FNV_INVERSE: U32 := 899433627

  /** Bitwise exclusive or. */
  function Xor(a: nat, b: nat): nat
    decreases a + b
  {
    if a == 0 && b == 0 then 0 else 2 * Xor(a / 2, b / 2) + (if a % 2 == b % 2 then 0 else 1)
  }

  function Pow2(n: nat): nat { if n == 0 then 1 else 2 * Pow2(n - 1) }

  lemma {:induction false} Pow2Add(m: nat, n: nat)
    ensures Pow2(m + n) == Pow2(m) * Pow2(n)
  {
    if 0 < m {
      Pow2Add(m - 1, n);
      Doubled(Pow2(m - 1), Pow2(n), Pow2(m - 1 + n));
    }
  }

  lemma Doubled(p: nat, q: nat, product: nat)
    requires product == p * q
    ensures 2 * product == (2 * p) * q
  {
  }

  lemma Pow2Of32()
    ensures Pow2(32) == TWO32
  {
    assert Pow2(4) == 16;
    Pow2Add(4, 4);
    Pow2Add(8, 8);
    Pow2Add(16, 16);
  }

  lemma {:induction false} XorBound(a: nat, b: nat, n: nat)
    requires a < Pow2(n) && b < Pow2(n)
    ensures Xor(a, b) < Pow2(n)
  {
    if 0 < n {
      XorBound(a / 2, b / 2, n - 1);
    }
  }

  lemma {:induction false} XorCommutes(a: nat, b: nat)
    ensures Xor(a, b) == Xor(b, a)
    decreases a + b
  {
    if a != 0 || b != 0 {
      XorCommutes(a / 2, b / 2);
    }
  }

  /** Exclusive or with the same number twice gives the first one back. */
  lemma {:induction false} XorInvolutive(a: nat, b: nat)
    ensures Xor(Xor(a, b), b) == a
    decreases a + b
  {
    if a != 0 || b != 0 {
      XorInvolutive(a / 2, b / 2);
      var x := Xor(a, b);
      assert x / 2 == Xor(a / 2, b / 2) && x % 2 == (if a % 2 == b % 2 then 0 else 1);
    }
  }

  function Times(h: U32): U32 { h * FNV_PRIME % TWO32 }

  /** The prime is odd, so multiplying by it is undone by its inverse. */
  lemma TimesInvertible(h: U32)
    ensures Times(h) * FNV_INVERSE % TWO32 == h
  {
    var q := h * FNV_PRIME / TWO32;
    assert h * FNV_PRIME == q * TWO32 + Times(h);
    assert FNV_PRIME * FNV_INVERSE == 1 + 3513497 * TWO32;
    assert Times(h) * FNV_INVERSE == h + (3513497 * h - q * FNV_INVERSE) * TWO32;
    ModOffset(h, 3513497 * h - q * FNV_INVERSE);
  }

  lemma ModOffset(h: U32, k: int)
    ensures (h + k * TWO32) % TWO32 == h
  {
  }

  function FnvStep(h: U32, b: Byte): U32 {
    Pow2Of32();
    XorBound(h, b, 32);
    Times(Xor(h, b))
  }

  function Fnv(h: U32, bytes: IP): U32
    decreases |bytes|
  {
    if bytes == [] then h else Fnv(FnvStep(h, bytes[0]), bytes[1..])
  }

  function Hash(ip: IP): U32 {
    Fnv(FNV_OFFSET, Normalised(ip))
  }

  /** ipHash: the four-byte form if there is one, else the sixteen-byte form if there is one. */
  method IpHash(ip: IP) returns (h: U32)
    ensures h == Hash(ip)
  {
    var bytes: IP := [];
    if |ip| == 4 {
      bytes := ip;
    } else if |ip| == 16 {
      bytes := if ip[..12] == MAPPED_PREFIX then ip[12..] else ip;
    }
    h := FNV_OFFSET;
    for i := 0 to |bytes|
      invariant Fnv(h, bytes[i..]) == Fnv(FNV_OFFSET, bytes)
    {
      assert bytes[i..][1..] == bytes[i + 1..];
      h := FnvStep(h, bytes[i]);
    }
  }

  lemma {:induction false} XorZero(a: nat)
    ensures Xor(a, 0) == a
  {
    if a != 0 {
      XorZero(a / 2);
    }
  }

  /** The byte is mixed in before the multiplication, as in FNV-1a. */
  lemma StepMultipliesLast(h: U32, b: Byte)
    ensures FnvStep(h, 0) == h * FNV_PRIME % TWO32 && FnvStep(0, b) == b * FNV_PRIME % TWO32
  {
    XorZero(h);
    XorZero(b);
    XorCommutes(0, b);
  }

  /** Each step is a bijection of the hash state, and tells bytes apart. */
  lemma FnvStepInjective(g: U32, h: U32, a: Byte, b: Byte)
    ensures FnvStep(g, a) == FnvStep(h, a) ==> g == h
    ensures FnvStep(g, a) == FnvStep(g, b) ==> a == b
  {
    Pow2Of32();
    XorBound(g, a, 32);
    XorBound(h, a, 32);
    XorBound(g, b, 32);
    TimesInvertible(Xor(g, a));
    TimesInvertible(Xor(h, a));
    TimesInvertible(Xor(g, b));
    XorInvolutive(g, a);
    XorInvolutive(h, a);
    XorCommutes(g, a);
    XorCommutes(g, b);
    XorInvolutive(a, g);
    XorInvolutive(b, g);
  }

  lemma {:induction false} FnvInjectiveInState(g: U32, h: U32, bytes: IP)
    requires Fnv(g, bytes) == Fnv(h, bytes)
    ensures g == h
    decreases |bytes|
  {
    if bytes != [] {
      FnvInjectiveInState(FnvStep(g, bytes[0]), FnvStep(h, bytes[0]), bytes[1..]);
      FnvStepInjective(g, h, bytes[0], bytes[0]);
    }
  }

  lemma {:induction false} OneByteChangesFnv(h: U32, s: IP, t: IP, i: nat)
    requires |s| == |t| && i < |s| && s[i] != t[i] && forall k :: 0 <= k < |s| && k != i ==> s[k] == t[k]
    ensures Fnv(h, s) != Fnv(h, t)
    decreases i
  {
    if i == 0 {
      assert s[1..] == t[1..];
      if Fnv(h, s) == Fnv(h, t) {
        FnvInjectiveInState(FnvStep(h, s[0]), FnvStep(h, t[0]), s[1..]);
        FnvStepInjective(h, h, s[0], t[0]);
      }
    } else {
      OneByteChangesFnv(FnvStep(h, s[0]), s[1..], t[1..], i - 1);
    }
  }

  /** An IPv4 address in the form of an IPv6 one. */
  predicate Mapped(ip: IP) {
    |ip| == 16 && ip[..12] == MAPPED_PREFIX
  }

  predicate DifferOnlyAt(a: IP, b: IP, i: nat) {
    |a| == |b| && i < |a| && a[i] != b[i] && forall k :: 0 <= k < |a| && k != i ==> a[k] == b[k]
  }

  /**
   Two addresses of the same kind (IPv4, mapped IPv4 or any other IPv6) that differ in exactly one byte
   never share a hash, whichever byte it is.
   */
  lemma OneByteChangesHash(a: IP, b: IP, i: nat)
    requires |a| == 4 || |a| == 16
    requires DifferOnlyAt(a, b, i) && Mapped(a) == Mapped(b)
    ensures Hash(a) != Hash(b)
  {
    if Mapped(a) {
      forall k | 0 <= k < 12 ensures a[k] == b[k] {
        assert a[k] == a[..12][k] && b[k] == b[..12][k];
      }
      assert 12 <= i;
      assert a[12..][i - 12] == a[i] && b[12..][i - 12] == b[i];
      OneByteChangesFnv(FNV_OFFSET, a[12..], b[12..], i - 12);
    } else {
      OneByteChangesFnv(FNV_OFFSET, a, b, i);
    }
  }

  /** An IPv4 address and its IPv4-mapped form hash alike. */
  lemma MappedHashesAlike(ip: IP)
    requires |ip| == 4
    ensures Mapped(MAPPED_PREFIX + ip) && Hash(MAPPED_PREFIX + ip) == Hash(ip)
  {
    assert (MAPPED_PREFIX + ip)[..12] == MAPPED_PREFIX && (MAPPED_PREFIX + ip)[12..] == ip;
  }

  // ----- the choice of an address -----

  datatype Family = V4 | V6

  predicate Is(ip: IP, f: Family) { To4(ip).Some? == f.V4? }

  /** Mapped addresses count as IPv4; whatever is not IPv4 counts as IPv6. */
  lemma FamilyIff(ip: IP)
    ensures (Is(ip, V4) <==> |ip| == 4 || Mapped(ip)) && (Is(ip, V6) <==> !Is(ip, V4))
  {
  }

  function Other(f: Family): Family { if f.V4? then V6 else V4 }

  /** An address with the protocol gauge that is set, an error, or neither (an empty answer without an error). */
  datatype Choice = Chosen(ip: IP, gauge: Family) | ResolveError | NothingFound | NoAddress

  /** "" and "ip6" prefer IPv6, everything else IPv4. */
  function Preferred(protocol: string): Family { if protocol == "ip6" || protocol == "" then V6 else V4 }

  /**
   chooseProtocol. Without fallback the resolver is asked for one family only (`family`), with
   fallback for all addresses (`all`); None stands for an error.
   */
  method ChooseProtocol(protocol: string, fallback: bool, family: Option<seq<IP>>, all: Option<seq<IP>>)
    returns (c: Choice)
    ensures !fallback ==> c == if family.None? then ResolveError
                               else if family.value == [] then NoAddress
                               else Chosen(family.value[0], Preferred(protocol))
    ensures fallback && all.None? ==> c == ResolveError
    ensures fallback && all.Some? ==> c == Selected(all.value, Preferred(protocol))
  {
    var preferred := V4;
    if protocol == "ip6" || protocol == "" {
      preferred := V6;
    }
    if !fallback {
      if family.None? {
        return ResolveError;
      }
      if 0 < |family.value| {
        return Chosen(family.value[0], preferred);
      }
      return NoAddress;
    }
    if all.None? {
      return ResolveError;
    }
    var ips := all.value;
    var last: Option<IP> := None;
    for i := 0 to |ips|
      invariant FirstOf(ips, preferred) == FirstOf(ips[i..], preferred)
      invariant last == if i == 0 then None else Some(ips[i - 1])
    {
      assert ips[i..][1..] == ips[i + 1..];
      if Is(ips[i], preferred) {
        return Chosen(ips[i], preferred);
      }
      last := Some(ips[i]);
    }
    if last.None? {
      return NothingFound;
    }
    return Chosen(last.value, Other(preferred));
  }

  function FirstOf(ips: seq<IP>, f: Family): Option<IP> {
    if ips == [] then None else if Is(ips[0], f) then Some(ips[0]) else FirstOf(ips[1..], f)
  }

  /** The first address of the preferred family, or else the last address of all. */
  function Selected(ips: seq<IP>, f: Family): Choice {
    if FirstOf(ips, f).Some? then Chosen(FirstOf(ips, f).value, f)
    else if ips == [] then NothingFound
    else Chosen(ips[|ips| - 1], Other(f))
  }

  /** The documented choice: the first address found in the chosen family. */
  function Documented(ips: seq<IP>, f: Family): Choice {
    if FirstOf(ips, f).Some? then Chosen(FirstOf(ips, f).value, f)
    else if FirstOf(ips, Other(f)).Some? then Chosen(FirstOf(ips, Other(f)).value, Other(f))
    else NothingFound
  }

  lemma {:induction false} FirstOfAbsent(ips: seq<IP>, f: Family)
    ensures FirstOf(ips, f).None? <==> forall i :: 0 <= i < |ips| ==> !Is(ips[i], f)
  {
    if ips != [] {
      FirstOfAbsent(ips[1..], f);
      assert forall i :: 0 < i < |ips| ==> ips[i] == ips[1..][i - 1];
    }
  }

  /** The code follows the documentation exactly if the preferred family is present or the last address is the first. */
  lemma DocumentedIff(ips: seq<IP>, f: Family)
    ensures Selected(ips, f) == Documented(ips, f) <==>
              ips == [] || ips[0] == ips[|ips| - 1] || exists i :: 0 <= i < |ips| && Is(ips[i], f)
  {
    FirstOfAbsent(ips, f);
    if ips != [] && FirstOf(ips, f).None? {
      assert !Is(ips[0], f);
      assert FirstOf(ips, Other(f)) == Some(ips[0]);
    }
  }
}
