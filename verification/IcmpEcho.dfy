/**
 ICMP echo probes: how a reply is recognised, byte for byte, and what concurrent probes that
 share a wrapping sequence counter can mistake for a reply of their own.

 Messages are those of RFC 792 ("Echo or Echo Reply Message") and of sections 4.1 and 4.2 of RFC 4443.
 */
module IcmpEcho {
  import opened Wrappers

  type U16 = n: int | 0 <= n < 65536
  /** The Internet checksum of a message whose checksum field is zero, as two bytes in wire order. */
  type Checksum = Bytes -> (Byte, Byte)

  datatype Family = V4 | V6

  function EchoType(f: Family): Byte { if f.V4? then 8 else 128 }

  function ReplyType(f: Family): Byte { if f.V4? then 0 else 129 }

  /** The message carries the checksum of itself. */
  predicate Checked(m: Bytes, ck: Checksum) {
    4 <= |m| && (m[2], m[3]) == ck(m[2 := 0][3 := 0])
  }

  /** An echo message. For IPv6 the kernel fills in the checksum, so user space leaves it zero. */
  function Marshal(f: Family, kind: Byte, id: U16, number: U16, data: Bytes, ck: Checksum): (m: Bytes)
    ensures |m| == 8 + |data| && m[0] == kind && m[1] == 0
    ensures m[4] == id / 256 && m[5] == id % 256 && m[6] == number / 256 && m[7] == number % 256 && m[8..] == data
    ensures if f.V4? then Checked(m, ck) else m[2] == 0 && m[3] == 0
  {
    var plain: Bytes := [kind, 0, 0, 0, id / 256, id % 256, number / 256, number % 256] + data;
    if f.V6? then plain
    else
      var m := plain[2 := ck(plain).0][3 := ck(plain).1];
      assert m[2 := 0][3 := 0] == plain;
      m
  }

  datatype Socket = Socket(family: Family, privileged: bool, linux: bool) {
    /** The kernel substitutes its own identifier on unprivileged Linux sockets. */
    predicate IdUnknown() { !privileged && linux }

    predicate ChecksumIgnored() { IdUnknown() || family.V6? }
  }

  /** The reply a probe compares with. */
  function Expected(s: Socket, id: U16, number: U16, data: Bytes, ck: Checksum): Bytes {
    var m := Marshal(s.family, ReplyType(s.family), if s.IdUnknown() then 0 else id, number, data, ck);
    if s.IdUnknown() then m[2 := 0][3 := 0] else m
  }

  function ClearAt(m: Bytes, i: nat): Bytes {
    if i < |m| then m[i := 0] else m
  }

  /** A received packet with the fields cleared that user space cannot predict. */
  function Masked(s: Socket, p: Bytes): Bytes {
    var p := if s.IdUnknown() then ClearAt(ClearAt(p, 4), 5) else p;
    if s.ChecksumIgnored() then ClearAt(ClearAt(p, 2), 3) else p
  }

  predicate CarriesNumber(p: Bytes, number: U16) {
    8 <= |p| && p[6] as int * 256 + p[7] as int == number
  }

  /**
   A packet passes the comparison exactly if it is an echo reply with the probe's number and payload,
   and every known field agrees.
   */
  lemma AcceptedIff(s: Socket, id: U16, number: U16, data: Bytes, ck: Checksum, p: Bytes)
    ensures Masked(s, p) == Expected(s, id, number, data, ck) <==>
              && |p| == 8 + |data| && p[0] == ReplyType(s.family) && p[1] == 0
              && CarriesNumber(p, number) && p[8..] == data
              && (!s.IdUnknown() ==> p[4] == id / 256 && p[5] == id % 256)
              && (!s.ChecksumIgnored() ==> Checked(p, ck))
  {
    var m, e := Masked(s, p), Expected(s, id, number, data, ck);
    assert e[8..] == data;
    if |p| == 8 + |data| {
      assert m[8..] == p[8..];
      assert m == m[..8] + m[8..] && e == e[..8] + e[8..];
      assert m == e <==> m[..8] == e[..8] && m[8..] == e[8..];
      assert m[..8] == [m[0], m[1], m[2], m[3], m[4], m[5], m[6], m[7]];
      assert e[..8] == [e[0], e[1], e[2], e[3], e[4], e[5], e[6], e[7]];
      if !s.ChecksumIgnored() && p[0] == ReplyType(s.family) && p[1] == 0 && CarriesNumber(p, number)
         && p[8..] == data && p[4] == id / 256 && p[5] == id % 256 {
        SameButChecksum(s, id, number, data, ck, p);
      }
    }
  }

  /** A packet that agrees in all other bytes has the expected checksum exactly if it is correct. */
  lemma SameButChecksum(s: Socket, id: U16, number: U16, data: Bytes, ck: Checksum, p: Bytes)
    requires !s.ChecksumIgnored() && |p| == 8 + |data| && p[0] == ReplyType(s.family) && p[1] == 0
    requires CarriesNumber(p, number) && p[8..] == data && p[4] == id / 256 && p[5] == id % 256
    ensures var e := Expected(s, id, number, data, ck);
            Checked(p, ck) <==> p[2] == e[2] && p[3] == e[3]
  {
    var e := Expected(s, id, number, data, ck);
    var x, y := p[2 := 0][3 := 0], e[2 := 0][3 := 0];
    assert x[8..] == p[8..] == data == e[8..] == y[8..];
    assert x[..8] == [p[0], p[1], 0, 0, p[4], p[5], p[6], p[7]];
    assert y[..8] == [e[0], e[1], 0, 0, e[4], e[5], e[6], e[7]];
    assert x == x[..8] + x[8..] && y == y[..8] + y[8..];
  }

  datatype Event = Timeout | ReadFailure | Packet(peer: string, bytes: Bytes)

  const BUFFER := 65536

  function Take(p: Bytes): Bytes { if |p| <= BUFFER then p else p[..BUFFER] }

  predicate IsAnswer(s: Socket, dst: string, wb: Bytes, e: Event) {
    e.Packet? && e.peer == dst && Masked(s, Take(e.bytes)) == wb
  }

  /** The receive loop: read, mask in place, compare, until a reply matches or the deadline passes. */
  method AwaitReply(s: Socket, dst: string, wb: Bytes, inbox: seq<Event>) returns (ok: bool)
    ensures ok <==> exists k :: 0 <= k < |inbox| && IsAnswer(s, dst, wb, inbox[k]) && Timeout !in inbox[..k]
  {
    var rb := new Byte[BUFFER](_ => 0);
    for i := 0 to |inbox|
      invariant Timeout !in inbox[..i]
      invariant forall k :: 0 <= k < i ==> !IsAnswer(s, dst, wb, inbox[k])
    {
      var e := inbox[i];
      if e.Timeout? {
        forall k | i < k < |inbox| ensures Timeout in inbox[..k] {
          assert inbox[..k][i] == Timeout;
        }
        return false;
      }
      if e.ReadFailure? || e.peer != dst {
        continue;
      }
      var p := Take(e.bytes);
      var n := |p|;
      forall j | 0 <= j < n { rb[j] := p[j]; }
      if s.IdUnknown() {
        rb[4], rb[5] := 0, 0;
      }
      if s.ChecksumIgnored() {
        rb[2], rb[3] := 0, 0;
      }
      assert rb[..n] == Masked(s, p);
      if rb[..n] == wb {
        return true;
      }
    }
    return false;
  }
}
