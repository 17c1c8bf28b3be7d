/** The Internet checksum and the IPv4 framing around it. */
module Inet {
  import opened Bytes
  import opened Options

  const U32 := 0x1_0000_0000
  const IP_HDR_LEN := 20
  const ETH_HDR_LEN := 14
  const MTU := 1500
  const IP_PROTO_ICMP := 1
  const IP_PROTO_UDP := 17
  const BROADCAST := 0xFFFF_FFFF

  // ---------------------------------------------------------------------------------------------
  // The checksum
  // ---------------------------------------------------------------------------------------------

  /** The sum of the 16-bit words in network byte order; an odd last byte is padded with zero. */
  function Sum16(p: seq<Byte>): nat {
    if |p| == 0 then 0 else if |p| == 1 then 256 * p[0] as int else 256 * p[0] as int + p[1] as int + Sum16(p[2..])
  }

  /** Carries are added back until none is left. */
  function Fold(s: nat): (r: nat)
    decreases s
  {
    if s < 0x1_0000 then s else Fold(s % 0x1_0000 + s / 0x1_0000)
  }

  /** The one's complement of the one's complement sum. */
  function Checksum(p: seq<Byte>): (c: nat)
    ensures c <= 0xFFFF
  {
    FoldMod(Sum16(p));
    0xFFFF - Fold(Sum16(p))
  }

  /** Folding keeps the value modulo 65535 and never makes zero of anything else. */
  lemma {:induction false} FoldMod(s: nat)
    ensures Fold(s) <= 0xFFFF && Fold(s) % 0xFFFF == s % 0xFFFF && (Fold(s) == 0 <==> s == 0)
    decreases s
  {
    if s >= 0x1_0000 {
      var q := s / 0x1_0000;
      assert s % 0x1_0000 + q == s - 0xFFFF * q;
      SameRest(s, q);
      FoldMod(s - 0xFFFF * q);
    }
  }

  lemma SameRest(s: nat, q: nat)
    requires 0xFFFF * q <= s
    ensures (s - 0xFFFF * q) % 0xFFFF == s % 0xFFFF
  {
  }

  lemma {:induction false} SumBound(p: seq<Byte>)
    ensures Sum16(p) <= 0xFFFF * ((|p| + 1) / 2)
  {
    if |p| >= 2 {
      SumBound(p[2..]);
      assert (|p| + 1) / 2 == (|p[2..]| + 1) / 2 + 1;
    }
  }

  /** A 16-bit field at `f` in network byte order. */
  function Store16(p: seq<Byte>, f: nat, v: nat): (r: seq<Byte>)
    requires f + 2 <= |p| && v <= 0xFFFF
    ensures |r| == |p|
  {
    p[f := v / 256][f + 1 := v % 256]
  }

  function Load16(p: seq<Byte>, f: nat): (v: nat)
    requires f + 2 <= |p|
    ensures v <= 0xFFFF
  {
    256 * p[f] as int + p[f + 1] as int
  }

  /** An aligned field counts with its value in the sum. */
  lemma {:induction false} SumStore(p: seq<Byte>, f: nat, v: nat)
    requires f % 2 == 0 && f + 2 <= |p| && v <= 0xFFFF
    ensures Sum16(Store16(p, f, v)) + Load16(p, f) == Sum16(p) + v
    decreases |p|
  {
    var p' := Store16(p, f, v);
    if f == 0 {
      assert p'[2..] == p[2..];
    } else {
      assert p'[2..] == Store16(p[2..], f - 2, v);
      SumStore(p[2..], f - 2, v);
    }
  }

  /** Storing the checksum of a buffer in its own zeroed, aligned field makes the checksum zero, whatever the
      buffer and whatever its length. */
  lemma StoreMakesZero(p: seq<Byte>, f: nat)
    requires f % 2 == 0 && f + 2 <= |p| && Load16(p, f) == 0
    ensures Checksum(Store16(p, f, Checksum(p))) == 0
  {
    var s, c := Sum16(p), Checksum(p);
    SumStore(p, f, c);
    FoldMod(s);
    FoldMod(s + c);
    ComplementSum(s, Fold(s));
  }

  lemma ComplementSum(s: nat, r: nat)
    requires r <= 0xFFFF && r % 0xFFFF == s % 0xFFFF
    ensures (s + (0xFFFF - r)) % 0xFFFF == 0
  {
  }

  /** A checksum that is zero says that the words add up to all ones. */
  lemma ZeroIffAllOnes(p: seq<Byte>)
    ensures Checksum(p) == 0 <==> Sum16(p) > 0 && Sum16(p) % 0xFFFF == 0
  {
    FoldMod(Sum16(p));
  }

  /** ip_checksum: sums with 32-bit words, then folds. It is the checksum as long as the sum fits 32 bits,
      which it does for every buffer of up to 131074 bytes. */
  method IpChecksum(p: seq<Byte>) returns (c: nat)
    ensures Sum16(p) < U32 ==> c == Checksum(p)
    ensures |p| <= 131074 ==> Sum16(p) < U32
    ensures c <= 0xFFFF
  {
    SumBound(p);
    hide Sum16, Fold, Add32;
    var sum: nat := 0;
    var i := 0;
    Words(p, 0);
    while i + 1 < |p|
      invariant 0 <= i <= |p| && i % 2 == 0 && sum < U32
      invariant Sum16(p) < U32 ==> sum + Sum16(p[i..]) == Sum16(p)
    {
      Words(p, i);
      sum := Add32(sum, 256 * p[i] as int + p[i + 1] as int);
      i := i + 2;
    }
    Words(p, i);
    if |p| % 2 == 1 {
      sum := Add32(sum, 256 * p[|p| - 1] as int);
    }
    c := FoldLoop(sum);
  }

  /** Addition of 32-bit words. */
  function Add32(a: nat, b: nat): (r: nat)
    ensures r < U32 && (a + b < U32 ==> r == a + b)
  {
    (a + b) % U32
  }

  /** The sum from `i` on: a word and the rest, a padded byte, or nothing. */
  lemma Words(p: seq<Byte>, i: nat)
    requires i <= |p|
    ensures i + 1 < |p| ==> Sum16(p[i..]) == 256 * p[i] as int + p[i + 1] as int + Sum16(p[i + 2..])
    ensures i + 1 == |p| ==> Sum16(p[i..]) == 256 * p[i] as int
    ensures i == |p| ==> Sum16(p[i..]) == 0
    ensures p[0..] == p
  {
    if i + 1 < |p| { assert p[i..][2..] == p[i + 2..]; }
  }

  /** The fold loop ends, because every round makes the sum smaller. */
  method FoldLoop(s: nat) returns (c: nat)
    ensures c == 0xFFFF - Fold(s) && c <= 0xFFFF
  {
    var sum := s;
    while sum >= 0x1_0000
      invariant Fold(sum) == Fold(s)
      decreases sum
    {
      sum := sum % 0x1_0000 + sum / 0x1_0000;
    }
    FoldMod(s);
    return 0xFFFF - sum;
  }

  // ---------------------------------------------------------------------------------------------
  // Datagrams
  // ---------------------------------------------------------------------------------------------

  function Be32(v: nat): (b: seq<Byte>)
    requires v < U32
    ensures |b| == 4
  {
    [v / 0x100_0000, v / 0x1_0000 % 256, v / 256 % 256, v % 256]
  }

  function Load32(p: seq<Byte>, f: nat): (v: nat)
    requires f + 4 <= |p|
    ensures v < U32
  {
    0x100_0000 * p[f] as int + 0x1_0000 * p[f + 1] as int + 256 * p[f + 2] as int + p[f + 3] as int
  }

  lemma Be32RoundTrip(v: nat)
    requires v < U32
    ensures Load32(Be32(v), 0) == v
  {
    var a, b, c := v / 256, v / 0x1_0000, v / 0x100_0000;
    assert b == a / 256 && c == b / 256;
  }

  /** The header with a zero checksum field: version 4, five words, no fragment, time to live 64. */
  function BareHeader(id: nat, len: nat, proto: Byte, src: nat, dst: nat): (h: seq<Byte>)
    requires id <= 0xFFFF && IP_HDR_LEN + len <= 0xFFFF && src < U32 && dst < U32
    ensures |h| == IP_HDR_LEN
  {
    [0x45, 0, (IP_HDR_LEN + len) / 256, (IP_HDR_LEN + len) % 256, id / 256, id % 256, 0, 0, 64, proto, 0, 0] + Be32(src) + Be32(dst)
  }

  function Header(id: nat, len: nat, proto: Byte, src: nat, dst: nat): (h: seq<Byte>)
    requires id <= 0xFFFF && IP_HDR_LEN + len <= 0xFFFF && src < U32 && dst < U32
    ensures |h| == IP_HDR_LEN
  {
    var h := BareHeader(id, len, proto, src, dst);
    Store16(h, 10, Checksum(h))
  }

  /** What ip_send puts behind the Ethernet header. */
  function Datagram(id: nat, proto: Byte, src: nat, dst: nat, payload: seq<Byte>): (d: seq<Byte>)
    requires id <= 0xFFFF && IP_HDR_LEN + |payload| <= MTU && src < U32 && dst < U32
    ensures |d| == IP_HDR_LEN + |payload|
  {
    Header(id, |payload|, proto, src, dst) + payload
  }

  datatype Delivery = Delivery(proto: Byte, src: nat, payload: seq<Byte>)

  /** ip_input: what is delivered, if anything. `device` is the address of the interface, if there is one. */
  function Input(pkt: seq<Byte>, device: Option<nat>): (r: Option<Delivery>) {
    if |pkt| < IP_HDR_LEN then None
    else if pkt[0] / 16 != 4 then None
    else
      var ihl := pkt[0] % 16 * 4;
      var total := Load16(pkt, 2);
      if ihl < IP_HDR_LEN || ihl > |pkt| then None
      else if total < ihl || total > |pkt| then None
      else if Load16(pkt, 6) / 0x2000 % 2 == 1 || Load16(pkt, 6) % 0x2000 != 0 then None
      else if Checksum(pkt[..ihl]) != 0 then None
      else if device.Some? && Load32(pkt, 16) != device.value && Load32(pkt, 16) != BROADCAST then None
      else if pkt[9] == IP_PROTO_ICMP || pkt[9] == IP_PROTO_UDP then Some(Delivery(pkt[9], Load32(pkt, 12), pkt[ihl..total]))
      else None
  }

  lemma HeaderFields(id: nat, len: nat, proto: Byte, src: nat, dst: nat)
    requires id <= 0xFFFF && IP_HDR_LEN + len <= 0xFFFF && src < U32 && dst < U32
    ensures var h := Header(id, len, proto, src, dst);
            && Load16(h, 0) == 0x4500 && Load16(h, 2) == IP_HDR_LEN + len && Load16(h, 4) == id && Load16(h, 6) == 0
            && Load16(h, 8) == 64 * 256 + proto && h[0] == 0x45 && h[9] == proto
            && Load32(h, 12) == src && Load32(h, 16) == dst && Checksum(h) == 0
  {
    hide Checksum;
    var b := BareHeader(id, len, proto, src, dst);
    StoreMakesZero(b, 10);
    Be32RoundTrip(src);
    Be32RoundTrip(dst);
    assert b[12..16] == Be32(src) && b[16..20] == Be32(dst);
  }

  /** Every datagram that ip_send builds for a protocol the stack knows passes every test of ip_input at its
      destination, and delivers the same protocol, source and payload; padding behind it does not matter. */
  lemma SentIsDelivered(id: nat, proto: Byte, src: nat, dst: nat, payload: seq<Byte>, pad: seq<Byte>, device: Option<nat>)
    requires id <= 0xFFFF && IP_HDR_LEN + |payload| <= MTU && src < U32 && dst < U32
    requires device == None || device == Some(dst) || dst == BROADCAST
    ensures Input(Datagram(id, proto, src, dst, payload) + pad, device)
         == if proto == IP_PROTO_ICMP || proto == IP_PROTO_UDP then Some(Delivery(proto, src, payload)) else None
  {
    hide Checksum, Header;
    var h := Header(id, |payload|, proto, src, dst);
    var pkt := Datagram(id, proto, src, dst, payload) + pad;
    HeaderFields(id, |payload|, proto, src, dst);
    assert forall i :: 0 <= i < IP_HDR_LEN ==> pkt[i] == h[i];
    assert Load16(pkt, 2) == Load16(h, 2) && Load16(pkt, 6) == Load16(h, 6) && Load32(pkt, 12) == Load32(h, 12)
      && Load32(pkt, 16) == Load32(h, 16);
    assert pkt[..20] == h;
    assert pkt[20..IP_HDR_LEN + |payload|] == payload;
  }

  /** A datagram for somebody else is not delivered. */
  lemma OthersAreDropped(id: nat, proto: Byte, src: nat, dst: nat, payload: seq<Byte>, me: nat)
    requires id <= 0xFFFF && IP_HDR_LEN + |payload| <= MTU && src < U32 && dst < U32 && me != dst && dst != BROADCAST
    ensures Input(Datagram(id, proto, src, dst, payload), Some(me)) == None
  {
    hide Checksum, Header;
    var h := Header(id, |payload|, proto, src, dst);
    var pkt := Datagram(id, proto, src, dst, payload);
    HeaderFields(id, |payload|, proto, src, dst);
    assert forall i :: 0 <= i < IP_HDR_LEN ==> pkt[i] == h[i];
    assert Load32(pkt, 16) == Load32(h, 16);
  }

  /** What is delivered has a version 4 header, not of a fragment, whose words add up to all ones, and is for this
      host; the payload is what the header says. */
  lemma DeliveredIsSound(pkt: seq<Byte>, device: Option<nat>)
    requires Input(pkt, device).Some?
    ensures |pkt| >= IP_HDR_LEN && pkt[0] / 16 == 4
    ensures var ihl, total, d := pkt[0] % 16 * 4, Load16(pkt, 2), Input(pkt, device).value;
            && IP_HDR_LEN <= ihl <= total <= |pkt| && Sum16(pkt[..ihl]) > 0 && Sum16(pkt[..ihl]) % 0xFFFF == 0
            && Load16(pkt, 6) % 0x4000 == 0 && (device.Some? ==> Load32(pkt, 16) == device.value || Load32(pkt, 16) == BROADCAST)
            && d == Delivery(pkt[9], Load32(pkt, 12), pkt[ihl..total]) && (d.proto == IP_PROTO_ICMP || d.proto == IP_PROTO_UDP)
  {
    hide Sum16;
    ZeroIffAllOnes(pkt[..pkt[0] % 16 * 4]);
  }

  /** A header with one word changed on the way, to a value that is not the same modulo 65535, is dropped everywhere; the
      header length is taken to be unharmed. */
  lemma CorruptedIsDropped(id: nat, proto: Byte, src: nat, dst: nat, payload: seq<Byte>, f: nat, v: nat, device: Option<nat>)
    requires id <= 0xFFFF && IP_HDR_LEN + |payload| <= MTU && src < U32 && dst < U32
    requires f % 2 == 0 && f + 2 <= IP_HDR_LEN && v <= 0xFFFF && (f == 0 ==> v / 256 == 0x45)
    requires v % 0xFFFF != Load16(Header(id, |payload|, proto, src, dst), f) % 0xFFFF
    ensures Input(Store16(Datagram(id, proto, src, dst, payload), f, v), device) == None
  {
    hide Header, Checksum, Sum16;
    var h := Header(id, |payload|, proto, src, dst);
    HeaderFields(id, |payload|, proto, src, dst);
    var pkt := Store16(Datagram(id, proto, src, dst, payload), f, v);
    assert pkt[..20] == Store16(h, f, v);
    assert pkt[0] == 0x45;
    SumStore(h, f, v);
    ZeroIffAllOnes(h);
    ZeroIffAllOnes(Store16(h, f, v));
    NotCongruent(Sum16(h), Sum16(Store16(h, f, v)), Load16(h, f), v);
  }

  lemma NotCongruent(s: nat, s': nat, a: nat, v: nat)
    requires s' + a == s + v && s % 0xFFFF == 0 && v % 0xFFFF != a % 0xFFFF
    ensures s' % 0xFFFF != 0
  {
  }

  // ---------------------------------------------------------------------------------------------
  // The stack
  // ---------------------------------------------------------------------------------------------

  class IpStack {
    const device: Option<nat>
    const mac: seq<Byte>
    var nextId: nat
    var dropped: nat
    var delivered: seq<Delivery>

    ghost predicate Valid()
      reads this
    {
      nextId <= 0xFFFF && |mac| == 6 && (device.Some? ==> device.value < U32)
    }

    constructor (device: Option<nat>, mac: seq<Byte>)
      requires |mac| == 6 && (device.Some? ==> device.value < U32)
      ensures Valid() && this.device == device && dropped == 0 && delivered == []
    {
      this.device, this.mac := device, mac;
      nextId, dropped, delivered := 1, 0, [];
    }

    /** ip_send, up to the frame handed to the Ethernet layer; the identification number goes up by one. */
    method Send(dst: nat, proto: Byte, payload: seq<Byte>, frame: array<Byte>) returns (r: int)
      requires Valid() && dst < U32 && IP_HDR_LEN + |payload| < U32 && frame.Length == ETH_HDR_LEN + MTU
      modifies this`nextId, frame
      ensures Valid()
      ensures r == -1 <==> device.None? || IP_HDR_LEN + |payload| > MTU
      ensures r == -1 ==> frame[..] == old(frame[..]) && nextId == old(nextId)
      ensures r != -1 ==> r == 0 && nextId == (old(nextId) + 1) % 0x1_0000
                          && frame[ETH_HDR_LEN..ETH_HDR_LEN + IP_HDR_LEN + |payload|] == Datagram(old(nextId), proto, device.value, dst, payload)
    {
      if device.None? || IP_HDR_LEN + |payload| > MTU {
        return -1;
      }
      var len := |payload|;
      var eth := [0, 0, 0, 0, 0, 0] + mac + [8, 0];
      var h := [0x45, 0, (IP_HDR_LEN + len) / 256, (IP_HDR_LEN + len) % 256, nextId / 256, nextId % 256, 0, 0, 64, proto, 0, 0]
               + Be32(device.value) + Be32(dst);
      assert h == BareHeader(nextId, len, proto, device.value, dst);
      var c := IpChecksum(h);
      h := h[10 := c / 256][11 := c % 256];
      assert h == Header(nextId, len, proto, device.value, dst);
      FrameBytes(frame[..], eth, h, payload);
      CopyIn(frame, 0, eth);
      CopyIn(frame, ETH_HDR_LEN, h);
      CopyIn(frame, ETH_HDR_LEN + IP_HDR_LEN, payload);
      assert frame[ETH_HDR_LEN..ETH_HDR_LEN + IP_HDR_LEN + len] == frame[..][ETH_HDR_LEN..ETH_HDR_LEN + IP_HDR_LEN + len];
      nextId := (nextId + 1) % 0x1_0000;
      return 0;
    }

    /** ip_input: the packet is delivered, or counted as dropped if there is a device to count on. */
    method Receive(pkt: seq<Byte>)
      modifies this`dropped, this`delivered
      ensures var r := Input(pkt, device);
              && delivered == (if r.Some? then old(delivered) + [r.value] else old(delivered))
              && dropped == (if r.None? && device.Some? then old(dropped) + 1 else old(dropped))
    {
      var drop := 1;
      if device.None? {
        drop := 0;
      }
      if |pkt| < IP_HDR_LEN || pkt[0] / 16 != 4 {
        dropped := dropped + drop;
        return;
      }
      var ihl := pkt[0] % 16 * 4;
      var total := Load16(pkt, 2);
      if ihl < IP_HDR_LEN || ihl > |pkt| || total < ihl || total > |pkt| {
        dropped := dropped + drop;
        return;
      }
      var frag := Load16(pkt, 6);
      if frag / 0x2000 % 2 == 1 || frag % 0x2000 != 0 {
        dropped := dropped + drop;
        return;
      }
      var c := IpChecksum(pkt[..ihl]);
      if c != 0 {
        dropped := dropped + drop;
        return;
      }
      var dst := Load32(pkt, 16);
      if device.Some? && dst != device.value && dst != BROADCAST {
        dropped := dropped + 1;
        return;
      }
      if pkt[9] == IP_PROTO_ICMP || pkt[9] == IP_PROTO_UDP {
        delivered := delivered + [Delivery(pkt[9], Load32(pkt, 12), pkt[ihl..total])];
      } else {
        dropped := dropped + drop;
      }
    }
  }

  /** The three copies into the frame, one behind the other. */
  lemma FrameBytes(f: seq<Byte>, eth: seq<Byte>, h: seq<Byte>, payload: seq<Byte>)
    requires |f| == ETH_HDR_LEN + MTU && |eth| == ETH_HDR_LEN && |h| == IP_HDR_LEN && IP_HDR_LEN + |payload| <= MTU
    ensures var r := Over(Over(Over(f, 0, eth), ETH_HDR_LEN, h), ETH_HDR_LEN + IP_HDR_LEN, payload);
            r[ETH_HDR_LEN..ETH_HDR_LEN + IP_HDR_LEN + |payload|] == h + payload
  {
    hide Over;
    var g := Over(f, 0, eth);
    OverOver(g, ETH_HDR_LEN, h, payload);
    var r := Over(g, ETH_HDR_LEN, h + payload);
    forall i | 0 <= i < IP_HDR_LEN + |payload| ensures r[ETH_HDR_LEN + i] == (h + payload)[i] {
      OverAt(g, ETH_HDR_LEN, h + payload, ETH_HDR_LEN + i);
    }
  }
}
