/** Values that flow through the packet pipeline, and the constants they obey. */
module Packets {

  const MTU: nat := 1500            // kStandardMtuSize
  const POOL_CAPACITY: nat := 4096  // kDelayQueueCapacity
  const BATCH_SIZE: nat := 128      // kBatchSize of both loops
  const NANOS_PER_MS: int := 1_000_000
  const NANOS_PER_SEC: int := 1_000_000_000

  datatype Option<+T> = None | Some(value: T)

  type Byte = x: int | 0 <= x < 256

  /** A process id: 32 bits, unsigned. */
  type Pid = x: int | 0 <= x < 0x1_0000_0000

  /** steady_clock, in nanoseconds since its epoch. */
  type Time = int

  /** One packet's WINDIVERT_ADDRESS: the direction bit and everything else. */
  datatype Address = Address(outbound: bool, rest: nat)

  datatype FiveTuple = FiveTuple(srcAddr: bv32, dstAddr: bv32, srcPort: bv16, dstPort: bv16, protocol: bv8) {
    function Reversed(): FiveTuple {
      FiveTuple(dstAddr, srcAddr, dstPort, srcPort, protocol)
    }
  }

  /** The same flow seen from its other end: the ends trade places and nothing else changes. */
  lemma ReversedEnds(t: FiveTuple, u: FiveTuple)
    ensures u == t.Reversed() <==>
            && (u.srcAddr, u.srcPort) == (t.dstAddr, t.dstPort) && (u.dstAddr, u.dstPort) == (t.srcAddr, t.srcPort)
            && u.protocol == t.protocol
    ensures t.Reversed().Reversed() == t
  {
  }

  datatype Metadata = Metadata(tuple: FiveTuple, pid: Pid, isOutbound: bool)

  datatype Packet = Packet(data: seq<Byte>, addr: Address, metadata: Metadata)

  const NO_METADATA := Metadata(FiveTuple(0, 0, 0, 0, 0), 0, false)
  const NO_PACKET := Packet([], Address(false, 0), NO_METADATA)

  /** A packet copied out of the receive buffer; its storage is one MTU. */
  type OwnedPacket = p: Packet | |p.data| <= MTU witness NO_PACKET

  /** OwnedPacket::CopyFrom. */
  function CopyFrom(data: seq<Byte>, addr: Address, metadata: Metadata): Option<OwnedPacket> {
    if |data| > MTU then None else Some(Packet(data, addr, metadata))
  }

  datatype ScheduledPacket = ScheduledPacket(packet: OwnedPacket, releaseAt: Time)

  function Max(a: int, b: int): int { if a < b then b else a }

  function Min(a: int, b: int): int { if a < b then a else b }

  /** The bytes of consecutive packets laid end to end. */
  function Flatten(chunks: seq<seq<Byte>>): seq<Byte> {
    if chunks == [] then [] else chunks[0] + Flatten(chunks[1..])
  }

  lemma FlattenConcat(a: seq<seq<Byte>>, b: seq<seq<Byte>>)
    ensures Flatten(a + b) == Flatten(a) + Flatten(b)
  {
    if a == [] {
      assert a + b == b;
    } else {
      assert (a + b)[1..] == a[1..] + b;
      FlattenConcat(a[1..], b);
    }
  }

  /** Whether every number of the list is below n; for slots, whether they lie in a pool of n. */
  predicate AllBelow(q: seq<nat>, n: nat) {
    forall i :: 0 <= i < |q| ==> q[i] < n
  }

  function Repeat<T>(v: T, n: nat): (r: seq<T>)
    ensures |r| == n && forall k :: 0 <= k < n ==> r[k] == v
  {
    seq(n, _ => v)
  }

  // ----- What a send call is given for several packets -----

  function Datas(ps: seq<OwnedPacket>): seq<seq<Byte>> {
    if ps == [] then [] else Datas(ps[..|ps| - 1]) + [ps[|ps| - 1].data]
  }

  function Addrs(ps: seq<OwnedPacket>): seq<Address> {
    if ps == [] then [] else Addrs(ps[..|ps| - 1]) + [ps[|ps| - 1].addr]
  }

  /** One packet more: its bytes and its address come last. */
  lemma PackOne(ps: seq<OwnedPacket>, p: OwnedPacket)
    ensures Flatten(Datas(ps + [p])) == Flatten(Datas(ps)) + p.data && Addrs(ps + [p]) == Addrs(ps) + [p.addr]
  {
    assert (ps + [p])[..|ps|] == ps;
    FlattenConcat(Datas(ps), [p.data]);
    assert Flatten([p.data]) == p.data;
  }

  function Payloads(buf: seq<ScheduledPacket>): (ps: seq<OwnedPacket>)
    ensures |ps| == |buf| && forall i :: 0 <= i < |buf| ==> ps[i] == buf[i].packet
  {
    seq(|buf|, i requires 0 <= i < |buf| => buf[i].packet)
  }

  function PackedBytes(buf: seq<ScheduledPacket>): seq<Byte> {
    Flatten(Datas(Payloads(buf)))
  }

  function PackedAddrs(buf: seq<ScheduledPacket>): seq<Address> {
    Addrs(Payloads(buf))
  }

  /** A packed batch takes one address and at most an MTU per packet. */
  lemma {:induction false} PackedSize(buf: seq<ScheduledPacket>)
    ensures |PackedAddrs(buf)| == |buf| && |PackedBytes(buf)| <= |buf| * MTU
  {
    if buf != [] {
      var n := |buf| - 1;
      PackedSize(buf[..n]);
      PackOne(Payloads(buf[..n]), buf[n].packet);
      assert Payloads(buf) == Payloads(buf[..n]) + [buf[n].packet];
    }
  }
}
