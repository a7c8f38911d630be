/** IPv4, TCP and UDP packets byte by byte: building, checksums, parsing. */
module Packets {
  import opened Common

  datatype Ipv4 = Ipv4(a: Byte, b: Byte, c: Byte, d: Byte)
  {
    function Octets(): (s: seq<Byte>)
      ensures |s| == 4
    {
      [a, b, c, d]
    }
  }

  function Hi(w: Word16): Byte {
    w / 0x100
  }

  function Lo(w: Word16): Byte {
    w % 0x100
  }

  /** The byte `i` places from the right. */
  function ByteAt(w: Word32, i: nat): Byte
    requires i < 4
  {
    if i == 0 then w % 0x100
    else if i == 1 then w / 0x100 % 0x100
    else if i == 2 then w / 0x1_0000 % 0x100
    else w / 0x100_0000
  }

  function Be16(w: Word16): (s: seq<Byte>)
    ensures |s| == 2
  {
    [Hi(w), Lo(w)]
  }

  function FromBe16(hi: Byte, lo: Byte): Word16 {
    hi * 0x100 + lo
  }

  function Be32(w: Word32): (s: seq<Byte>)
    ensures |s| == 4
  {
    [ByteAt(w, 3), ByteAt(w, 2), ByteAt(w, 1), ByteAt(w, 0)]
  }

  function FromBe32(a: Byte, b: Byte, c: Byte, d: Byte): Word32 {
    ((a * 0x100 + b) * 0x100 + c) * 0x100 + d
  }

  lemma Be32RoundTrip(w: Word32)
    ensures FromBe32(ByteAt(w, 3), ByteAt(w, 2), ByteAt(w, 1), ByteAt(w, 0)) == w
  {
    var q := w / 0x100;
    assert w / 0x1_0000 == q / 0x100;
    assert w / 0x100_0000 == q / 0x100 / 0x100;
  }

  lemma WordOf(w: Word16)
    ensures FromBe16(Hi(w), Lo(w)) == w
  {
  }

  lemma EdgeWords(hi: Byte, lo: Byte)
    ensures hi == 0 && lo == 0 ==> FromBe16(hi, lo) == 0
    ensures hi == 0xFF && lo == 0xFF ==> FromBe16(hi, lo) == 0xFFFF
  {
  }

  // ----- the one's-complement sum of section 1 of RFC 1071 -----

  /** The sum of the 16-bit words, an odd last byte padded with zero. */
  function WordSum(data: seq<Byte>): nat {
    if |data| == 0 then 0
    else if |data| == 1 then FromBe16(data[0], 0)
    else FromBe16(data[0], data[1]) + WordSum(data[2..])
  }

  /** Carry the high half back in until there is none. */
  function Fold(sum: Word32): Word16 {
    if sum < 0x1_0000 then sum else Fold(sum % 0x1_0000 + sum / 0x1_0000)
  }

  function Checksum(data: seq<Byte>): Word16 {
    0xFFFF - Fold(WordSum(data) % 0x1_0000_0000)
  }

  lemma {:induction false} WordSumBound(data: seq<Byte>)
    ensures WordSum(data) <= 0xFFFF * ((|data| + 1) / 2)
  {
    if |data| >= 2 {
      WordSumBound(data[2..]);
      assert (|data| + 1) / 2 == (|data[2..]| + 1) / 2 + 1;
    }
  }

  /** The 32-bit accumulator never wraps on anything a 16-bit length and a pseudo-header can describe. */
  lemma AccumulatorNeverWraps(data: seq<Byte>)
    requires |data| <= 131074
    ensures WordSum(data) < 0x1_0000_0000
  {
    WordSumBound(data);
  }

  lemma {:induction false} WordSumConcat(a: seq<Byte>, b: seq<Byte>)
    requires |a| % 2 == 0
    ensures WordSum(a + b) == WordSum(a) + WordSum(b)
  {
    if |a| == 0 {
      assert a + b == b;
    } else {
      WordSumConcat(a[2..], b);
      assert (a + b)[2..] == a[2..] + b;
    }
  }

  /** `f` is what `sum` folds to, said without the recursion. */
  predicate FoldsTo(sum: nat, f: Word16) {
    f == if sum == 0 then 0 else if sum % 0xFFFF == 0 then 0xFFFF else sum % 0xFFFF
  }

  /** Folding keeps the residue modulo 0xFFFF, and reaches zero only from zero. */
  lemma {:induction false} FoldIsResidue(sum: Word32)
    ensures FoldsTo(sum, Fold(sum))
  {
    if sum >= 0x1_0000 {
      var next := sum % 0x1_0000 + sum / 0x1_0000;
      FoldIsResidue(next);
      assert sum == next + 0xFFFF * (sum / 0x1_0000);
      assert sum % 0xFFFF == next % 0xFFFF;
    }
  }

  lemma ComplementFolds(s: nat, f: Word16, g: Word16)
    requires FoldsTo(s, f) && FoldsTo(s + (0xFFFF - f), g)
    ensures g == 0xFFFF
  {
    var q := s / 0xFFFF;
    assert s == 0xFFFF * q + s % 0xFFFF;
  }

  lemma SumAndComplement(s: Word32, c: Word16)
    requires c == 0xFFFF - Fold(s) && s + c < 0x1_0000_0000
    ensures Fold(s + c) == 0xFFFF
  {
    FoldIsResidue(s);
    FoldIsResidue(s + c);
    ComplementFolds(s, Fold(s), Fold(s + c));
  }

  /** A checksum computed over a zeroed field and then put into it makes the sum fold to 0xFFFF. */
  lemma ChecksumVerifies(a: seq<Byte>, b: seq<Byte>)
    requires |a| % 2 == 0 && |a| + 2 + |b| <= 131074
    ensures WordSum(a + Be16(Checksum(a + [0, 0] + b)) + b) < 0x1_0000_0000
    ensures Fold(WordSum(a + Be16(Checksum(a + [0, 0] + b)) + b)) == 0xFFFF
  {
    var c := Checksum(a + [0, 0] + b);
    var s := SumBefore(a, b);
    SumWithWord(a, c, b);
    AccumulatorNeverWraps(a + Be16(c) + b);
    SumAndComplement(s, c);
  }

  lemma SumBefore(a: seq<Byte>, b: seq<Byte>) returns (s: Word32)
    requires |a| % 2 == 0 && |a| + 2 + |b| <= 131074
    ensures s == WordSum(a) + WordSum(b) && Checksum(a + [0, 0] + b) == 0xFFFF - Fold(s)
  {
    assert Be16(0) == [0, 0];
    SumWithWord(a, 0, b);
    AccumulatorNeverWraps(a + [0, 0] + b);
    s := WordSum(a) + WordSum(b);
  }

  lemma SumWithWord(a: seq<Byte>, w: Word16, b: seq<Byte>)
    requires |a| % 2 == 0
    ensures WordSum(a + Be16(w) + b) == WordSum(a) + w + WordSum(b)
  {
    WordSumConcat(a + Be16(w), b);
    WordSumConcat(a, Be16(w));
    assert Be16(w)[2..] == [];
    assert WordSum(Be16(w)) == w;
  }

  lemma WrappingSum(total: nat, word: nat)
    ensures WrappingAdd(total % 0x1_0000_0000, word) == (total + word) % 0x1_0000_0000
  {
  }

  lemma WordSumStep(data: seq<Byte>, k: nat)
    requires k < |data|
    ensures WordSum(data[k..])
            == FromBe16(data[k], if k + 1 < |data| then data[k + 1] else 0) + WordSum(data[Min(k + 2, |data|)..])
  {
    if k + 1 < |data| {
      assert data[k..][2..] == data[k + 2..];
    }
  }

  /** The checksum routine: 32-bit wrapping accumulation over pairs, then folding. */
  method IpChecksum(data: seq<Byte>) returns (checksum: Word16)
    ensures checksum == Checksum(data)
  {
    var sum: Word32 := 0;
    var k := 0;
    ghost var total: nat := 0;
    while k < |data|
      invariant 0 <= k <= |data|
      invariant WordSum(data) == total + WordSum(data[k..])
      invariant sum == total % 0x1_0000_0000
    {
      var word := FromBe16(data[k], if k + 1 < |data| then data[k + 1] else 0);
      WordSumStep(data, k);
      WrappingSum(total, word);
      sum := WrappingAdd(sum, word);
      total := total + word;
      k := Min(k + 2, |data|);
    }
    sum := FoldCarries(sum);
    checksum := 0xFFFF - sum;
  }

  method FoldCarries(sum: Word32) returns (folded: Word16)
    ensures folded == Fold(sum)
  {
    var left := sum;
    while left / 0x1_0000 != 0
      invariant Fold(left) == Fold(sum)
      decreases left
    {
      left := left % 0x1_0000 + left / 0x1_0000;
    }
    folded := left;
  }

  // ----- headers -----

  const TCP: Byte := 6
  const UDP: Byte := 17

  function IpHead(total: nat, id: Word16, protocol: Byte, src: Ipv4, dst: Ipv4, checksum: Word16): (h: seq<Byte>)
    ensures |h| == 20
  {
    var length: Word16 := total % 0x1_0000;
    [0x45, 0x00, Hi(length), Lo(length), Hi(id), Lo(id), 0x40, 0x00, 64, protocol,
     Hi(checksum), Lo(checksum),
     src.a, src.b, src.c, src.d, dst.a, dst.b, dst.c, dst.d]
  }

  function TcpHead(srcPort: Word16, dstPort: Word16, seqNo: Word32, ackNo: Word32, flags: Byte, checksum: Word16)
    : (h: seq<Byte>)
    ensures |h| == 20
  {
    [Hi(srcPort), Lo(srcPort), Hi(dstPort), Lo(dstPort),
     ByteAt(seqNo, 3), ByteAt(seqNo, 2), ByteAt(seqNo, 1), ByteAt(seqNo, 0),
     ByteAt(ackNo, 3), ByteAt(ackNo, 2), ByteAt(ackNo, 1), ByteAt(ackNo, 0),
     0x50, flags, 0xFF, 0xFF, Hi(checksum), Lo(checksum), 0x00, 0x00]
  }

  function UdpHead(srcPort: Word16, dstPort: Word16, length: Word16, checksum: Word16): (h: seq<Byte>)
    ensures |h| == 8
  {
    [Hi(srcPort), Lo(srcPort), Hi(dstPort), Lo(dstPort), Hi(length), Lo(length),
     Hi(checksum), Lo(checksum)]
  }

  /** What the transport checksum covers besides the segment; section 3.1 of RFC 9293. */
  function PseudoHead(src: Ipv4, dst: Ipv4, protocol: Byte, length: nat): (h: seq<Byte>)
    ensures |h| == 12
  {
    var l: Word16 := length % 0x1_0000;
    [src.a, src.b, src.c, src.d, dst.a, dst.b, dst.c, dst.d, 0, protocol, Hi(l), Lo(l)]
  }

  function IpHeadSum(total: nat, id: Word16, protocol: Byte, src: Ipv4, dst: Ipv4): Word16 {
    Checksum(IpHead(total, id, protocol, src, dst, 0))
  }

  function TcpSum(src: Ipv4, dst: Ipv4, srcPort: Word16, dstPort: Word16, seqNo: Word32, ackNo: Word32,
                  flags: Byte, payload: seq<Byte>): Word16 {
    Checksum(PseudoHead(src, dst, TCP, 20 + |payload|)
             + (TcpHead(srcPort, dstPort, seqNo, ackNo, flags, 0) + payload))
  }

  function TcpPacket(src: Ipv4, dst: Ipv4, id: Word16, srcPort: Word16, dstPort: Word16, seqNo: Word32, ackNo: Word32,
                     flags: Byte, payload: seq<Byte>): seq<Byte> {
    IpHead(40 + |payload|, id, TCP, src, dst, IpHeadSum(40 + |payload|, id, TCP, src, dst))
    + (TcpHead(srcPort, dstPort, seqNo, ackNo, flags,
               TcpSum(src, dst, srcPort, dstPort, seqNo, ackNo, flags, payload))
       + payload)
  }

  /** The UDP length field is 16 bits, and the sum that fills it wraps. */
  function UdpLength(payload: seq<Byte>): Word16 {
    (8 + |payload| % 0x1_0000) % 0x1_0000
  }

  function UdpSum(src: Ipv4, dst: Ipv4, srcPort: Word16, dstPort: Word16, payload: seq<Byte>): Word16 {
    Checksum(PseudoHead(src, dst, UDP, 8 + |payload|) + (UdpHead(srcPort, dstPort, UdpLength(payload), 0) + payload))
  }

  function UdpPacket(src: Ipv4, dst: Ipv4, srcPort: Word16, dstPort: Word16, payload: seq<Byte>): seq<Byte> {
    var total := 20 + UdpLength(payload);
    IpHead(total, 0, UDP, src, dst, IpHeadSum(total, 0, UDP, src, dst))
    + (UdpHead(srcPort, dstPort, UdpLength(payload), UdpSum(src, dst, srcPort, dstPort, payload)) + payload)
  }

  // ----- building -----

  lemma PatchedHead(total: nat, id: Word16, protocol: Byte, src: Ipv4, dst: Ipv4, c: Word16, rest: seq<Byte>)
    ensures (IpHead(total, id, protocol, src, dst, 0) + rest)[10 := Hi(c)][11 := Lo(c)]
            == IpHead(total, id, protocol, src, dst, c) + rest
  {
  }

  lemma PatchedTcp(head: seq<Byte>, srcPort: Word16, dstPort: Word16, seqNo: Word32, ackNo: Word32, flags: Byte,
                   c: Word16, payload: seq<Byte>)
    requires |head| == 20
    ensures (head + (TcpHead(srcPort, dstPort, seqNo, ackNo, flags, 0) + payload))[36 := Hi(c)][37 := Lo(c)]
            == head + (TcpHead(srcPort, dstPort, seqNo, ackNo, flags, c) + payload)
  {
  }

  lemma PatchedUdp(head: seq<Byte>, srcPort: Word16, dstPort: Word16, length: Word16, c: Word16, payload: seq<Byte>)
    requires |head| == 20
    ensures (head + (UdpHead(srcPort, dstPort, length, 0) + payload))[26 := Hi(c)][27 := Lo(c)]
            == head + (UdpHead(srcPort, dstPort, length, c) + payload)
  {
  }

  /** The checksum of a TCP segment behind its pseudo-header, its own checksum field taken as zero. */
  method TcpChecksum(src: Ipv4, dst: Ipv4, segment: seq<Byte>) returns (checksum: Word16)
    requires |segment| >= 18
    ensures checksum == Checksum(PseudoHead(src, dst, TCP, |segment|) + segment[16 := 0][17 := 0])
  {
    var buf := src.Octets() + dst.Octets();
    buf := buf + [0, TCP];
    buf := buf + Be16(|segment| % 0x1_0000);
    assert buf == PseudoHead(src, dst, TCP, |segment|);
    ghost var head := buf;
    buf := buf + segment;
    buf := buf[12 + 16 := 0][12 + 17 := 0];
    assert buf == head + segment[16 := 0][17 := 0];
    checksum := IpChecksum(buf);
  }

  method UdpChecksum(src: Ipv4, dst: Ipv4, segment: seq<Byte>) returns (checksum: Word16)
    requires |segment| >= 8
    ensures checksum == Checksum(PseudoHead(src, dst, UDP, |segment|) + segment[6 := 0][7 := 0])
  {
    var buf := src.Octets() + dst.Octets();
    buf := buf + [0, UDP];
    buf := buf + Be16(|segment| % 0x1_0000);
    assert buf == PseudoHead(src, dst, UDP, |segment|);
    ghost var head := buf;
    buf := buf + segment;
    buf := buf[12 + 6 := 0][12 + 7 := 0];
    assert buf == head + segment[6 := 0][7 := 0];
    checksum := IpChecksum(buf);
  }

  /** The IPv4 header the builders start from, its checksum not yet computed. */
  method PushIpHead(total: nat, id: Word16, protocol: Byte, src: Ipv4, dst: Ipv4) returns (pkt: seq<Byte>)
    ensures pkt == IpHead(total, id, protocol, src, dst, 0)
  {
    pkt := [0x45, 0x00];
    pkt := pkt + Be16(total % 0x1_0000);
    pkt := pkt + Be16(id);
    pkt := pkt + [0x40, 0x00, 64, protocol];
    pkt := pkt + [0x00, 0x00];
    pkt := pkt + src.Octets();
    pkt := pkt + dst.Octets();
  }

  method PushTcpHead(srcPort: Word16, dstPort: Word16, seqNo: Word32, ackNo: Word32, flags: Byte)
    returns (seg: seq<Byte>)
    ensures seg == TcpHead(srcPort, dstPort, seqNo, ackNo, flags, 0)
  {
    seg := Be16(srcPort) + Be16(dstPort);
    seg := seg + Be32(seqNo);
    seg := seg + Be32(ackNo);
    seg := seg + [0x50, flags];
    seg := seg + Be16(65535);
    seg := seg + [0x00, 0x00];
    seg := seg + [0x00, 0x00];
  }

  /** Compute the header checksum and patch it in. */
  method PatchIpSum(pkt: seq<Byte>, total: nat, id: Word16, protocol: Byte, src: Ipv4, dst: Ipv4,
                    ghost segment: seq<Byte>)
    returns (patched: seq<Byte>)
    requires pkt == IpHead(total, id, protocol, src, dst, 0) + segment
    ensures patched == IpHead(total, id, protocol, src, dst, IpHeadSum(total, id, protocol, src, dst)) + segment
  {
    assert pkt[..20] == IpHead(total, id, protocol, src, dst, 0);
    var sum := IpChecksum(pkt[..20]);
    PatchedHead(total, id, protocol, src, dst, sum, segment);
    patched := pkt[10 := Hi(sum)][11 := Lo(sum)];
  }

  method BuildTcpPacket(src: Ipv4, dst: Ipv4, id: Word16, srcPort: Word16, dstPort: Word16, seqNo: Word32,
                        ackNo: Word32, flags: Byte, payload: seq<Byte>) returns (pkt: seq<Byte>)
    ensures pkt == TcpPacket(src, dst, id, srcPort, dstPort, seqNo, ackNo, flags, payload)
  {
    var total := 40 + |payload|;
    var ipHead := PushIpHead(total, id, TCP, src, dst);
    var tcpHead := PushTcpHead(srcPort, dstPort, seqNo, ackNo, flags);
    ghost var segment := tcpHead + payload;
    pkt := PatchIpSum(ipHead + (tcpHead + payload), total, id, TCP, src, dst, segment);
    ghost var head := IpHead(total, id, TCP, src, dst, IpHeadSum(total, id, TCP, src, dst));
    assert pkt[20..] == segment;
    assert segment[16 := 0][17 := 0] == segment;
    var sum := TcpChecksum(src, dst, pkt[20..]);
    PatchedTcp(head, srcPort, dstPort, seqNo, ackNo, flags, sum, payload);
    pkt := pkt[20 + 16 := Hi(sum)][20 + 17 := Lo(sum)];
  }

  method BuildUdpPacket(src: Ipv4, dst: Ipv4, srcPort: Word16, dstPort: Word16, payload: seq<Byte>)
    returns (pkt: seq<Byte>)
    ensures pkt == UdpPacket(src, dst, srcPort, dstPort, payload)
  {
    var length: int := UdpLength(payload);
    var total := 20 + length;
    var ipHead := PushIpHead(total, 0, UDP, src, dst);
    var udpHead := Be16(srcPort) + Be16(dstPort);
    udpHead := udpHead + Be16(length);
    udpHead := udpHead + [0x00, 0x00];
    assert udpHead == UdpHead(srcPort, dstPort, length, 0);
    ghost var segment := udpHead + payload;
    pkt := PatchIpSum(ipHead + (udpHead + payload), total, 0, UDP, src, dst, segment);
    ghost var head := IpHead(total, 0, UDP, src, dst, IpHeadSum(total, 0, UDP, src, dst));
    assert pkt[20..] == segment;
    assert segment[6 := 0][7 := 0] == segment;
    var sum := UdpChecksum(src, dst, pkt[20..]);
    PatchedUdp(head, srcPort, dstPort, length, sum, payload);
    pkt := pkt[20 + 6 := Hi(sum)][20 + 7 := Lo(sum)];
  }

  /** Answer a packet: addresses and ports swapped, acknowledging what it carried. */
  method BuildResponsePacket(original: ParsedPacket, payload: seq<Byte>) returns (pkt: seq<Byte>)
    ensures pkt == if original.tcp.None? then [] else ResponsePacket(original, original.tcp.value, payload)
  {
    if original.tcp.None? {
      return [];
    }
    var tcp, ip := original.tcp.value, original.ip;
    pkt := BuildTcpPacket(ip.destination, ip.source, (ip.identification + 1) % 0x1_0000,
                          tcp.destinationPort, tcp.sourcePort, tcp.acknowledgmentNumber,
                          AckFor(original, tcp), 0x10, payload);
  }

  /** A SYN, FIN or RST occupies one sequence number, data as many as its bytes; the rest acknowledges nothing new. */
  function AckFor(original: ParsedPacket, tcp: TcpHeader): Word32 {
    if original.IsTcpSyn() || original.IsTcpFin() then WrappingAdd(tcp.sequenceNumber, 1)
    else if original.payload != [] then WrappingAdd(tcp.sequenceNumber, |original.payload|)
    else tcp.acknowledgmentNumber
  }

  function ResponsePacket(original: ParsedPacket, tcp: TcpHeader, payload: seq<Byte>): seq<Byte> {
    TcpPacket(original.ip.destination, original.ip.source, (original.ip.identification + 1) % 0x1_0000,
              tcp.destinationPort, tcp.sourcePort, tcp.acknowledgmentNumber, AckFor(original, tcp), 0x10, payload)
  }

  // ----- what a receiver checks -----

  /** The header sums to 0xFFFF, and so does the segment behind the pseudo-header the packet itself names. */
  ghost predicate ReceiverAccepts(pkt: seq<Byte>) {
    && |pkt| >= 20
    && WordSum(pkt[..20]) < 0x1_0000_0000
    && Fold(WordSum(pkt[..20])) == 0xFFFF
    && var covered := PseudoHead(Ipv4(pkt[12], pkt[13], pkt[14], pkt[15]), Ipv4(pkt[16], pkt[17], pkt[18], pkt[19]),
                                 pkt[9], |pkt| - 20) + pkt[20..];
       WordSum(covered) < 0x1_0000_0000 && Fold(WordSum(covered)) == 0xFFFF
  }

  lemma IpHeadVerifies(total: nat, id: Word16, protocol: Byte, src: Ipv4, dst: Ipv4)
    ensures var h := IpHead(total, id, protocol, src, dst, IpHeadSum(total, id, protocol, src, dst));
            WordSum(h) < 0x1_0000_0000 && Fold(WordSum(h)) == 0xFFFF
  {
    var zeroed := IpHead(total, id, protocol, src, dst, 0);
    var a, b := zeroed[..10], zeroed[12..];
    assert zeroed == a + [0, 0] + b;
    ChecksumVerifies(a, b);
    assert IpHead(total, id, protocol, src, dst, Checksum(zeroed)) == a + Be16(Checksum(zeroed)) + b;
  }

  /** Splitting a covered segment around its checksum field. */
  lemma CoveredVerifies(pseudo: seq<Byte>, segment: seq<Byte>, at: nat)
    requires |pseudo| == 12 && at % 2 == 0 && at + 2 <= |segment| <= 131062
    requires segment[at] == 0 && segment[at + 1] == 0
    ensures var c := Checksum(pseudo + segment);
            var sealed := pseudo + segment[at := Hi(c)][at + 1 := Lo(c)];
            WordSum(sealed) < 0x1_0000_0000 && Fold(WordSum(sealed)) == 0xFFFF
  {
    var a, b := pseudo + segment[..at], segment[at + 2..];
    assert pseudo + segment == a + [0, 0] + b;
    var c := Checksum(pseudo + segment);
    ChecksumVerifies(a, b);
    assert pseudo + segment[at := Hi(c)][at + 1 := Lo(c)] == a + Be16(c) + b;
  }

  lemma AcceptedWhenSealed(total: nat, id: Word16, protocol: Byte, src: Ipv4, dst: Ipv4, segment: seq<Byte>)
    requires var covered := PseudoHead(src, dst, protocol, |segment|) + segment;
             WordSum(covered) < 0x1_0000_0000 && Fold(WordSum(covered)) == 0xFFFF
    ensures ReceiverAccepts(IpHead(total, id, protocol, src, dst, IpHeadSum(total, id, protocol, src, dst)) + segment)
  {
    var head := IpHead(total, id, protocol, src, dst, IpHeadSum(total, id, protocol, src, dst));
    IpHeadVerifies(total, id, protocol, src, dst);
    var pkt := head + segment;
    assert pkt[..20] == head && pkt[20..] == segment;
    assert src == Ipv4(pkt[12], pkt[13], pkt[14], pkt[15]) && dst == Ipv4(pkt[16], pkt[17], pkt[18], pkt[19]);
  }

  /**
   * Every TCP packet the builder makes is accepted: both checksums fold to 0xFFFF with no carry
   * lost, for every address, port, number, flag and payload, odd lengths and the largest read included.
   */
  lemma TcpPacketVerifies(src: Ipv4, dst: Ipv4, id: Word16, srcPort: Word16, dstPort: Word16, seqNo: Word32,
                          ackNo: Word32, flags: Byte, payload: seq<Byte>)
    requires |payload| <= 131042
    ensures ReceiverAccepts(TcpPacket(src, dst, id, srcPort, dstPort, seqNo, ackNo, flags, payload))
  {
    var zeroed: seq<Byte> := TcpHead(srcPort, dstPort, seqNo, ackNo, flags, 0) + payload;
    var c := TcpSum(src, dst, srcPort, dstPort, seqNo, ackNo, flags, payload);
    CoveredVerifies(PseudoHead(src, dst, TCP, 20 + |payload|), zeroed, 16);
    var segment: seq<Byte> := TcpHead(srcPort, dstPort, seqNo, ackNo, flags, c) + payload;
    assert segment == zeroed[16 := Hi(c)][17 := Lo(c)];
    AcceptedWhenSealed(40 + |payload|, id, TCP, src, dst, segment);
  }

  lemma UdpSealed(srcPort: Word16, dstPort: Word16, length: Word16, c: Word16, payload: seq<Byte>)
    ensures UdpHead(srcPort, dstPort, length, c) + payload
            == (UdpHead(srcPort, dstPort, length, 0) + payload)[6 := Hi(c)][7 := Lo(c)]
    ensures UdpHead(srcPort, dstPort, length, 0)[6] == UdpHead(srcPort, dstPort, length, 0)[7] == 0
  {
    hide Hi, Lo;
    assert Hi(0) == 0 && Lo(0) == 0 by {
      ZeroBytes();
    }
  }

  lemma ZeroBytes()
    ensures Hi(0) == 0 && Lo(0) == 0
  {
  }

  lemma UdpPacketVerifies(src: Ipv4, dst: Ipv4, srcPort: Word16, dstPort: Word16, payload: seq<Byte>)
    requires |payload| <= 131054
    ensures ReceiverAccepts(UdpPacket(src, dst, srcPort, dstPort, payload))
  {
    hide UdpHead, IpHead, IpHeadSum, WordSum, Fold, Hi, Lo, ReceiverAccepts, PseudoHead;
    var length: int := UdpLength(payload);
    var zeroed: seq<Byte> := UdpHead(srcPort, dstPort, length, 0) + payload;
    var c := UdpSum(src, dst, srcPort, dstPort, payload);
    UdpSealed(srcPort, dstPort, length, c, payload);
    CoveredVerifies(PseudoHead(src, dst, UDP, 8 + |payload|), zeroed, 6);
    var segment: seq<Byte> := UdpHead(srcPort, dstPort, length, c) + payload;
    AcceptedWhenSealed(20 + length, 0, UDP, src, dst, segment);
  }

  /** The 16-bit total length tells the truth exactly when the packet fits it. */
  lemma TotalLengthIsTrueIff(src: Ipv4, dst: Ipv4, id: Word16, srcPort: Word16, dstPort: Word16, seqNo: Word32,
                             ackNo: Word32, flags: Byte, payload: seq<Byte>)
    ensures var pkt := TcpPacket(src, dst, id, srcPort, dstPort, seqNo, ackNo, flags, payload);
            |pkt| == 40 + |payload| && (FromBe16(pkt[2], pkt[3]) == |pkt| <==> |payload| <= 65495)
  {
    hide IpHeadSum, TcpSum;
  }

  /** What the 16-bit sums make of a payload's length. */
  lemma WrappedLengths(n: nat)
    ensures var length := (8 + n % 0x1_0000) % 0x1_0000;
            && (length == 8 + n <==> n <= 65527)
            && ((20 + length) % 0x1_0000 == 28 + n <==> n <= 65507)
  {
    var m := n % 0x1_0000;
    if n < 0x1_0000 {
      assert m == n;
    }
    assert (8 + m) % 0x1_0000 == if m < 65528 then 8 + m else m - 65528;
  }

  lemma FieldsOf(src: Ipv4, dst: Ipv4, srcPort: Word16, dstPort: Word16, payload: seq<Byte>)
    ensures var pkt, length := UdpPacket(src, dst, srcPort, dstPort, payload), UdpLength(payload);
            && |pkt| == 28 + |payload|
            && pkt[24] == Hi(length) && pkt[25] == Lo(length)
            && pkt[2] == Hi((20 + length) % 0x1_0000) && pkt[3] == Lo((20 + length) % 0x1_0000)
  {
    hide IpHeadSum, UdpSum, Hi, Lo, UdpLength;
  }

  /**
   * The UDP builder has two length fields, and each tells the truth exactly when what it measures fits it;
   * the 16-bit sum in the first wraps.
   */
  lemma UdpLengthsAreTrueIff(src: Ipv4, dst: Ipv4, srcPort: Word16, dstPort: Word16, payload: seq<Byte>)
    ensures var pkt := UdpPacket(src, dst, srcPort, dstPort, payload);
            && |pkt| == 28 + |payload|
            && (FromBe16(pkt[24], pkt[25]) == |pkt| - 20 <==> |payload| <= 65527)
            && (FromBe16(pkt[2], pkt[3]) == |pkt| <==> |payload| <= 65507)
  {
    hide UdpPacket, UdpLength, Hi, Lo, FromBe16;
    UdpLengthIs(payload);
    FieldsOf(src, dst, srcPort, dstPort, payload);
    var length: int := UdpLength(payload);
    WordOf(length);
    WordOf((20 + length) % 0x1_0000);
  }

  lemma UdpLengthIs(payload: seq<Byte>)
    ensures UdpLength(payload) == 8 + |payload| <==> |payload| <= 65527
    ensures (20 + UdpLength(payload)) % 0x1_0000 == 28 + |payload| <==> |payload| <= 65507
  {
    WrappedLengths(|payload|);
  }

  /** A read that fills its buffer makes a packet that says it is forty bytes long. */
  lemma FullReadSaysForty(src: Ipv4, dst: Ipv4, srcPort: Word16, dstPort: Word16, seqNo: Word32, ackNo: Word32,
                          payload: seq<Byte>)
    requires |payload| == 65536
    ensures var pkt := TcpPacket(src, dst, 0, srcPort, dstPort, seqNo, ackNo, 0x18, payload);
            |pkt| == 65576 && FromBe16(pkt[2], pkt[3]) == 40
  {
    hide IpHeadSum, TcpSum;
  }

  // ----- parsing -----

  datatype ParseResult<+T> = Parsed(value: T) | Malformed(reason: string)

  datatype IpHeader = IpHeader(
    ihl: Byte, totalLength: Word16, identification: Word16, flags: Byte, fragmentOffset: Word16,
    ttl: Byte, protocol: Byte, checksum: Word16, source: Ipv4, destination: Ipv4)

  datatype TcpFlags = TcpFlags(fin: bool, syn: bool, rst: bool, psh: bool, ack: bool, urg: bool)

  datatype TcpHeader = TcpHeader(
    sourcePort: Word16, destinationPort: Word16, sequenceNumber: Word32, acknowledgmentNumber: Word32,
    dataOffset: Byte, flags: TcpFlags, windowSize: Word16, checksum: Word16, urgentPointer: Word16)

  datatype ParsedPacket = ParsedPacket(ip: IpHeader, tcp: Option<TcpHeader>, payload: seq<Byte>)
  {
    predicate IsTcpSyn() {
      tcp.Some? && tcp.value.flags.syn && !tcp.value.flags.ack
    }

    predicate IsTcpFin() {
      tcp.Some? && (tcp.value.flags.fin || tcp.value.flags.rst)
    }
  }

  function ParseIp(data: seq<Byte>): (r: ParseResult<IpHeader>)
    ensures r.Parsed? ==> 20 <= r.value.ihl <= |data|
  {
    if |data| < 20 then Malformed("Packet too short")
    else if data[0] / 16 != 4 then Malformed("Not IPv4")
    else
      var ihl: Byte := data[0] % 16 * 4;
      if ihl < 20 || |data| < ihl then Malformed("Bad IHL")
      else Parsed(IpHeader(
        ihl, FromBe16(data[2], data[3]), FromBe16(data[4], data[5]), data[6] / 32,
        FromBe16(data[6] % 32, data[7]), data[8], data[9], FromBe16(data[10], data[11]),
        Ipv4(data[12], data[13], data[14], data[15]), Ipv4(data[16], data[17], data[18], data[19])))
  }

  function FlagsOf(f: Byte): TcpFlags {
    TcpFlags(f % 2 == 1, f / 2 % 2 == 1, f / 4 % 2 == 1, f / 8 % 2 == 1, f / 16 % 2 == 1, f / 32 % 2 == 1)
  }

  function ParseTcp(data: seq<Byte>): (r: ParseResult<TcpHeader>)
    ensures r.Parsed? ==> 20 <= r.value.dataOffset <= |data|
  {
    if |data| < 20 then Malformed("TCP header too short")
    else
      var offset: Byte := data[12] / 16 * 4;
      if offset < 20 || |data| < offset then Malformed("Bad TCP data offset")
      else Parsed(TcpHeader(
        FromBe16(data[0], data[1]), FromBe16(data[2], data[3]),
        FromBe32(data[4], data[5], data[6], data[7]), FromBe32(data[8], data[9], data[10], data[11]),
        offset, FlagsOf(data[13]), FromBe16(data[14], data[15]), FromBe16(data[16], data[17]),
        FromBe16(data[18], data[19])))
  }

  function Parse(data: seq<Byte>): ParseResult<ParsedPacket> {
    match ParseIp(data)
    case Malformed(reason) => Malformed(reason)
    case Parsed(ip) =>
      if ip.protocol == TCP then
        match ParseTcp(data[ip.ihl..])
        case Malformed(reason) => Malformed(reason)
        case Parsed(tcp) => Parsed(ParsedPacket(ip, Some(tcp), data[ip.ihl + tcp.dataOffset..]))
      else Parsed(ParsedPacket(ip, None, data[ip.ihl..]))
  }

  /** Which bytes are a packet at all: IPv4, with headers as long as they say and say enough; only TCP is seen into. */
  lemma ParsesIff(data: seq<Byte>)
    ensures Parse(data).Parsed?
            <==> |data| >= 20 && data[0] / 16 == 4 && 20 <= data[0] % 16 * 4 <= |data|
                 && (data[9] == 6 ==>
                       var at := data[0] % 16 * 4;
                       |data| >= at + 20 && 20 <= data[at + 12] / 16 * 4 <= |data| - at)
    ensures Parse(data).Parsed? ==>
              var p, at := Parse(data).value, data[0] % 16 * 4;
              && (p.tcp.Some? <==> data[9] == 6)
              && p.payload == if data[9] == 6 then data[at + data[at + 12] / 16 * 4..] else data[at..]
  {
    hide FromBe16, FromBe32, FlagsOf;
    if |data| >= 20 && data[0] / 16 == 4 && 20 <= data[0] % 16 * 4 <= |data| {
      var at := data[0] % 16 * 4;
      var behind := data[at..];
      assert |behind| > 12 ==> behind[12] == data[at + 12];
    }
  }

  lemma ParseIpHead(total: nat, id: Word16, protocol: Byte, src: Ipv4, dst: Ipv4, c: Word16, rest: seq<Byte>)
    ensures ParseIp(IpHead(total, id, protocol, src, dst, c) + rest)
            == Parsed(IpHeader(20, total % 0x1_0000, id, 2, 0, 64, protocol, c, src, dst))
  {
    hide Hi, Lo, FromBe16;
    WordOf(total % 0x1_0000);
    WordOf(id);
    WordOf(c);
    var head := IpHead(total, id, protocol, src, dst, c);
    EdgeWords(head[6] % 32, head[7]);
    assert forall i :: 0 <= i < 20 ==> (head + rest)[i] == head[i];
  }

  lemma ParseTcpHead(srcPort: Word16, dstPort: Word16, seqNo: Word32, ackNo: Word32, flags: Byte, c: Word16,
                     payload: seq<Byte>)
    ensures ParseTcp(TcpHead(srcPort, dstPort, seqNo, ackNo, flags, c) + payload)
            == Parsed(TcpHeader(srcPort, dstPort, seqNo, ackNo, 20, FlagsOf(flags), 65535, c, 0))
  {
    hide ByteAt, FromBe32, FlagsOf, Hi, Lo, FromBe16;
    Be32RoundTrip(seqNo);
    Be32RoundTrip(ackNo);
    WordOf(srcPort);
    WordOf(dstPort);
    WordOf(c);
    var head := TcpHead(srcPort, dstPort, seqNo, ackNo, flags, c);
    EdgeWords(head[14], head[15]);
    EdgeWords(head[18], head[19]);
    assert forall i :: 0 <= i < 20 ==> (head + payload)[i] == head[i];
  }

  lemma ParseInParts(head: seq<Byte>, tcpHead: seq<Byte>, payload: seq<Byte>, ip: IpHeader, tcp: TcpHeader)
    requires |head| == 20 && |tcpHead| == 20
    requires ParseIp(head + (tcpHead + payload)) == Parsed(ip) && ip.ihl == 20 && ip.protocol == TCP
    requires ParseTcp(tcpHead + payload) == Parsed(tcp) && tcp.dataOffset == 20
    ensures Parse(head + (tcpHead + payload)) == Parsed(ParsedPacket(ip, Some(tcp), payload))
  {
    var pkt := head + (tcpHead + payload);
    assert pkt[20..] == tcpHead + payload;
    assert pkt[40..] == payload;
  }

  /** Parsing what the builder made gives back everything that went in, whatever the length field says. */
  lemma ParseUndoesBuild(src: Ipv4, dst: Ipv4, id: Word16, srcPort: Word16, dstPort: Word16, seqNo: Word32,
                         ackNo: Word32, flags: Byte, payload: seq<Byte>)
    ensures Parse(TcpPacket(src, dst, id, srcPort, dstPort, seqNo, ackNo, flags, payload))
            == Parsed(ParsedPacket(
                 IpHeader(20, (40 + |payload|) % 0x1_0000, id, 2, 0, 64, TCP,
                          IpHeadSum(40 + |payload|, id, TCP, src, dst), src, dst),
                 Some(TcpHeader(srcPort, dstPort, seqNo, ackNo, 20, FlagsOf(flags), 65535,
                                TcpSum(src, dst, srcPort, dstPort, seqNo, ackNo, flags, payload), 0)),
                 payload))
  {
    var total, c := 40 + |payload|, TcpSum(src, dst, srcPort, dstPort, seqNo, ackNo, flags, payload);
    var headSum := IpHeadSum(total, id, TCP, src, dst);
    var tcpHead := TcpHead(srcPort, dstPort, seqNo, ackNo, flags, c);
    ParseIpHead(total, id, TCP, src, dst, headSum, tcpHead + payload);
    ParseTcpHead(srcPort, dstPort, seqNo, ackNo, flags, c, payload);
    ParseInParts(IpHead(total, id, TCP, src, dst, headSum), tcpHead, payload,
                 IpHeader(20, total % 0x1_0000, id, 2, 0, 64, TCP, headSum, src, dst),
                 TcpHeader(srcPort, dstPort, seqNo, ackNo, 20, FlagsOf(flags), 65535, c, 0));
  }

  /**
   * The generic response to a segment goes back the way it came and carries the payload; it acknowledges
   * one past a SYN, a FIN or a RST, and otherwise the end of the segment's data if it has any.
   */
  lemma ResponseGoesBack(original: ParsedPacket, payload: seq<Byte>)
    requires original.tcp.Some?
    ensures var tcp := original.tcp.value;
            var r := Parse(ResponsePacket(original, tcp, payload));
            && r.Parsed? && r.value.tcp.Some? && r.value.payload == payload
            && r.value.ip.source == original.ip.destination && r.value.ip.destination == original.ip.source
            && r.value.ip.identification == (original.ip.identification + 1) % 0x1_0000
            && var back := r.value.tcp.value;
               && back.sourcePort == tcp.destinationPort && back.destinationPort == tcp.sourcePort
               && back.flags == TcpFlags(false, false, false, false, true, false)
               && back.sequenceNumber == tcp.acknowledgmentNumber
               && (tcp.flags.fin || tcp.flags.rst || (tcp.flags.syn && !tcp.flags.ack) ==>
                     back.acknowledgmentNumber == WrappingAdd(tcp.sequenceNumber, 1))
               && (!tcp.flags.fin && !tcp.flags.rst && !tcp.flags.syn ==>
                     back.acknowledgmentNumber
                     == if original.payload == [] then tcp.acknowledgmentNumber
                        else WrappingAdd(tcp.sequenceNumber, |original.payload|))
  {
    hide Parse, TcpPacket, AckFor;
    var tcp, ip := original.tcp.value, original.ip;
    var ack := AckFor(original, tcp);
    AckForKinds(original, tcp);
    ParseUndoesBuild(ip.destination, ip.source, (ip.identification + 1) % 0x1_0000, tcp.destinationPort, tcp.sourcePort,
                     tcp.acknowledgmentNumber, ack, 0x10, payload);
  }

  lemma AckForKinds(original: ParsedPacket, tcp: TcpHeader)
    requires original.tcp == Some(tcp)
    ensures var ack := AckFor(original, tcp);
            && (tcp.flags.fin || tcp.flags.rst || (tcp.flags.syn && !tcp.flags.ack) ==>
                  ack == WrappingAdd(tcp.sequenceNumber, 1))
            && (!tcp.flags.fin && !tcp.flags.rst && !tcp.flags.syn ==>
                  ack == if original.payload == [] then tcp.acknowledgmentNumber
                         else WrappingAdd(tcp.sequenceNumber, |original.payload|))
  {
  }

  /** A built UDP packet is read as going from one end to the other, with ports and payload where they belong. */
  lemma UdpComesBack(src: Ipv4, dst: Ipv4, srcPort: Word16, dstPort: Word16, payload: seq<Byte>)
    ensures var r := Parse(UdpPacket(src, dst, srcPort, dstPort, payload));
            && r.Parsed? && r.value.tcp.None? && r.value.ip.source == src && r.value.ip.destination == dst
            && r.value.ip.protocol == 17 && IsDatagram(r.value.payload, srcPort, dstPort, payload)
  {
    hide UdpSum, IpHead, UdpHead, ParseIp, ParseTcp, IsDatagram;
    var total := 20 + UdpLength(payload);
    var headSum, c := IpHeadSum(total, 0, UDP, src, dst), UdpSum(src, dst, srcPort, dstPort, payload);
    var head := IpHead(total, 0, UDP, src, dst, headSum);
    var datagram := UdpHead(srcPort, dstPort, UdpLength(payload), c) + payload;
    ParseIpHead(total, 0, UDP, src, dst, headSum, datagram);
    DatagramReads(srcPort, dstPort, UdpLength(payload), c, payload);
    assert (head + datagram)[20..] == datagram;
  }

  /** Ports in front, the payload behind the eight bytes of the header. */
  predicate IsDatagram(datagram: seq<Byte>, srcPort: Word16, dstPort: Word16, payload: seq<Byte>) {
    && |datagram| >= 8 && datagram[8..] == payload
    && FromBe16(datagram[0], datagram[1]) == srcPort && FromBe16(datagram[2], datagram[3]) == dstPort
  }

  lemma DatagramReads(srcPort: Word16, dstPort: Word16, length: Word16, c: Word16, payload: seq<Byte>)
    ensures IsDatagram(UdpHead(srcPort, dstPort, length, c) + payload, srcPort, dstPort, payload)
  {
    hide Hi, Lo, FromBe16;
    WordOf(srcPort);
    WordOf(dstPort);
  }
}
