/** The binding request of sendBindingReq (libcore/stun/net.go) with its FINGERPRINT
    (section 15.5 of RFC 5389).  The CRC-32 is a parameter. */
module StunRequest {
  import opened Bytes
  import opened StunPacket

  /** newChangeReqAttribute. */
  function ChangeRequestValue(changeIp: bool, changePort: bool): seq<byte> {
    [0, 0, 0, (if changeIp then 0x04 else 0) + if changePort then 0x02 else 0]
  }

  /** The flags in the fourth byte, as section 14.3 of RFC 5780 numbers them: 4 asks for another
      address, 2 for another port. */
  lemma ChangeFlags(changeIp: bool, changePort: bool)
    ensures var value := ChangeRequestValue(changeIp, changePort);
            && value[..3] == [0, 0, 0] && |value| == 4
            && (changeIp <==> Bit(value[3], 2) == 1) && (changePort <==> Bit(value[3], 1) == 1)
            && Bit(value[3], 0) == 0 && value[3] < 8
  {
    assert Pow2(2) == 4 && Pow2(1) == 2;
  }

  /** The four bytes of a FINGERPRINT, for the bytes before it. It is passed around as a value, so
      that the proofs about packets do not look into the checksum's arithmetic. */
  type Seal = seq<byte> -> seq<byte>

  function SealOf(crc: seq<byte> -> uint32): Seal {
    before => U32(XorU32(crc(before), FINGERPRINT_XOR))
  }

  ghost predicate Seals(seal: Seal, crc: seq<byte> -> uint32) {
    && (forall before {:trigger crc(before)} :: seal(before) == U32(XorU32(crc(before), FINGERPRINT_XOR)))
    && (forall before {:trigger seal(before)} :: |seal(before)| == 4)
  }

  lemma SealOfSeals(crc: seq<byte> -> uint32)
    ensures Seals(SealOf(crc), crc)
  {
  }

  /** newFingerprintAttribute: the checksum of the packet as it prints now. */
  method NewFingerprintAttribute(pkt: Packet, crc: seq<byte> -> uint32, ghost seal: Seal) returns (a: Attribute)
    requires Seals(seal, crc)
    ensures a == NewAttribute(FINGERPRINT, seal(Serialize(pkt.types, pkt.length, pkt.transId, pkt.attributes)))
  {
    var packetBytes := pkt.ToBytes();
    a := NewAttribute(FINGERPRINT, U32(XorU32(crc(packetBytes), FINGERPRINT_XOR)));
  }

  /** The attributes of a request before the fingerprint. */
  function RequestAttributes(software: seq<byte>, changeIp: bool, changePort: bool): seq<Attribute> {
    [NewAttribute(SOFTWARE, software)] +
    if changeIp || changePort then [NewAttribute(CHANGE_REQUEST, ChangeRequestValue(changeIp, changePort))] else []
  }

  /** The bytes of a FINGERPRINT attribute for the bytes before it. */
  function FingerprintBytes(before: seq<byte>, seal: Seal): seq<byte> {
    U16(FINGERPRINT) + U16(4) + seal(before)
  }

  lemma FingerprintAttributeBytes(value: seq<byte>)
    requires |value| == 4
    ensures AttributeBytes(NewAttribute(FINGERPRINT, value)) == U16(FINGERPRINT) + U16(4) + value
  {
    var a := NewAttribute(FINGERPRINT, value);
    assert a.value == a.value[..4];
  }

  lemma RequestBody(software: seq<byte>, changeIp: bool, changePort: bool)
    ensures |Body(RequestAttributes(software, changeIp, changePort))| ==
            4 + Align(|software| % 0x1_0000) + if changeIp || changePort then 8 else 0
  {
    var first := NewAttribute(SOFTWARE, software);
    BodyOne(first);
    if changeIp || changePort {
      var second := NewAttribute(CHANGE_REQUEST, ChangeRequestValue(changeIp, changePort));
      EightBytes(second);
      BodyExtend([first], second);
      assert RequestAttributes(software, changeIp, changePort) == [first] + [second];
    } else {
      assert RequestAttributes(software, changeIp, changePort) == [first];
    }
  }

  lemma EightBytes(a: Attribute)
    requires |a.value| == 4
    ensures |AttributeBytes(a)| == 8
  {
  }

  /** The printed form of a packet of types, transaction id and attributes whose header already
      counts eight more bytes. */
  function BeforeFingerprint(transId: seq<byte>, attributes: seq<Attribute>): seq<byte> {
    Serialize(BINDING_REQUEST, (|Body(attributes)| + 8) % 0x1_0000, transId, attributes)
  }

  lemma EightAndBack(size: nat, length: uint16)
    requires length == size % 0x1_0000
    ensures (length + 8) % 0x1_0000 == (size + 8) % 0x1_0000
    ensures ((length + 8) % 0x1_0000 - 8) % 0x1_0000 == length
  {
  }

  lemma SerializeExtend(types: uint16, length: uint16, transId: seq<byte>, attributes: seq<Attribute>, a: Attribute)
    ensures Serialize(types, length, transId, attributes + [a]) ==
            Serialize(types, length, transId, attributes) + AttributeBytes(a)
  {
    BodyExtend(attributes, a);
  }

  /** A packet prints as `attributes` did with eight more bytes counted, and a fingerprint of that. */
  ghost predicate Fingerprinted(types: uint16, length: uint16, transId: seq<byte>, all: seq<Attribute>,
                                attributes: seq<Attribute>, seal: Seal)
  {
    var before := Serialize(types, (|Body(attributes)| + 8) % 0x1_0000, transId, attributes);
    Serialize(types, length, transId, all) == before + FingerprintBytes(before, seal)
  }

  /** A fingerprint over a packet's printed form, added to the packet as an attribute. */
  lemma FingerprintAppended(types: uint16, length: uint16, transId: seq<byte>, all: seq<Attribute>,
                            attributes: seq<Attribute>, a: Attribute, seal: Seal)
    requires var value := seal(Serialize(types, (|Body(attributes)| + 8) % 0x1_0000, transId, attributes));
             |value| == 4 && a == NewAttribute(FINGERPRINT, value)
    requires all == attributes + [a] && length == |Body(all)| % 0x1_0000
    ensures Fingerprinted(types, length, transId, all, attributes, seal)
  {
    BodyExtend(attributes, a);
    SerializeExtend(types, length, transId, attributes, a);
    FingerprintAttributeBytes(seal(Serialize(types, (|Body(attributes)| + 8) % 0x1_0000, transId, attributes)));
    assert |Body(all)| == |Body(attributes)| + 8;
  }

  /** addAttribute, for a packet whose length field counts its attributes. */
  method Append(pkt: Packet, a: Attribute)
    requires pkt.LengthMatches() && |a.value| == Align(a.length)
    modifies pkt`length, pkt`attributes
    ensures pkt.LengthMatches() && pkt.attributes == old(pkt.attributes) + [a]
  {
    pkt.AddAttribute(a);
  }

  /** The checksum of a packet whose length field counts eight more bytes for a moment. */
  method ChecksumWithEightMore(pkt: Packet, crc: seq<byte> -> uint32, ghost seal: Seal) returns (attribute: Attribute)
    requires pkt.LengthMatches() && Seals(seal, crc)
    modifies pkt`length
    ensures pkt.length == old(pkt.length)
    ensures var before := Serialize(pkt.types, (|Body(pkt.attributes)| + 8) % 0x1_0000, pkt.transId, pkt.attributes);
            |seal(before)| == 4 && attribute == NewAttribute(FINGERPRINT, seal(before))
  {
    EightAndBack(|Body(pkt.attributes)|, pkt.length);
    pkt.length := (pkt.length + 8) % 0x1_0000;
    attribute := NewFingerprintAttribute(pkt, crc, seal);
    pkt.length := (pkt.length - 8) % 0x1_0000;
  }

  /** The length trick of sendBindingReq: count the fingerprint while it is computed, then
      add it as an ordinary attribute. */
  method AddFingerprint(pkt: Packet, crc: seq<byte> -> uint32, ghost seal: Seal)
    requires pkt.LengthMatches() && Seals(seal, crc)
    modifies pkt`length, pkt`attributes
    ensures pkt.LengthMatches()
    ensures pkt.attributes != [] && pkt.attributes[..|pkt.attributes| - 1] == old(pkt.attributes)
    ensures Fingerprinted(pkt.types, pkt.length, pkt.transId, pkt.attributes, old(pkt.attributes), seal)
  {
    ghost var attributes := pkt.attributes;
    var attribute := ChecksumWithEightMore(pkt, crc, seal);
    Append(pkt, attribute);
    FingerprintAppended(pkt.types, pkt.length, pkt.transId, pkt.attributes, attributes, attribute, seal);
    WithoutLast(attributes, attribute);
  }

  lemma WithoutLast<A>(s: seq<A>, x: A)
    ensures (s + [x])[..|s|] == s
  {
  }

  method UnsignedRequest(software: seq<byte>, changeIp: bool, changePort: bool, random: seq<byte>) returns (pkt: Packet)
    requires |random| == 12
    ensures fresh(pkt)
    ensures pkt.types == BINDING_REQUEST && pkt.transId == U32(MAGIC_COOKIE) + random
    ensures pkt.LengthMatches() && pkt.attributes == RequestAttributes(software, changeIp, changePort)
  {
    pkt := new Packet(random);
    pkt.types := BINDING_REQUEST;
    pkt.AddAttribute(NewAttribute(SOFTWARE, software));
    if changeIp || changePort {
      pkt.AddAttribute(NewAttribute(CHANGE_REQUEST, ChangeRequestValue(changeIp, changePort)));
    }
  }

  /** Builds the request.  Whatever the software name and the flags, the checksum in the last
      eight bytes of the printed request is that of all the bytes before them, and the header
      there already counts the fingerprint. */
  method BuildBindingRequest(software: seq<byte>, changeIp: bool, changePort: bool, random: seq<byte>,
                             crc: seq<byte> -> uint32) returns (pkt: Packet)
    requires |random| == 12
    ensures fresh(pkt)
    ensures pkt.types == BINDING_REQUEST && pkt.transId == U32(MAGIC_COOKIE) + random
    ensures pkt.LengthMatches()
    ensures pkt.attributes != []
            && pkt.attributes[..|pkt.attributes| - 1] == RequestAttributes(software, changeIp, changePort)
    ensures var before := BeforeFingerprint(pkt.transId, RequestAttributes(software, changeIp, changePort));
            Serialize(pkt.types, pkt.length, pkt.transId, pkt.attributes) ==
            before + FingerprintBytes(before, SealOf(crc))
  {
    pkt := UnsignedRequest(software, changeIp, changePort, random);
    SealOfSeals(crc);
    AddFingerprint(pkt, crc, SealOf(crc));
  }

  lemma SerializedHeader(types: uint16, length: uint16, transId: seq<byte>, attributes: seq<Attribute>)
    ensures var b := Serialize(types, length, transId, attributes);
            |b| == 4 + |transId| + |Body(attributes)| && b[2..4] == U16(length)
  {
  }

  lemma TailKeepsHeader(before: seq<byte>, tail: seq<byte>)
    requires |before| >= 4
    ensures (before + tail)[2..4] == before[2..4] && (before + tail)[..|before|] == before
  {
  }

  /** A request that fits: its header says how many bytes follow it, and the checksummed
      bytes carry that same header. */
  lemma FittingRequest(transId: seq<byte>, software: seq<byte>, changeIp: bool, changePort: bool,
                       crc: seq<byte> -> uint32)
    requires |transId| == 16 && |software| <= 0xffff - 20 - 3
    ensures var before := BeforeFingerprint(transId, RequestAttributes(software, changeIp, changePort));
            var request := before + FingerprintBytes(before, SealOf(crc));
            && |request| >= 28 && before == request[..|request| - 8]
            && request[2..4] == before[2..4]
            && ToU16(request[2..4]) == |request| - 20
  {
    RequestBody(software, changeIp, changePort);
    var attributes := RequestAttributes(software, changeIp, changePort);
    FittingBefore(transId, attributes);
    SealOfSeals(crc);
    var before := BeforeFingerprint(transId, attributes);
    TailKeepsHeader(before, FingerprintBytes(before, SealOf(crc)));
  }

  lemma FittingBefore(transId: seq<byte>, attributes: seq<Attribute>)
    requires |transId| == 16 && |Body(attributes)| + 8 < 0x1_0000
    ensures var before := BeforeFingerprint(transId, attributes);
            |before| == 20 + |Body(attributes)| && ToU16(before[2..4]) == |Body(attributes)| + 8
  {
    var size := |Body(attributes)| + 8;
    SmallModulo(size);
    SerializedHeader(BINDING_REQUEST, size, transId, attributes);
  }

  lemma XorU32Twice(a: uint32, b: uint32)
    ensures XorU32(XorU32(a, b), b) == a
  {
    Pow2Values();
    XorTwice(a, b, 32);
  }

  lemma LastBytes(before: seq<byte>, head: seq<byte>, seal: seq<byte>)
    requires |head| == |seal| == 4
    ensures var request := before + (head + seal);
            && |request| == |before| + 8 && request[..|before|] == before
            && request[|before|..|before| + 4] == head && request[|before| + 4..] == seal
  {
  }

  lemma FingerprintHeader()
    ensures U16(FINGERPRINT) + U16(4) == [0x80, 0x28, 0x00, 0x04]
  {
  }

  /** The check of a receiver (section 15.5 of RFC 5389): the last eight bytes are a FINGERPRINT
      attribute, whose value, with the published mask taken off, is the checksum of the rest. */
  lemma ReceiverAccepts(before: seq<byte>, crc: seq<byte> -> uint32)
    ensures var request := before + FingerprintBytes(before, SealOf(crc));
            var n := |request| - 8;
            && n >= 0 && request[n..n + 4] == [0x80, 0x28, 0x00, 0x04]
            && XorU32(ToU32(request[n + 4..]), 0x5354554e) == crc(request[..n])
  {
    var seal := U32(XorU32(crc(before), FINGERPRINT_XOR));
    FingerprintHeader();
    LastBytes(before, [0x80, 0x28, 0x00, 0x04], seal);
    assert FingerprintBytes(before, SealOf(crc)) == [0x80, 0x28, 0x00, 0x04] + seal;
    XorU32Twice(crc(before), FINGERPRINT_XOR);
  }
}
