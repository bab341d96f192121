/** What a client reads out of a STUN response: addresses (sections 15.1 and 15.2 of RFC 5389)
    and the error code (section 15.6).  An address is kept as bytes; its text form is the
    platform's. */
module StunAddress {
  import opened Bytes
  import opened Common
  import opened StunPacket

  datatype Host = Host(family: uint16, ip: seq<byte>, port: uint16)

  const XOR_MAPPED_ADDRESS: uint16 := 0x0020
  const XOR_MAPPED_ADDRESS_EXP: uint16 := 0x8020

  /** The first attribute of a type, if there is one. */
  function FirstOf(attributes: seq<Attribute>, types: uint16): Option<Attribute> {
    if attributes == [] then None
    else if attributes[0].types == types then Some(attributes[0])
    else FirstOf(attributes[1..], types)
  }

  lemma {:induction false} FirstAt(attributes: seq<Attribute>, types: uint16, i: nat)
    requires i <= |attributes| && forall k :: 0 <= k < i ==> attributes[k].types != types
    ensures FirstOf(attributes, types) == FirstOf(attributes[i..], types)
  {
    if i > 0 {
      FirstAt(attributes, types, i - 1);
      assert attributes[i - 1..][1..] == attributes[i..];
    } else {
      assert attributes[0..] == attributes;
    }
  }

  // ---------------------------------------------------------------- plain addresses

  /** rawAddr. */
  function RawAddr(a: Attribute): Option<Host> {
    if |a.value| < 8 then None
    else
      var family := a.value[1];
      var value := if family == FAMILY_IPV4 then a.value[..8] else a.value;
      Some(Host(family, value[4..], ToU16(a.value[2..4])))
  }

  method GetRawAddr(attributes: seq<Attribute>, types: uint16) returns (host: Option<Host>)
    ensures host == var first := FirstOf(attributes, types); if first.None? then None else RawAddr(first.value)
  {
    for i := 0 to |attributes|
      invariant forall k :: 0 <= k < i ==> attributes[k].types != types
    {
      FirstAt(attributes, types, i);
      if attributes[i].types == types {
        return RawAddr(attributes[i]);
      }
    }
    FirstAt(attributes, types, |attributes|);
    return None;
  }

  function EncodeRawAddr(h: Host): seq<byte>
    requires h.family < 0x100
  {
    [0, h.family] + U16(h.port) + h.ip
  }

  predicate PlainSize(h: Host) {
    if h.family == FAMILY_IPV4 then |h.ip| == 4 else |h.ip| >= 4 && |h.ip| % 4 == 0
  }

  /** Whatever is read has the size of an address. */
  lemma RawAddrSize(a: Attribute)
    requires WellFormed(a) && RawAddr(a).Some?
    ensures PlainSize(RawAddr(a).value)
  {
  }

  /** An attribute whose value needs no padding stores the value as it is. */
  lemma WholeWords(types: uint16, data: seq<byte>)
    requires |data| <= 0xfffc && |data| % 4 == 0
    ensures NewAttribute(types, data).value == data
  {
    var a := NewAttribute(types, data);
    NewAttributeIsWellFormed(types, data);
    assert a.value[..|data|] == a.value;
  }

  lemma EncodedRaw(h: Host)
    requires h.family < 0x100
    ensures var data := EncodeRawAddr(h);
            |data| == 4 + |h.ip| && data[1] == h.family && data[2..4] == U16(h.port) && data[4..] == h.ip
  {
  }

  lemma RawAddrBack(types: uint16, h: Host)
    requires h.family < 0x100 && |h.ip| <= 0xfff8 && PlainSize(h)
    ensures RawAddr(NewAttribute(types, EncodeRawAddr(h))) == Some(h)
  {
    var data := EncodeRawAddr(h);
    EncodedRaw(h);
    WholeWords(types, data);
    if h.family == FAMILY_IPV4 { assert data[..8] == data; }
  }

  /** A plain address is read back exactly when its bytes are an IPv4 address, or another
      family's address in whole words; the bound is that of an attribute. */
  lemma RawAddrRoundTrip(types: uint16, h: Host)
    requires h.family < 0x100 && |h.ip| <= 0xfff8
    ensures RawAddr(NewAttribute(types, EncodeRawAddr(h))) == Some(h) <==>
              if h.family == FAMILY_IPV4 then |h.ip| == 4 else |h.ip| >= 4 && |h.ip| % 4 == 0
  {
    var a := NewAttribute(types, EncodeRawAddr(h));
    NewAttributeIsWellFormed(types, EncodeRawAddr(h));
    if PlainSize(h) { RawAddrBack(types, h); }
    if RawAddr(a).Some? { RawAddrSize(a); }
  }

  // ---------------------------------------------------------------- XOR addresses

  function Mask(data: seq<byte>, transId: seq<byte>): (masked: seq<byte>)
    requires |data| <= |transId|
    ensures |masked| == |data|
  {
    seq(|data|, i requires 0 <= i < |data| => XorByte(data[i], transId[i]))
  }

  /** What xorAddr computes: the address bytes unmasked into 16 bytes, cut to 4 for IPv4. */
  function XorAddrOf(a: Attribute, transId: seq<byte>): Option<Host>
    requires |transId| == 16
  {
    if |a.value| < 8 || |a.value| > 20 then None
    else
      var ip := Mask(a.value[4..], transId) + Zeros(20 - |a.value|);
      var family := a.value[1];
      Some(Host(family, if family == FAMILY_IPV4 then ip[..4] else ip,
                XorU16(ToU16(a.value[2..4]), ToU16(transId[..2]))))
  }

  /** The loop of xorAddr, which fills a 16-byte buffer in place. */
  method Unmask(value: seq<byte>, transId: seq<byte>) returns (xorIp: array<byte>)
    requires 4 <= |value| <= 20 && |transId| == 16
    ensures fresh(xorIp) && xorIp[..] == Mask(value[4..], transId) + Zeros(20 - |value|)
  {
    xorIp := new byte[16](_ => 0);
    for i := 0 to |value| - 4
      invariant forall k :: 0 <= k < i ==> xorIp[k] == XorByte(value[k + 4], transId[k])
      invariant forall k :: i <= k < 16 ==> xorIp[k] == 0
    {
      xorIp[i] := XorByte(value[i + 4], transId[i]);
    }
  }

  method XorAddr(a: Attribute, transId: seq<byte>) returns (host: Option<Host>)
    requires |transId| == 16
    ensures host == XorAddrOf(a, transId)
  {
    if |a.value| < 8 || |a.value| > 20 {
      return None;
    }
    var xorIp := Unmask(a.value, transId);
    var family := a.value[1];
    var port := ToU16(a.value[2..4]);
    var x := ToU16(transId[..2]);
    var ip := xorIp[..];
    if family == FAMILY_IPV4 {
      ip := ip[..4];
    }
    return Some(Host(family, ip, XorU16(port, x)));
  }

  method GetXorAddr(attributes: seq<Attribute>, transId: seq<byte>, types: uint16) returns (host: Option<Host>)
    requires |transId| == 16
    ensures host == var first := FirstOf(attributes, types);
                    if first.None? then None else XorAddrOf(first.value, transId)
  {
    for i := 0 to |attributes|
      invariant forall k :: 0 <= k < i ==> attributes[k].types != types
    {
      FirstAt(attributes, types, i);
      if attributes[i].types == types {
        host := XorAddr(attributes[i], transId);
        return;
      }
    }
    FirstAt(attributes, types, |attributes|);
    return None;
  }

  /** getXorMappedAddr: the standard attribute first, then the experimental one. */
  method GetXorMappedAddr(attributes: seq<Attribute>, transId: seq<byte>) returns (host: Option<Host>)
    requires |transId| == 16
    ensures var first := FirstOf(attributes, XOR_MAPPED_ADDRESS);
            first.Some? && XorAddrOf(first.value, transId).Some? ==> host == XorAddrOf(first.value, transId)
    ensures var first := FirstOf(attributes, XOR_MAPPED_ADDRESS);
            var second := FirstOf(attributes, XOR_MAPPED_ADDRESS_EXP);
            first.None? || XorAddrOf(first.value, transId).None? ==>
              host == if second.None? then None else XorAddrOf(second.value, transId)
  {
    host := GetXorAddr(attributes, transId, XOR_MAPPED_ADDRESS);
    if host.None? {
      host := GetXorAddr(attributes, transId, XOR_MAPPED_ADDRESS_EXP);
    }
  }

  /** The value a server sends for an address (section 15.2 of RFC 5389). */
  function EncodeXorAddr(h: Host, transId: seq<byte>): seq<byte>
    requires h.family < 0x100 && |h.ip| <= |transId| == 16
  {
    [0, h.family] + U16(XorU16(h.port, ToU16(transId[..2]))) + Mask(h.ip, transId)
  }

  lemma MaskTwice(data: seq<byte>, transId: seq<byte>)
    requires |data| <= |transId|
    ensures Mask(Mask(data, transId), transId) == data
  {
    forall i | 0 <= i < |data| ensures Mask(Mask(data, transId), transId)[i] == data[i] {
      XorByteTwice(data[i], transId[i]);
    }
  }

  predicate XorSize(h: Host) {
    |h.ip| == if h.family == FAMILY_IPV4 then 4 else 16
  }

  /** Whatever is decoded has the size of an address. */
  lemma XorAddrSize(a: Attribute, transId: seq<byte>)
    requires |transId| == 16 && XorAddrOf(a, transId).Some?
    ensures XorSize(XorAddrOf(a, transId).value)
  {
  }

  lemma EncodedXor(h: Host, transId: seq<byte>)
    requires h.family < 0x100 && |h.ip| <= 16 == |transId|
    ensures var data := EncodeXorAddr(h, transId);
            && |data| == 4 + |h.ip| && data[1] == h.family
            && data[2..4] == U16(XorU16(h.port, ToU16(transId[..2]))) && data[4..] == Mask(h.ip, transId)
  {
  }

  lemma XorAddrBack(types: uint16, h: Host, transId: seq<byte>)
    requires h.family < 0x100 && |transId| == 16 && XorSize(h)
    ensures XorAddrOf(NewAttribute(types, EncodeXorAddr(h, transId)), transId) == Some(h)
  {
    var data := EncodeXorAddr(h, transId);
    EncodedXor(h, transId);
    WholeWords(types, data);
    MaskTwice(h.ip, transId);
    XorU16Twice(h.port, ToU16(transId[..2]));
    CutZeros(h.ip, 16 - |h.ip|);
  }

  lemma CutZeros(b: seq<byte>, n: nat)
    ensures (b + Zeros(n))[..|b|] == b
    ensures n == 0 ==> b + Zeros(n) == b
  {
  }

  /** Decoding an XOR-encoded address returns it: exactly for 4 address bytes of the IPv4
      family and 16 of any other. */
  lemma XorAddrRoundTrip(types: uint16, h: Host, transId: seq<byte>)
    requires h.family < 0x100 && |h.ip| <= 16 == |transId|
    ensures XorAddrOf(NewAttribute(types, EncodeXorAddr(h, transId)), transId) == Some(h) <==>
              |h.ip| == if h.family == FAMILY_IPV4 then 4 else 16
  {
    var a := NewAttribute(types, EncodeXorAddr(h, transId));
    if XorSize(h) { XorAddrBack(types, h, transId); }
    if XorAddrOf(a, transId).Some? { XorAddrSize(a, transId); }
  }

  // ---------------------------------------------------------------- error responses

  datatype ServerError = Generic | Coded(code: nat, reason: seq<byte>)

  function ErrorCodeOf(attributes: seq<Attribute>): ServerError
    requires forall a :: a in attributes ==> WellFormed(a)
  {
    var first := FirstOf(attributes, ERROR_CODE);
    FirstIsIn(attributes, ERROR_CODE);
    if first.None? || first.value.length < 4 then Generic
    else
      var a := first.value;
      assert WellFormed(a);
      Coded(a.value[2] as int % 8 * 100 + a.value[3] as int, a.value[4..a.length])
  }

  lemma {:induction false} FirstIsIn(attributes: seq<Attribute>, types: uint16)
    ensures FirstOf(attributes, types).Some? ==>
              FirstOf(attributes, types).value in attributes && FirstOf(attributes, types).value.types == types
  {
    if attributes != [] { FirstIsIn(attributes[1..], types); }
  }

  /** errorCode: only the first ERROR-CODE attribute counts, even when it is too short. */
  method ErrorCode(attributes: seq<Attribute>) returns (error: ServerError)
    requires forall a :: a in attributes ==> WellFormed(a)
    ensures error == ErrorCodeOf(attributes)
  {
    FirstIsIn(attributes, ERROR_CODE);
    for i := 0 to |attributes|
      invariant forall k :: 0 <= k < i ==> attributes[k].types != ERROR_CODE
    {
      FirstAt(attributes, ERROR_CODE, i);
      var a := attributes[i];
      if a.types != ERROR_CODE {
        continue;
      }
      if a.length < 4 {
        return Generic;
      }
      return Coded(a.value[2] as int % 8 * 100 + a.value[3] as int, a.value[4..a.length]);
    }
    FirstAt(attributes, ERROR_CODE, |attributes|);
    return Generic;
  }

  /** A server's code and reason phrase are read back from whatever surrounds them, the
      padding cut off. */
  lemma ErrorCodeRoundTrip(before: seq<Attribute>, code: nat, reason: seq<byte>, after: seq<Attribute>)
    requires code < 800 && |reason| <= 0xfff8
    requires forall a :: a in before || a in after ==> WellFormed(a)
    requires forall a :: a in before ==> a.types != ERROR_CODE
    ensures var a := NewAttribute(ERROR_CODE, [0, 0, code / 100, code % 100] + reason);
            (forall x :: x in before + [a] + after ==> WellFormed(x)) &&
            ErrorCodeOf(before + [a] + after) == Coded(code, reason)
  {
    var data := [0, 0, code / 100, code % 100] + reason;
    var a := NewAttribute(ERROR_CODE, data);
    NewAttributeIsWellFormed(ERROR_CODE, data);
    var attributes := before + [a] + after;
    FirstAt(attributes, ERROR_CODE, |before|);
    assert attributes[|before|] == a;
    ErrorValue(code, reason);
  }

  /** The value of an ERROR-CODE attribute. */
  lemma ErrorValue(code: nat, reason: seq<byte>)
    requires code < 800 && |reason| <= 0xfff8
    ensures var a := NewAttribute(ERROR_CODE, [0, 0, code / 100, code % 100] + reason);
            && |a.value| >= 4 && 4 <= a.length <= |a.value|
            && a.value[2] as int % 8 * 100 + a.value[3] as int == code && a.value[4..a.length] == reason
  {
    var data := [0, 0, code / 100, code % 100] + reason;
    NewAttributeIsWellFormed(ERROR_CODE, data);
    var a := NewAttribute(ERROR_CODE, data);
    assert a.value[..|data|] == data && a.length == |data|;
    assert a.value[2] == data[2] && a.value[3] == data[3] && a.value[4..|data|] == data[4..] == reason;
  }

  // ---------------------------------------------------------------- bit by bit

  /** What is decoded, bit by bit: the port against the first two bytes of the magic cookie and the
      address against the transaction id, byte by byte. */
  lemma DecodedBits(a: Attribute, transId: seq<byte>, i: nat, k: nat)
    requires |transId| == 16 && XorAddrOf(a, transId).Some? && k < 16
    ensures var h := XorAddrOf(a, transId).value;
            && h.family == a.value[1]
            && (Bit(h.port, k) == 1 <==> Bit(ToU16(a.value[2..4]), k) != Bit(ToU16(transId[..2]), k))
            && (i < |h.ip| && i + 4 < |a.value| && k < 8 ==>
                  (Bit(h.ip[i], k) == 1 <==> Bit(a.value[i + 4], k) != Bit(transId[i], k)))
  {
    var h := XorAddrOf(a, transId).value;
    XorBit(ToU16(a.value[2..4]), ToU16(transId[..2]), 16, k);
    if i < |h.ip| && i + 4 < |a.value| && k < 8 {
      XorBit(a.value[i + 4], transId[i], 8, k);
      assert h.ip[i] == XorByte(a.value[i + 4], transId[i]);
    }
  }

  /** The transaction id of a request begins with the magic cookie, so the port is masked with
      0x2112. */
  lemma PortMask(random: seq<byte>)
    ensures |U32(MAGIC_COOKIE) + random| >= 2 && ToU16((U32(MAGIC_COOKIE) + random)[..2]) == 0x2112
  {
    CookieBytes();
    assert (U32(MAGIC_COOKIE) + random)[..2] == [0x21, 0x12];
  }
}
