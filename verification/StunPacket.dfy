/** The STUN message format of libcore/stun/packet.go, attribute.go and utils.go
    (sections 6 and 15 of RFC 5389). */
module StunPacket {
  import opened Bytes
  import opened Common

  const MAGIC_COOKIE: uint32 := 0x2112A442
  const FINGERPRINT_XOR: uint32 := 0x5354554e
  const FAMILY_IPV4 := 0x01

  const CHANGE_REQUEST: uint16 := 0x0003
  const ERROR_CODE: uint16 := 0x0009
  const SOFTWARE: uint16 := 0x8022
  const FINGERPRINT: uint16 := 0x8028

  const BINDING_REQUEST: uint16 := 0x0001
  const BINDING_RESPONSE: uint16 := 0x0101
  const BINDING_ERROR_RESPONSE: uint16 := 0x0111

  /** The smallest multiple of 4 from n on, in 16-bit arithmetic: it wraps to 0 from 65533 on. */
  function Align(n: uint16): (a: uint16)
    ensures a % 4 == 0
    ensures n <= 0xfffc ==> n <= a < n + 4
    ensures n > 0xfffc ==> a == 0
  {
    ((n as int + 3) % 0x1_0000) / 4 * 4
  }

  datatype Attribute = Attribute(types: uint16, length: uint16, value: seq<byte>)

  /** A copy of b in a zeroed buffer of the aligned length; the length is taken modulo 2^16. */
  function Padding(b: seq<byte>): (padded: seq<byte>)
    ensures |padded| == Align(|b| % 0x1_0000)
    ensures |b| <= 0xfffc ==> padded[..|b|] == b && forall i :: |b| <= i < |padded| ==> padded[i] == 0
  {
    var size := Align(|b| % 0x1_0000);
    var copied := if |b| < size then |b| else size;
    b[..copied] + Zeros(size - copied)
  }

  function NewAttribute(types: uint16, value: seq<byte>): Attribute {
    Attribute(types, |value| % 0x1_0000, Padding(value))
  }

  /** The bytes of one attribute: its 4-byte header and its stored value. */
  function AttributeBytes(a: Attribute): (b: seq<byte>)
    ensures |b| == 4 + |a.value|
  {
    U16(a.types) + U16(a.length) + a.value
  }

  function Body(attributes: seq<Attribute>): seq<byte> {
    if attributes == [] then [] else AttributeBytes(attributes[0]) + Body(attributes[1..])
  }

  function Serialize(types: uint16, length: uint16, transId: seq<byte>, attributes: seq<Attribute>): seq<byte> {
    U16(types) + U16(length) + transId + Body(attributes)
  }

  lemma {:induction false} BodyAppend(a: seq<Attribute>, b: seq<Attribute>)
    ensures Body(a + b) == Body(a) + Body(b)
  {
    if a == [] {
      assert a + b == b;
    } else {
      assert (a + b)[0] == a[0] && (a + b)[1..] == a[1..] + b;
      BodyAppend(a[1..], b);
    }
  }

  // ---------------------------------------------------------------- parsing

  datatype ParseError = TooShort | TooLong | CookieMismatch | NotABindingResponse | LengthMismatch | FormatMismatch

  datatype Parsed =
    | Message(types: uint16, length: uint16, transId: seq<byte>, attributes: seq<Attribute>)
    | Malformed(error: ParseError)

  function LengthAt(body: seq<byte>, pos: nat): uint16
    requires pos + 4 <= |body|
  {
    ToU16(body[pos + 2..pos + 4])
  }

  function AttributeAt(body: seq<byte>, pos: nat): Attribute
    requires pos + 4 <= |body| && pos + 4 + LengthAt(body, pos) <= |body|
  {
    NewAttribute(ToU16(body[pos..pos + 2]), body[pos + 4..pos + 4 + LengthAt(body, pos)])
  }

  /** The attributes of a message body from `pos` on, or None when one runs over the end. */
  function ParseAttributes(body: seq<byte>, pos: nat): Option<seq<Attribute>>
    decreases |body| - pos
  {
    if pos + 4 > |body| then Some([])
    else if pos + 4 + LengthAt(body, pos) > |body| then None
    else
      var rest := ParseAttributes(body, pos + Align(LengthAt(body, pos)) + 4);
      if rest.None? then None else Some([AttributeAt(body, pos)] + rest.value)
  }

  /** The length field after adding the attributes one by one to `start`. */
  function Lengthened(start: uint16, attributes: seq<Attribute>): uint16
    decreases |attributes|
  {
    if attributes == [] then start
    else Lengthened((start + Align(attributes[0].length) + 4) % 0x1_0000, attributes[1..])
  }

  function Parse(data: seq<byte>): Parsed {
    if |data| < 20 then Malformed(TooShort)
    else if |data| > 0xffff + 20 then Malformed(TooLong)
    else
      var types, length := ToU16(data[0..2]), ToU16(data[2..4]);
      if ToU32(data[4..8]) != MAGIC_COOKIE then Malformed(CookieMismatch)
      else if types != BINDING_RESPONSE && types != BINDING_ERROR_RESPONSE then Malformed(NotABindingResponse)
      else if length > |data| - 20 then Malformed(LengthMismatch)
      else
        var attributes := ParseAttributes(data[20..20 + length], 0);
        if attributes.None? then Malformed(FormatMismatch)
        else Message(types, Lengthened(length, attributes.value), data[4..20], attributes.value)
  }

  /** Which datagrams are accepted at all: a binding response or error response with the magic
      cookie whose attributes the header delimits. */
  lemma AcceptedIff(data: seq<byte>)
    ensures Parse(data).Message? <==>
              && 20 <= |data| <= 0x1_0013 && data[4..8] == [0x21, 0x12, 0xA4, 0x42]
              && (data[0..2] == [0x01, 0x01] || data[0..2] == [0x01, 0x11])
              && 20 + ToU16(data[2..4]) <= |data|
              && ParseAttributes(data[20..20 + ToU16(data[2..4])], 0).Some?
    ensures Parse(data).Message? ==> Parse(data).transId == data[4..20] && Parse(data).types == ToU16(data[0..2])
  {
    CookieBytes();
    if |data| >= 20 {
      SameNumber(data[0..2], [0x01, 0x01]);
      SameNumber(data[0..2], [0x01, 0x11]);
      SameCookie(data[4..8]);
    }
  }

  lemma SameNumber(a: seq<byte>, b: seq<byte>)
    requires |a| == |b| == 2
    ensures a == b <==> ToU16(a) == ToU16(b)
  {
    if ToU16(a) == ToU16(b) { assert a == [a[0], a[1]] && b == [b[0], b[1]]; }
  }

  lemma SameCookie(a: seq<byte>)
    requires |a| == 4
    ensures a == [0x21, 0x12, 0xA4, 0x42] <==> ToU32(a) == MAGIC_COOKIE
  {
    SameNumber(a[..2], [0x21, 0x12]);
    SameNumber(a[2..], [0xA4, 0x42]);
    assert a == a[..2] + a[2..];
  }

  /** An attribute as newAttribute builds it from a value of at most 65532 bytes. */
  predicate WellFormed(a: Attribute) {
    && a.length <= 0xfffc
    && |a.value| == Align(a.length)
    && forall i :: a.length <= i < |a.value| ==> a.value[i] == 0
  }

  lemma NewAttributeIsWellFormed(types: uint16, value: seq<byte>)
    requires |value| <= 0xfffc
    ensures WellFormed(NewAttribute(types, value))
    ensures NewAttribute(types, value).value[..|value|] == value
  {
    SmallModulo(|value|);
    var padded := Padding(value);
    assert padded[..|value|] == value && forall i :: |value| <= i < |padded| ==> padded[i] == 0;
  }

  lemma WellFormedIsNewAttribute(a: Attribute)
    requires WellFormed(a)
    ensures NewAttribute(a.types, a.value[..a.length]) == a
  {
    var copy := NewAttribute(a.types, a.value[..a.length]);
    assert a.value == a.value[..a.length] + a.value[a.length..];
    assert copy.value == copy.value[..a.length] + copy.value[a.length..];
    assert copy.value[a.length..] == a.value[a.length..];
  }

  lemma ReadBack(before: seq<byte>, a: Attribute, after: seq<byte>)
    requires WellFormed(a)
    ensures var body, pos := before + AttributeBytes(a) + after, |before|;
            && pos + 4 + |a.value| <= |body|
            && LengthAt(body, pos) == a.length
            && AttributeAt(body, pos) == a
  {
    var body, pos := before + AttributeBytes(a) + after, |before|;
    assert body == before + U16(a.types) + U16(a.length) + a.value + after;
    assert body[pos..pos + 2] == U16(a.types);
    assert body[pos + 2..pos + 4] == U16(a.length);
    assert body[pos + 4..pos + 4 + a.length] == a.value[..a.length];
    WellFormedIsNewAttribute(a);
  }

  lemma ParseOne(before: seq<byte>, a: Attribute, after: seq<byte>, rest: seq<Attribute>)
    requires WellFormed(a)
    requires ParseAttributes(before + AttributeBytes(a) + after, |before + AttributeBytes(a)|) == Some(rest)
    ensures ParseAttributes(before + AttributeBytes(a) + after, |before|) == Some([a] + rest)
  {
    ReadBack(before, a, after);
    assert |before + AttributeBytes(a)| == |before| + Align(a.length) + 4;
  }

  lemma BodyOne(a: Attribute)
    ensures Body([a]) == AttributeBytes(a)
  {
    assert Body([a]) == AttributeBytes(a) + Body([]);
  }

  lemma BodyFirst(before: seq<byte>, attributes: seq<Attribute>)
    requires attributes != []
    ensures before + Body(attributes) ==
            (before + AttributeBytes(attributes[0])) + Body(attributes[1..])
  {
  }

  /** Parsing the printed attributes gives them back, from any point between two of them. */
  lemma {:induction false} ParseBody(before: seq<byte>, rest: seq<Attribute>, body: seq<byte>)
    requires forall a :: a in rest ==> WellFormed(a)
    requires body == before + Body(rest)
    ensures ParseAttributes(body, |before|) == Some(rest)
    decreases |rest|
  {
    if rest != [] {
      BodyFirst(before, rest);
      ParseBody(before + AttributeBytes(rest[0]), rest[1..], body);
      ParseOne(before, rest[0], Body(rest[1..]), rest[1..]);
      assert rest == [rest[0]] + rest[1..];
    }
  }

  /** Where the parts of a printed message are. */
  lemma SerializedParts(types: uint16, length: uint16, transId: seq<byte>, attributes: seq<Attribute>,
                        garbage: seq<byte>)
    requires |transId| == 16 && |Body(attributes)| == length
    ensures var data := Serialize(types, length, transId, attributes) + garbage;
            && |data| == 20 + length + |garbage|
            && data[0..2] == U16(types) && data[2..4] == U16(length)
            && data[4..20] == transId && data[4..8] == transId[..4] && data[20..20 + length] == Body(attributes)
  {
  }

  lemma ParseParts(data: seq<byte>, types: uint16, length: uint16, transId: seq<byte>, attributes: seq<Attribute>)
    requires types in {BINDING_RESPONSE, BINDING_ERROR_RESPONSE}
    requires 20 + length <= |data| <= 0xffff + 20 && data[0..2] == U16(types) && data[2..4] == U16(length)
    requires data[4..20] == transId && ToU32(data[4..8]) == MAGIC_COOKIE
    requires ParseAttributes(data[20..20 + length], 0) == Some(attributes)
    ensures Parse(data) == Message(types, Lengthened(length, attributes), transId, attributes)
  {
  }

  /** Round trip: a binding response whose body fits its length field is parsed back to its
      type, transaction id and attributes, whatever garbage follows it. */
  lemma ParseSerialize(types: uint16, length: uint16, transId: seq<byte>, attributes: seq<Attribute>,
                       garbage: seq<byte>)
    requires types in {BINDING_RESPONSE, BINDING_ERROR_RESPONSE}
    requires |transId| == 16 && ToU32(transId[..4]) == MAGIC_COOKIE
    requires forall a :: a in attributes ==> WellFormed(a)
    requires |Body(attributes)| == length && length + |garbage| <= 0xffff
    ensures Parse(Serialize(types, length, transId, attributes) + garbage) ==
            Message(types, Lengthened(length, attributes), transId, attributes)
  {
    var data := Serialize(types, length, transId, attributes) + garbage;
    SerializedParts(types, length, transId, attributes, garbage);
    assert [] + Body(attributes) == Body(attributes);
    ParseBody([], attributes, data[20..20 + length]);
    ParseParts(data, types, length, transId, attributes);
  }

  /** Every attribute of an accepted message is stored padded to its aligned length, so the
      readers below stay inside the value; align never wraps on it. */
  lemma {:induction false} ParsedAreWellFormed(body: seq<byte>, pos: nat)
    requires |body| <= 0xffff && ParseAttributes(body, pos).Some?
    ensures forall a :: a in ParseAttributes(body, pos).value ==> WellFormed(a)
    decreases |body| - pos
  {
    if pos + 4 <= |body| {
      var next := pos + Align(LengthAt(body, pos)) + 4;
      ParsedAreWellFormed(body, next);
      NewAttributeIsWellFormed(ToU16(body[pos..pos + 2]), body[pos + 4..pos + 4 + LengthAt(body, pos)]);
    }
  }

  lemma SumModulo(m: nat, n: nat)
    ensures (m % 0x1_0000 + n) % 0x1_0000 == (m + n) % 0x1_0000
  {
  }

  /** The 16-bit length field after any additions is the size of the body, modulo 2^16. */
  lemma {:induction false} LengthenedByBody(start: uint16, attributes: seq<Attribute>)
    requires forall a :: a in attributes ==> |a.value| == Align(a.length)
    ensures Lengthened(start, attributes) == (start + |Body(attributes)|) % 0x1_0000
    decreases |attributes|
  {
    if attributes != [] {
      var n, rest := |AttributeBytes(attributes[0])|, attributes[1..];
      LengthenedByBody((start + n) % 0x1_0000, rest);
      SumModulo(start + n, |Body(rest)|);
      assert |Body(attributes)| == n + |Body(rest)|;
    }
  }

  lemma UnchangedModulo(start: uint16, n: nat)
    ensures (start + n) % 0x1_0000 == start <==> n % 0x1_0000 == 0
  {
  }

  /** Where the walk over the attributes of a received body ends, by their length fields alone. */
  function Walk(body: seq<byte>, pos: nat): (end: nat)
    ensures end >= pos
    decreases |body| - pos
  {
    if pos + 4 > |body| then pos else Walk(body, pos + Align(LengthAt(body, pos)) + 4)
  }

  /** The walk ends at a multiple of 4, less than 4 bytes before or after the end of the body. */
  lemma {:induction false} WalkEnds(body: seq<byte>, pos: nat)
    requires |body| <= 0xffff && ParseAttributes(body, pos).Some? && pos % 4 == 0 && pos < |body| + 4
    ensures var end := Walk(body, pos); end % 4 == 0 && |body| < end + 4 && end < |body| + 4
    decreases |body| - pos
  {
    if pos + 4 <= |body| {
      var length := LengthAt(body, pos);
      AlignStep(pos, length, |body|);
      WalkEnds(body, pos + Align(length) + 4);
    }
  }

  lemma AlignStep(pos: nat, length: uint16, size: nat)
    requires pos % 4 == 0 && pos + 4 + length <= size <= 0xffff
    ensures (pos + Align(length) + 4) % 4 == 0 && pos + Align(length) + 4 < size + 4
  {
  }

  lemma BodyWith(a: Attribute, rest: seq<Attribute>)
    ensures |Body([a] + rest)| == 4 + |a.value| + |Body(rest)|
  {
    assert ([a] + rest)[0] == a && ([a] + rest)[1..] == rest;
  }

  lemma StoredSize(body: seq<byte>, pos: nat)
    requires pos + 4 <= |body| && pos + 4 + LengthAt(body, pos) <= |body|
    ensures |AttributeAt(body, pos).value| == Align(LengthAt(body, pos))
  {
  }

  /** The stored attributes take the bytes walked over. */
  lemma {:induction false} WalkedBody(body: seq<byte>, pos: nat)
    requires ParseAttributes(body, pos).Some?
    ensures |Body(ParseAttributes(body, pos).value)| == Walk(body, pos) - pos
    decreases |body| - pos
  {
    if pos + 4 <= |body| {
      var next := pos + Align(LengthAt(body, pos)) + 4;
      WalkedBody(body, next);
      StoredSize(body, pos);
      BodyWith(AttributeAt(body, pos), ParseAttributes(body, next).value);
    }
  }

  /** The body of a message, as its header delimits it. */
  function ReceivedBody(data: seq<byte>): seq<byte>
    requires Parse(data).Message?
  {
    data[20..20 + ToU16(data[2..4])]
  }

  lemma WholeWalk(data: seq<byte>)
    requires Parse(data).Message?
    ensures var length, end := ToU16(data[2..4]), Walk(ReceivedBody(data), 0);
            && |Body(Parse(data).attributes)| == end
            && end % 4 == 0 && length < end + 4 && end < length + 4 && (length < 4 <==> end == 0)
  {
    var body := ReceivedBody(data);
    WalkEnds(body, 0);
    WalkedBody(body, 0);
    assert |body| == ToU16(data[2..4]);
  }

  lemma CountedTwice(data: seq<byte>)
    requires Parse(data).Message?
    ensures Parse(data).length == (ToU16(data[2..4]) + |Body(Parse(data).attributes)|) % 0x1_0000
  {
    ParsedAreWellFormed(ReceivedBody(data), 0);
    LengthenedByBody(ToU16(data[2..4]), Parse(data).attributes);
  }

  lemma SameAfterAdding(length: uint16, end: nat)
    requires end % 4 == 0 && length < end + 4 && end < length + 4 && (length < 4 <==> end == 0)
    ensures (length + end) % 0x1_0000 == length <==> length < 4 || (length > 0xfffc && end == 0x1_0000)
  {
    UnchangedModulo(length, end);
  }

  /** A parsed packet's length field starts from the received one and then counts the attributes
      again. It is the received length exactly when that is below 4, so that there is no attribute,
      or when it is one of the three largest and the last attribute ends, padded, at 2^16. */
  lemma ParsedLength(data: seq<byte>)
    requires Parse(data).Message?
    ensures var length := ToU16(data[2..4]);
            Parse(data).length == length <==>
            length < 4 || (length > 0xfffc && Walk(ReceivedBody(data), 0) == 0x1_0000)
  {
    WholeWalk(data);
    CountedTwice(data);
    SameAfterAdding(ToU16(data[2..4]), Walk(ReceivedBody(data), 0));
  }

  /** The smallest message for which it is not: one empty attribute. */
  lemma ParsedLengthDoubles(transId: seq<byte>, types: uint16)
    requires |transId| == 16 && ToU32(transId[..4]) == MAGIC_COOKIE
    ensures var data := Serialize(BINDING_RESPONSE, 4, transId, [NewAttribute(types, [])]);
            |data| == 24 && Parse(data).Message? && ToU16(data[2..4]) == 4 && Parse(data).length == 8
  {
    var a := NewAttribute(types, []);
    var data := Serialize(BINDING_RESPONSE, 4, transId, [a]);
    BodyOne(a);
    ParseSerialize(BINDING_RESPONSE, 4, transId, [a], []);
    assert data + [] == data && data[2..4] == U16(4);
    LengthenedByBody(4, [a]);
  }

  /** The parts of a binding response. */
  predicate Printable(types: uint16, transId: seq<byte>, attributes: seq<Attribute>) {
    && types in {BINDING_RESPONSE, BINDING_ERROR_RESPONSE}
    && |transId| == 16 && ToU32(transId[..4]) == MAGIC_COOKIE
    && forall a :: a in attributes ==> WellFormed(a)
  }

  lemma AcceptedParts(data: seq<byte>)
    requires Parse(data).Message?
    ensures var m := Parse(data); Printable(m.types, m.transId, m.attributes)
  {
    ParsedAreWellFormed(ReceivedBody(data), 0);
    assert data[4..20][..4] == data[4..8];
  }

  lemma PrintedSize(types: uint16, length: uint16, transId: seq<byte>, attributes: seq<Attribute>)
    ensures |Serialize(types, length, transId, attributes)| == 4 + |transId| + |Body(attributes)|
  {
  }

  lemma TooLongToParse(data: seq<byte>)
    requires |data| > 0xffff + 20
    ensures Parse(data) == Malformed(TooLong)
  {
  }

  /** What comes of printing a message's parts with a correct header and parsing them again: the
      same, unless no header can count the bytes, and then the parser rejects them. */
  predicate Reprints(types: uint16, transId: seq<byte>, attributes: seq<Attribute>) {
    var size := |Body(attributes)|;
    var again := Parse(Serialize(types, size % 0x1_0000, transId, attributes));
    if size < 0x1_0000
    then again == Message(types, Lengthened(size, attributes), transId, attributes)
    else again == Malformed(TooLong)
  }

  lemma FittingReprints(types: uint16, transId: seq<byte>, attributes: seq<Attribute>)
    requires Printable(types, transId, attributes) && |Body(attributes)| < 0x1_0000
    ensures Parse(Serialize(types, |Body(attributes)|, transId, attributes)) ==
            Message(types, Lengthened(|Body(attributes)|, attributes), transId, attributes)
  {
    ParseSerialize(types, |Body(attributes)|, transId, attributes, []);
    var printed := Serialize(types, |Body(attributes)|, transId, attributes);
    assert printed + [] == printed;
  }

  lemma LongReprints(types: uint16, transId: seq<byte>, attributes: seq<Attribute>)
    requires |transId| == 16 && |Body(attributes)| >= 0x1_0000
    ensures Parse(Serialize(types, |Body(attributes)| % 0x1_0000, transId, attributes)) == Malformed(TooLong)
  {
    PrintedSize(types, |Body(attributes)| % 0x1_0000, transId, attributes);
    TooLongToParse(Serialize(types, |Body(attributes)| % 0x1_0000, transId, attributes));
  }

  lemma SmallModulo(n: nat)
    requires n < 0x1_0000
    ensures n % 0x1_0000 == n
  {
  }

  lemma PartsReprint(types: uint16, transId: seq<byte>, attributes: seq<Attribute>)
    requires Printable(types, transId, attributes)
    ensures Reprints(types, transId, attributes)
  {
    if |Body(attributes)| < 0x1_0000 {
      FittingReprints(types, transId, attributes);
      SmallModulo(|Body(attributes)|);
    } else {
      LongReprints(types, transId, attributes);
    }
  }

  /** An accepted message printed with a correct header and parsed again is the same, unless its
      attributes take 2^16 bytes, which happens when the last one ends, padded, there. */
  lemma Reprinted(data: seq<byte>)
    requires Parse(data).Message?
    ensures var m := Parse(data); Reprints(m.types, m.transId, m.attributes)
  {
    var m := Parse(data);
    AcceptedParts(data);
    PartsReprint(m.types, m.transId, m.attributes);
  }

  lemma LastMultiple(length: uint16, end: nat)
    requires end % 4 == 0 && end < length + 4
    ensures end <= 0x1_0000 && (end == 0x1_0000 ==> length > 0xfffc)
  {
  }

  /** That takes one of the three largest lengths. */
  lemma AttributesFit(data: seq<byte>)
    requires Parse(data).Message?
    ensures var size := |Body(Parse(data).attributes)|;
            size <= 0x1_0000 && (size == 0x1_0000 ==> ToU16(data[2..4]) > 0xfffc)
  {
    WholeWalk(data);
    LastMultiple(ToU16(data[2..4]), |Body(Parse(data).attributes)|);
  }

  // ---------------------------------------------------------------- the packet object

  lemma BodyExtend(attributes: seq<Attribute>, a: Attribute)
    ensures Body(attributes + [a]) == Body(attributes) + AttributeBytes(a)
  {
    BodyAppend(attributes, [a]);
    BodyOne(a);
  }

  class Packet {
    var types: uint16
    var length: uint16
    var transId: seq<byte>
    var attributes: seq<Attribute>

    /** newPacket: the magic cookie, 12 random bytes and no attributes. */
    constructor (random: seq<byte>)
      requires |random| == 12
      ensures types == 0 && length == 0 && attributes == []
      ensures transId == U32(MAGIC_COOKIE) + random
    {
      types, length := 0, 0;
      transId := U32(MAGIC_COOKIE) + random;
      attributes := [];
    }

    constructor Received(types: uint16, length: uint16, transId: seq<byte>)
      ensures this.types == types && this.length == length && this.transId == transId && attributes == []
    {
      this.types, this.length, this.transId := types, length, transId;
      attributes := [];
    }

    /** The length field counts the bytes of the attributes, modulo 2^16. */
    ghost predicate LengthMatches()
      reads this
    {
      length == |Body(attributes)| % 0x1_0000
    }

    method AddAttribute(a: Attribute)
      modifies this`attributes, this`length
      ensures attributes == old(attributes) + [a]
      ensures length == (old(length) + Align(a.length) + 4) % 0x1_0000
      ensures old(LengthMatches()) && |a.value| == Align(a.length) ==> LengthMatches()
    {
      attributes := attributes + [a];
      length := (length + Align(a.length) + 4) % 0x1_0000;
      BodyExtend(old(attributes), a);
      if old(LengthMatches()) && |a.value| == Align(a.length) {
        SumModulo(|Body(old(attributes))|, |AttributeBytes(a)|);
      }
    }

    /** bytes: when the length field counts the attributes and they fit, it is the number of
        bytes after the 20-byte header. */
    method ToBytes() returns (packetBytes: seq<byte>)
      ensures packetBytes == Serialize(types, length, transId, attributes)
      ensures |transId| == 16 && LengthMatches() ==> ToU16(packetBytes[2..4]) == (|packetBytes| - 20) % 0x1_0000
    {
      packetBytes := U16(types) + U16(length) + transId;
      ghost var header := packetBytes;
      for i := 0 to |attributes|
        invariant packetBytes == header + Body(attributes[..i])
      {
        var a := attributes[i];
        BodyExtend(attributes[..i], a);
        assert attributes[..i] + [a] == attributes[..i + 1];
        packetBytes := packetBytes + U16(a.types) + U16(a.length) + a.value;
        assert U16(a.types) + U16(a.length) + a.value == AttributeBytes(a);
      }
      assert attributes[..|attributes|] == attributes;
    }
  }

  lemma {:induction false} LengthenedAppend(start: uint16, attributes: seq<Attribute>, a: Attribute)
    ensures Lengthened(start, attributes + [a]) == (Lengthened(start, attributes) + Align(a.length) + 4) % 0x1_0000
    decreases |attributes|
  {
    if attributes == [] {
      assert [] + [a] == [a] && [a][1..] == [];
      assert Lengthened(start, [a]) == Lengthened((start + Align(a.length) + 4) % 0x1_0000, []);
    } else {
      assert (attributes + [a])[1..] == attributes[1..] + [a];
      LengthenedAppend((start + Align(attributes[0].length) + 4) % 0x1_0000, attributes[1..], a);
    }
  }

  /** The attributes `done` and those from `pos` on are all there are. */
  ghost predicate ParsedSoFar(all: Option<seq<Attribute>>, done: seq<Attribute>, body: seq<byte>, pos: nat) {
    var rest := ParseAttributes(body, pos);
    if rest.None? then all.None? else all == Some(done + rest.value)
  }

  lemma ParsedNothing(body: seq<byte>)
    ensures ParsedSoFar(ParseAttributes(body, 0), [], body, 0)
  {
    var rest := ParseAttributes(body, 0);
    if rest.Some? { assert [] + rest.value == rest.value; }
  }

  lemma ParsedOne(all: Option<seq<Attribute>>, done: seq<Attribute>, body: seq<byte>, pos: nat)
    requires pos + 4 <= |body| && ParsedSoFar(all, done, body, pos)
    ensures pos + 4 + LengthAt(body, pos) > |body| ==> all.None?
    ensures pos + 4 + LengthAt(body, pos) <= |body| ==>
              ParsedSoFar(all, done + [AttributeAt(body, pos)], body, pos + Align(LengthAt(body, pos)) + 4)
  {
    if pos + 4 + LengthAt(body, pos) <= |body| {
      var a, rest := AttributeAt(body, pos), ParseAttributes(body, pos + Align(LengthAt(body, pos)) + 4);
      if rest.Some? { assert done + ([a] + rest.value) == (done + [a]) + rest.value; }
    }
  }

  lemma ParsedAll(all: Option<seq<Attribute>>, done: seq<Attribute>, body: seq<byte>, pos: nat)
    requires pos + 4 > |body| && ParsedSoFar(all, done, body, pos)
    ensures all == Some(done)
  {
    assert done + [] == done;
  }

  /** One attribute is added to those read. */
  method AddParsed(pkt: Packet, a: Attribute, ghost start: uint16)
    requires pkt.length == Lengthened(start, pkt.attributes)
    modifies pkt`attributes, pkt`length
    ensures pkt.attributes == old(pkt.attributes) + [a] && pkt.length == Lengthened(start, pkt.attributes)
  {
    LengthenedAppend(start, pkt.attributes, a);
    pkt.AddAttribute(a);
  }

  /** The loop of newPacketFromBytes over the message body. */
  method AddParsedAttributes(pkt: Packet, body: seq<byte>) returns (ok: bool)
    requires pkt.attributes == []
    modifies pkt`attributes, pkt`length
    ensures ok <==> ParseAttributes(body, 0).Some?
    ensures ok ==> pkt.attributes == ParseAttributes(body, 0).value
                   && pkt.length == Lengthened(old(pkt.length), pkt.attributes)
  {
    ghost var all, start := ParseAttributes(body, 0), pkt.length;
    var pos := 0;
    ParsedNothing(body);
    while pos + 4 <= |body|
      invariant pkt.length == Lengthened(start, pkt.attributes)
      invariant ParsedSoFar(all, pkt.attributes, body, pos)
      decreases |body| - pos
    {
      ParsedOne(all, pkt.attributes, body, pos);
      var types := ToU16(body[pos..pos + 2]);
      var length := LengthAt(body, pos);
      var end := pos + 4 + length;
      if end > |body| {
        return false;
      }
      AddParsed(pkt, NewAttribute(types, body[pos + 4..end]), start);
      pos := pos + Align(length) + 4;
    }
    ParsedAll(all, pkt.attributes, body, pos);
    return true;
  }

  /** newPacketFromBytes. */
  method NewPacketFromBytes(data: seq<byte>) returns (pkt: Packet?, error: Option<ParseError>)
    ensures pkt != null ==> fresh(pkt)
    ensures match Parse(data)
            case Malformed(e) => pkt == null && error == Some(e)
            case Message(types, length, transId, attributes) =>
              pkt != null && error == None && pkt.types == types && pkt.length == length &&
              pkt.transId == transId && pkt.attributes == attributes
  {
    if |data| < 20 {
      return null, Some(TooShort);
    }
    if |data| > 0xffff + 20 {
      return null, Some(TooLong);
    }
    pkt := new Packet.Received(ToU16(data[0..2]), ToU16(data[2..4]), data[4..20]);
    if ToU32(data[4..8]) != MAGIC_COOKIE {
      return null, Some(CookieMismatch);
    }
    if pkt.types != BINDING_RESPONSE && pkt.types != BINDING_ERROR_RESPONSE {
      return null, Some(NotABindingResponse);
    }
    var body := data[20..];
    if pkt.length > |body| {
      return null, Some(LengthMismatch);
    }
    body := body[..pkt.length];
    assert body == data[20..20 + ToU16(data[2..4])];
    var ok := AddParsedAttributes(pkt, body);
    if !ok {
      return null, Some(FormatMismatch);
    }
    return pkt, None;
  }
}
