/** The record format of cached rule-sets in libcore/sing-box/adapter/experimental.go. */
module SavedBinary {
  import opened Bytes

  const UINT64 := 0x1_0000_0000_0000_0000
  const INT64 := 0x8000_0000_0000_0000
  const MAX_VARINT_LEN := 10

  type int64 = n: int | -INT64 <= n < INT64

  /** A time; the record keeps whole seconds. */
  datatype Time = Time(seconds: int64, nanos: nat)

  datatype Saved = Saved(content: seq<byte>, lastUpdated: Time, lastEtag: seq<byte>, urlHash: seq<byte>)

  /** What a read gives, and what is left to read. */
  datatype Read<T> = Bad | Good(value: T, rest: seq<byte>)

  // ---------------------------------------------------------------- the format

  /** An unsigned varint: seven bits a byte, the lowest first. */
  function Uvarint(n: nat): (b: seq<byte>)
    ensures b != []
  {
    if n < 0x80 then [n] else [n % 0x80 + 0x80] + Uvarint(n / 0x80)
  }

  /** binary.ReadUvarint after i bytes: at most ten, and 64 bits. */
  function ParseUvarintFrom(data: seq<byte>, i: nat): Read<nat>
    requires i <= MAX_VARINT_LEN
    decreases MAX_VARINT_LEN - i
  {
    if i == MAX_VARINT_LEN || data == [] then Bad
    else if data[0] < 0x80 then (if i == MAX_VARINT_LEN - 1 && data[0] > 1 then Bad else Good(data[0], data[1..]))
    else
      match ParseUvarintFrom(data[1..], i + 1)
      case Bad => Bad
      case Good(high, rest) => Good(data[0] as int - 0x80 + 0x80 * high, rest)
  }

  function ParseUvarint(data: seq<byte>): Read<nat> {
    ParseUvarintFrom(data, 0)
  }

  /** A length and that many bytes. */
  function Block(b: seq<byte>): seq<byte> {
    Uvarint(|b|) + b
  }

  function ParseBlock(data: seq<byte>): Read<seq<byte>> {
    match ParseUvarint(data)
    case Bad => Bad
    case Good(n, rest) => if n > |rest| then Bad else Good(rest[..n], rest[n..])
  }

  /** binary.BigEndian for a signed 64-bit number. */
  function I64(n: int64): (b: seq<byte>)
    ensures |b| == 8
  {
    var u: nat := if n < 0 then n + UINT64 else n;
    U32(u / 0x1_0000_0000) + U32(u % 0x1_0000_0000)
  }

  function ToI64(b: seq<byte>): int64
    requires |b| == 8
  {
    var u: nat := ToU32(b[..4]) * 0x1_0000_0000 + ToU32(b[4..]);
    if u < INT64 then u else u - UINT64
  }

  function ParseI64(data: seq<byte>): Read<int64> {
    if |data| < 8 then Bad else Good(ToI64(data[..8]), data[8..])
  }

  /** MarshalBinary: the version byte and the four parts. */
  function Marshal(s: Saved): seq<byte> {
    [2] + (Block(s.content) + (I64(s.lastUpdated.seconds) + (Block(s.lastEtag) + Block(s.urlHash))))
  }

  /** UnmarshalBinary on a record that was s: what it becomes, and whether there was no error. The
      parts read before an error are kept. */
  function Unmarshal(s: Saved, data: seq<byte>): (Saved, bool) {
    if data == [] then (s, false) else UnmarshalContent(s, data[0], data[1..])
  }

  function UnmarshalContent(s: Saved, version: byte, data: seq<byte>): (Saved, bool) {
    match ParseBlock(data)
    case Bad => (s, false)
    case Good(content, rest) => UnmarshalTime(s.(content := content), version, rest)
  }

  function UnmarshalTime(s: Saved, version: byte, data: seq<byte>): (Saved, bool) {
    match ParseI64(data)
    case Bad => (s, false)
    case Good(seconds, rest) => UnmarshalEtag(s.(lastUpdated := Time(seconds, 0)), version, rest)
  }

  function UnmarshalEtag(s: Saved, version: byte, data: seq<byte>): (Saved, bool) {
    match ParseBlock(data)
    case Bad => (s, false)
    case Good(etag, rest) =>
      if version < 2 then (s.(lastEtag := etag), true) else UnmarshalHash(s.(lastEtag := etag), rest)
  }

  function UnmarshalHash(s: Saved, data: seq<byte>): (Saved, bool) {
    match ParseBlock(data)
    case Bad => (s, false)
    case Good(hash, _) => (s.(urlHash := hash), true)
  }

  // ---------------------------------------------------------------- the code

  /** The value of a varint whose lower bytes gave x, and whose other bytes count in units. */
  function Folded(x: nat, unit: nat, high: Read<nat>): Read<nat> {
    match high
    case Bad => Bad
    case Good(value, rest) => Good(x + unit * value, rest)
  }

  lemma Distribute(unit: nat, low: nat, high: nat)
    ensures unit * (low + 0x80 * high) == low * unit + (unit * 0x80) * high
  {
    assert unit * (0x80 * high) == (unit * 0x80) * high;
  }

  /** x | (b & 0x7f) << s, for a unit of 1 << s. */
  function WithByte(x: nat, unit: nat, b: byte): nat {
    x + (b as int % 0x80) * unit
  }

  /** One more byte, the last or not. */
  lemma ShiftIn(x: nat, unit: nat, data: seq<byte>, i: nat)
    requires i < MAX_VARINT_LEN && data != []
    ensures Folded(x, unit, ParseUvarintFrom(data, i)) ==
            var y := WithByte(x, unit, data[0]);
            if data[0] >= 0x80 then Folded(y, unit * 0x80, ParseUvarintFrom(data[1..], i + 1))
            else if i == MAX_VARINT_LEN - 1 && data[0] > 1 then Bad
            else Good(y, data[1..])
  {
    var next := ParseUvarintFrom(data[1..], i + 1);
    if data[0] >= 0x80 && next.Good? { Distribute(unit, data[0] as int - 0x80, next.value); }
  }

  /** bytes.Reader. */
  class Reader {
    const data: seq<byte>
    var pos: nat

    constructor (data: seq<byte>)
      ensures Valid() && this.data == data && Rest() == data
    {
      this.data, pos := data, 0;
    }

    predicate Valid()
      reads this
    {
      pos <= |data|
    }

    function Rest(): seq<byte>
      requires Valid()
      reads this
    {
      data[pos..]
    }

    method Take(n: nat) returns (b: seq<byte>)
      requires Valid() && n <= |Rest()|
      modifies this
      ensures Valid() && b == old(Rest())[..n] && Rest() == old(Rest())[n..]
    {
      b := data[pos..pos + n];
      pos := pos + n;
    }

    method ReadUvarint() returns (ok: bool, x: nat)
      requires Valid()
      modifies this
      ensures Valid()
      ensures ParseUvarint(old(Rest())) == if ok then Good(x, Rest()) else Bad
    {
      x := 0;
      var unit: nat := 1;
      for i := 0 to MAX_VARINT_LEN
        invariant Valid()
        invariant ParseUvarint(old(Rest())) == Folded(x, unit, ParseUvarintFrom(Rest(), i))
      {
        if pos == |data| {
          return false, x;
        }
        var b := data[pos];
        ShiftIn(x, unit, Rest(), i);
        assert Rest()[1..] == data[pos + 1..];
        pos := pos + 1;
        x := WithByte(x, unit, b);
        if b < 0x80 {
          return i != MAX_VARINT_LEN - 1 || b <= 1, x;
        }
        unit := unit * 0x80;
      }
      return false, x;
    }

    method ReadBlock() returns (ok: bool, b: seq<byte>)
      requires Valid()
      modifies this
      ensures Valid()
      ensures ParseBlock(old(Rest())) == if ok then Good(b, Rest()) else Bad
    {
      b := [];
      var n;
      ok, n := ReadUvarint();
      if !ok || n > |data| - pos {
        return false, b;
      }
      b := Take(n);
    }

    method ReadI64() returns (ok: bool, n: int64)
      requires Valid()
      modifies this
      ensures Valid()
      ensures ParseI64(old(Rest())) == if ok then Good(n, Rest()) else Bad
    {
      if |data| - pos < 8 {
        return false, 0;
      }
      var b := Take(8);
      return true, ToI64(b);
    }
  }

  class SavedBinary {
    var content: seq<byte>
    var lastUpdated: Time
    var lastEtag: seq<byte>
    var urlHash: seq<byte>

    constructor (s: Saved)
      ensures Value() == s
    {
      content, lastUpdated, lastEtag, urlHash := s.content, s.lastUpdated, s.lastEtag, s.urlHash;
    }

    function Value(): Saved
      reads this
    {
      Saved(content, lastUpdated, lastEtag, urlHash)
    }

    method MarshalBinary() returns (buffer: seq<byte>)
      ensures buffer == Marshal(Value())
    {
      buffer := [2];
      buffer := buffer + Uvarint(|content|);
      buffer := buffer + content;
      assert buffer == [2] + Block(content);
      buffer := buffer + I64(lastUpdated.seconds);
      buffer := buffer + Uvarint(|lastEtag|);
      buffer := buffer + lastEtag;
      assert buffer == [2] + (Block(content) + (I64(lastUpdated.seconds) + Block(lastEtag)));
      buffer := buffer + Uvarint(|urlHash|);
      buffer := buffer + urlHash;
      assert buffer == [2] + (Block(content) + (I64(lastUpdated.seconds) + (Block(lastEtag) + Block(urlHash))));
    }

    method UnmarshalBinary(data: seq<byte>) returns (ok: bool)
      modifies this
      ensures (Value(), ok) == Unmarshal(old(Value()), data)
    {
      if data == [] {
        return false;
      }
      var version := data[0];
      var reader := new Reader(data[1..]);
      var b;
      ok, b := reader.ReadBlock();
      if !ok { return; }
      content := b;
      var seconds;
      ok, seconds := reader.ReadI64();
      if !ok { return; }
      lastUpdated := Time(seconds, 0);
      ok, b := reader.ReadBlock();
      if !ok { return; }
      lastEtag := b;
      if version < 2 {
        return true;
      }
      ok, b := reader.ReadBlock();
      if !ok { return; }
      urlHash := b;
    }
  }

  // ---------------------------------------------------------------- round trips

  /** One more than the largest number whose varint fits after i bytes. */
  function Room(i: nat): (room: nat)
    requires i < MAX_VARINT_LEN
    ensures room >= 2 && (i < MAX_VARINT_LEN - 1 ==> room >= 0x80)
    decreases MAX_VARINT_LEN - i
  {
    if i == MAX_VARINT_LEN - 1 then 2 else 0x80 * Room(i + 1)
  }

  lemma RoomForUint64()
    ensures Room(0) == UINT64
  {
    assert Room(7) == 0x80 * 0x80 * 2;
    assert Room(5) == 0x80 * 0x80 * Room(7);
    assert Room(3) == 0x80 * 0x80 * Room(5);
    assert Room(1) == 0x80 * 0x80 * Room(3);
  }

  lemma Halve(n: nat, room: nat)
    requires n < 0x80 * room
    ensures n / 0x80 < room && n == n % 0x80 + 0x80 * (n / 0x80)
  {
  }

  /** One more byte in front of a varint. */
  lemma UvarintStep(data: seq<byte>, low: nat, high: nat, i: nat, rest: seq<byte>)
    requires data != [] && low < 0x80 && data[0] == low + 0x80 && i + 1 < MAX_VARINT_LEN
    requires ParseUvarintFrom(data[1..], i + 1) == Good(high, rest)
    ensures ParseUvarintFrom(data, i) == Good(low + 0x80 * high, rest)
  {
  }

  lemma {:induction false} UvarintBack(n: nat, i: nat, rest: seq<byte>)
    requires i < MAX_VARINT_LEN && n < Room(i)
    ensures ParseUvarintFrom(Uvarint(n) + rest, i) == Good(n, rest)
    decreases MAX_VARINT_LEN - i
  {
    if n < 0x80 {
      assert ([n] + rest)[1..] == rest;
    } else {
      Halve(n, Room(i + 1));
      UvarintBack(n / 0x80, i + 1, rest);
      assert (Uvarint(n) + rest)[1..] == Uvarint(n / 0x80) + rest;
      UvarintStep(Uvarint(n) + rest, n % 0x80, n / 0x80, i, rest);
    }
  }

  lemma {:induction false} UvarintCut(n: nat, i: nat, p: seq<byte>)
    requires i < MAX_VARINT_LEN && p < Uvarint(n)
    ensures ParseUvarintFrom(p, i) == Bad
    decreases n
  {
    if p != [] {
      assert n >= 0x80;
      assert Uvarint(n)[1..] == Uvarint(n / 0x80);
      assert p[1..] < Uvarint(n / 0x80);
      if i + 1 < MAX_VARINT_LEN { UvarintCut(n / 0x80, i + 1, p[1..]); }
    }
  }

  /** A strict beginning of two parts ends in the first or in the second. */
  lemma CutInTwo(a: seq<byte>, b: seq<byte>, p: seq<byte>) returns (q: seq<byte>)
    requires p < a + b
    ensures p < a || (p == a + q && q < b)
  {
    if |p| >= |a| {
      q := p[|a|..];
      assert p[..|a|] == (a + b)[..|a|] == a;
      assert (a + b)[..|p|] == a + b[..|q|];
    } else {
      q := [];
      assert (a + b)[..|p|] == a[..|p|];
    }
  }

  lemma BlockBack(b: seq<byte>, rest: seq<byte>)
    requires |b| < UINT64
    ensures ParseBlock(Block(b) + rest) == Good(b, rest)
  {
    RoomForUint64();
    UvarintBack(|b|, 0, b + rest);
    assert Block(b) + rest == Uvarint(|b|) + (b + rest);
  }

  lemma BlockCut(b: seq<byte>, p: seq<byte>)
    requires |b| < UINT64 && p < Block(b)
    ensures ParseBlock(p) == Bad
  {
    var q := CutInTwo(Uvarint(|b|), b, p);
    if p < Uvarint(|b|) {
      UvarintCut(|b|, 0, p);
    } else {
      RoomForUint64();
      UvarintBack(|b|, 0, q);
    }
  }

  lemma HalvesBack(u: nat)
    requires u < UINT64
    ensures ToU32(U32(u / 0x1_0000_0000)) * 0x1_0000_0000 + ToU32(U32(u % 0x1_0000_0000)) == u
  {
  }

  lemma I64Back(n: int64, rest: seq<byte>)
    ensures ParseI64(I64(n) + rest) == Good(n, rest)
  {
    var u: nat := if n < 0 then n + UINT64 else n;
    HalvesBack(u);
    var b := I64(n);
    assert b[..4] == U32(u / 0x1_0000_0000) && b[4..] == U32(u % 0x1_0000_0000);
    assert (b + rest)[..8] == b && (b + rest)[8..] == rest;
  }

  /** Lengths are 64-bit numbers. */
  predicate Fits(s: Saved) {
    |s.content| < UINT64 && |s.lastEtag| < UINT64 && |s.urlHash| < UINT64
  }

  /** A record read back, whatever follows it and whatever the receiver held, is the one written,
      with its time cut to whole seconds. */
  lemma MarshalBack(s: Saved, receiver: Saved, rest: seq<byte>)
    requires Fits(s)
    ensures Marshal(s) != [] && Marshal(s)[0] == 2
    ensures Unmarshal(receiver, Marshal(s) + rest) == (s.(lastUpdated := Time(s.lastUpdated.seconds, 0)), true)
  {
    var c, t, e, h := Block(s.content), I64(s.lastUpdated.seconds), Block(s.lastEtag), Block(s.urlHash);
    var data := Marshal(s) + rest;
    assert data[1..] == c + (t + (e + (h + rest)));
    BlockBack(s.content, t + (e + (h + rest)));
    I64Back(s.lastUpdated.seconds, e + (h + rest));
    BlockBack(s.lastEtag, h + rest);
    BlockBack(s.urlHash, rest);
  }

  /** What the receiver holds after n bytes of the parts of s: those that were whole. */
  function Kept(s: Saved, receiver: Saved, n: nat): Saved {
    var content := |Block(s.content)|;
    var etag := content + 8 + |Block(s.lastEtag)|;
    if n < content then receiver
    else if n < content + 8 then receiver.(content := s.content)
    else if n < etag then receiver.(content := s.content, lastUpdated := Time(s.lastUpdated.seconds, 0))
    else Saved(s.content, Time(s.lastUpdated.seconds, 0), s.lastEtag, receiver.urlHash)
  }

  /** A record cut short anywhere is rejected, and the parts before the cut are kept. */
  lemma CutRecordIsRejected(s: Saved, receiver: Saved, p: seq<byte>)
    requires Fits(s) && p < Marshal(s)
    ensures !Unmarshal(receiver, p).1
    ensures Unmarshal(receiver, p).0 == if p == [] then receiver else Kept(s, receiver, |p| - 1)
  {
    var c, t, e, h := Block(s.content), I64(s.lastUpdated.seconds), Block(s.lastEtag), Block(s.urlHash);
    if p != [] {
      assert p[1..] < c + (t + (e + h)) by { assert Marshal(s)[1..] == c + (t + (e + h)); }
      CutContent(s, receiver, p[1..]);
    }
  }

  lemma CutContent(s: Saved, receiver: Saved, p: seq<byte>)
    requires Fits(s)
    requires p < Block(s.content) + (I64(s.lastUpdated.seconds) + (Block(s.lastEtag) + Block(s.urlHash)))
    ensures UnmarshalContent(receiver, 2, p) == (Kept(s, receiver, |p|), false)
  {
    var t, e, h := I64(s.lastUpdated.seconds), Block(s.lastEtag), Block(s.urlHash);
    var q := CutInTwo(Block(s.content), t + (e + h), p);
    if p < Block(s.content) {
      BlockCut(s.content, p);
    } else {
      BlockBack(s.content, q);
      var r := CutInTwo(t, e + h, q);
      if !(q < t) {
        I64Back(s.lastUpdated.seconds, r);
        CutTail(s, receiver.(content := s.content, lastUpdated := Time(s.lastUpdated.seconds, 0)), r);
      }
    }
  }

  lemma CutTail(s: Saved, receiver: Saved, p: seq<byte>)
    requires Fits(s) && p < Block(s.lastEtag) + Block(s.urlHash)
    ensures UnmarshalEtag(receiver, 2, p) ==
            (if |p| < |Block(s.lastEtag)| then receiver else receiver.(lastEtag := s.lastEtag), false)
  {
    var q := CutInTwo(Block(s.lastEtag), Block(s.urlHash), p);
    if p < Block(s.lastEtag) {
      BlockCut(s.lastEtag, p);
    } else {
      BlockBack(s.lastEtag, q);
      BlockCut(s.urlHash, q);
    }
  }

  /** No record begins another one, unless they differ in the fractions of a second alone. */
  lemma PrefixFree(a: Saved, b: Saved)
    requires Fits(a) && Fits(b) && Marshal(a) <= Marshal(b)
    ensures a.(lastUpdated := Time(a.lastUpdated.seconds, 0)) == b.(lastUpdated := Time(b.lastUpdated.seconds, 0))
  {
    var rest := Marshal(b)[|Marshal(a)|..];
    assert Marshal(a) + rest == Marshal(b) + [];
    MarshalBack(a, a, rest);
    MarshalBack(b, a, []);
  }

  /** Any later version is read like the second. */
  lemma LaterVersionsReadAlike(receiver: Saved, version: byte, data: seq<byte>)
    requires version >= 2
    ensures Unmarshal(receiver, [version] + data) == Unmarshal(receiver, [2] + data)
  {
    assert ([version] + data)[1..] == data && ([2] + data)[1..] == data;
  }

  // ---------------------------------------------------------------- numbers

  /** The bytes of a varint, not necessarily the shortest for its value: all but the last have
      the high bit. */
  predicate IsVarint(b: seq<byte>) {
    b != [] && if |b| == 1 then b[0] < 0x80 else b[0] >= 0x80 && IsVarint(b[1..])
  }

  /** Their value: seven bits a byte, the lowest first. */
  function Septets(b: seq<byte>): nat
    requires IsVarint(b)
  {
    if |b| == 1 then b[0] else b[0] as int % 0x80 + 0x80 * Septets(b[1..])
  }

  lemma {:induction false} VarintFrom(b: seq<byte>, i: nat, rest: seq<byte>)
    requires IsVarint(b) && i < MAX_VARINT_LEN
    ensures ParseUvarintFrom(b + rest, i) ==
            if |b| <= MAX_VARINT_LEN - i && Septets(b) < Room(i) then Good(Septets(b), rest) else Bad
    decreases b
  {
    assert (b + rest)[1..] == b[1..] + rest;
    if |b| == 1 {
      assert b[1..] + rest == rest;
    } else if i + 1 < MAX_VARINT_LEN {
      VarintFrom(b[1..], i + 1, rest);
    }
  }

  /** A varint is read whenever it has at most ten bytes and its value 64 bits. */
  lemma VarintIsRead(b: seq<byte>, rest: seq<byte>)
    requires IsVarint(b)
    ensures ParseUvarint(b + rest) ==
            if |b| <= 10 && Septets(b) < UINT64 then Good(Septets(b), rest) else Bad
  {
    RoomForUint64();
    VarintFrom(b, 0, rest);
  }

  /** Nothing else is: bytes that all have the high bit are no number. */
  lemma {:induction false} EndlessIsBad(data: seq<byte>, i: nat)
    requires i <= MAX_VARINT_LEN && forall k :: 0 <= k < |data| ==> data[k] >= 0x80
    ensures ParseUvarintFrom(data, i) == Bad
    decreases MAX_VARINT_LEN - i
  {
    if i < MAX_VARINT_LEN && data != [] { EndlessIsBad(data[1..], i + 1); }
  }

  lemma FirstByte(high: uint32, low: uint32)
    ensures var b := U32(high) + U32(low); |b| == 8 && (b[0] >= 0x80 <==> high >= 0x8000_0000)
  {
    assert (U32(high) + U32(low))[0] == U16(high / 0x1_0000)[0];
  }

  lemma SignBit(n: int64, u: nat)
    requires u == if n < 0 then n + UINT64 else n
    ensures u / 0x1_0000_0000 >= 0x8000_0000 <==> n < 0
  {
  }

  /** The numbers as they go over the wire: 300 as in the description of the encoding, and a signed
      number with its sign in the first bit and its lowest byte last. */
  lemma NumbersOnTheWire(n: int64)
    ensures Uvarint(300) == [0xac, 0x02]
    ensures I64(1) == [0, 0, 0, 0, 0, 0, 0, 1]
    ensures I64(n)[0] >= 0x80 <==> n < 0
  {
    assert Uvarint(300) == [300 % 0x80 + 0x80] + Uvarint(2);
    assert U32(0) == [0, 0, 0, 0] && U32(1) == [0, 0, 0, 1];
    assert I64(1) == U32(0) + U32(1);
    var u: nat := if n < 0 then n + UINT64 else n;
    SignBit(n, u);
    FirstByte(u / 0x1_0000_0000, u % 0x1_0000_0000);
  }

  /** A record of the first version ends before the hash; reading one keeps the receiver's hash. */
  lemma FirstVersionBack(s: Saved, receiver: Saved, version: byte, rest: seq<byte>)
    requires Fits(s) && version < 2
    ensures var parts := Block(s.content) + (I64(s.lastUpdated.seconds) + (Block(s.lastEtag) + rest));
            Unmarshal(receiver, [version] + parts) ==
            (Saved(s.content, Time(s.lastUpdated.seconds, 0), s.lastEtag, receiver.urlHash), true)
  {
    var c, t, e := Block(s.content), I64(s.lastUpdated.seconds), Block(s.lastEtag);
    assert ([version] + (c + (t + (e + rest))))[1..] == c + (t + (e + rest));
    BlockBack(s.content, t + (e + rest));
    I64Back(s.lastUpdated.seconds, e + rest);
    BlockBack(s.lastEtag, rest);
  }
}
