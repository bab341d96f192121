/** The container check of libcore/anytlscompat/boxadapter/config.go: an ECHConfigList, section 4
    of draft-ietf-tls-esni. */
module EchList {
  import opened Bytes

  /** A configuration: a version, and a body that is not empty. */
  datatype Config = Config(version: uint16, body: seq<byte>)

  predicate Encodable(configs: seq<Config>) {
    forall k :: 0 <= k < |configs| ==> 1 <= |configs[k].body| < 0x1_0000
  }

  function EncodeOne(c: Config): seq<byte>
    requires |c.body| < 0x1_0000
  {
    U16(c.version) + U16(|c.body|) + c.body
  }

  function EncodeAll(configs: seq<Config>): seq<byte>
    requires Encodable(configs)
  {
    if configs == [] then [] else EncodeOne(configs[0]) + EncodeAll(configs[1..])
  }

  /** The bytes of a list of at least one configuration, under one 16-bit length. */
  ghost predicate IsEncoding(data: seq<byte>, configs: seq<Config>) {
    && configs != [] && Encodable(configs) && |EncodeAll(configs)| < 0x1_0000
    && data == U16(|EncodeAll(configs)|) + EncodeAll(configs)
  }

  /** Whole entries, one after another. */
  predicate Entries(data: seq<byte>) {
    data == [] ||
    (|data| >= 4 &&
     var n := ToU16(data[2..4]);
     n != 0 && n <= |data| - 4 && Entries(data[4 + n..]))
  }

  function Decode(data: seq<byte>): (configs: seq<Config>)
    requires Entries(data)
    ensures Encodable(configs)
  {
    if data == [] then []
    else
      var n := ToU16(data[2..4]);
      [Config(ToU16(data[..2]), data[4..4 + n])] + Decode(data[4 + n..])
  }

  lemma U16Back(b: seq<byte>)
    requires |b| == 2
    ensures U16(ToU16(b)) == b
  {
    assert U16(ToU16(b))[0] == b[0] && U16(ToU16(b))[1] == b[1];
  }

  lemma OneEntry(data: seq<byte>, n: nat)
    requires 4 + n <= |data| && n < 0x1_0000 && ToU16(data[2..4]) == n
    ensures EncodeOne(Config(ToU16(data[..2]), data[4..4 + n])) + data[4 + n..] == data
  {
    U16Back(data[..2]);
    U16Back(data[2..4]);
    assert data == data[..2] + data[2..4] + data[4..4 + n] + data[4 + n..];
  }

  lemma {:induction false} DecodeBack(data: seq<byte>)
    requires Entries(data)
    ensures EncodeAll(Decode(data)) == data
  {
    if data != [] {
      var n := ToU16(data[2..4]);
      DecodeBack(data[4 + n..]);
      OneEntry(data, n);
      assert Decode(data)[1..] == Decode(data[4 + n..]);
    }
  }

  lemma {:induction false} EncodeBack(configs: seq<Config>)
    requires Encodable(configs)
    ensures Entries(EncodeAll(configs)) && Decode(EncodeAll(configs)) == configs
  {
    if configs != [] {
      EncodeBack(configs[1..]);
      var c, rest := configs[0], EncodeAll(configs[1..]);
      var data, n := EncodeOne(c) + rest, |c.body|;
      assert data[..2] == U16(c.version) && data[2..4] == U16(n) && data[4..4 + n] == c.body && data[4 + n..] == rest;
    }
  }

  /** What the check looks at is what makes the bytes an encoding, and of one list only. */
  lemma EncodingIff(data: seq<byte>)
    ensures (|data| >= 6 && ToU16(data[..2]) == |data| - 2 && Entries(data[2..])) <==>
            exists configs :: IsEncoding(data, configs)
  {
    if |data| >= 6 && ToU16(data[..2]) == |data| - 2 && Entries(data[2..]) {
      DecodeBack(data[2..]);
      U16Back(data[..2]);
      assert data == data[..2] + data[2..];
      assert IsEncoding(data, Decode(data[2..]));
    }
    if configs :| IsEncoding(data, configs) {
      EncodeBack(configs);
      assert data[..2] == U16(|EncodeAll(configs)|) && data[2..] == EncodeAll(configs);
    }
  }

  lemma EncodingIsUnique(data: seq<byte>, a: seq<Config>, b: seq<Config>)
    requires IsEncoding(data, a) && IsEncoding(data, b)
    ensures a == b
  {
    EncodeBack(a);
    EncodeBack(b);
    assert data[2..] == EncodeAll(a) == EncodeAll(b);
  }

  /** validECHList accepts exactly the encodings of a list of configurations. */
  method ValidECHList(data: seq<byte>) returns (ok: bool)
    ensures ok <==> exists configs :: IsEncoding(data, configs)
  {
    EncodingIff(data);
    if |data| < 6 || ToU16(data[..2]) != |data| - 2 {
      return false;
    }
    var rest := data[2..];
    while |rest| > 0
      invariant Entries(rest) == Entries(data[2..])
      decreases |rest|
    {
      if |rest| < 4 {
        return false;
      }
      var n := ToU16(rest[2..4]);
      if n == 0 || n > |rest| - 4 {
        return false;
      }
      rest := rest[4 + n..];
    }
    return true;
  }
}
