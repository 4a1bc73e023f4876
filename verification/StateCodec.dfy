/** Physical keys and values of managed state: `state_codec.py`. */
module StateCodec {
  import opened Wrappers
  import opened Bytes

  /** Packing a longer length raises `struct.error`. */
  predicate Fits(b: Blob) {
    |b| < 0x1_0000_0000
  }

  /** A ">I" length prefix bounds every component below 4 GiB. */
  type Field = b: Blob | Fits(b) witness []
  type Int64 = n: int | -0x8000_0000_0000_0000 <= n < 0x8000_0000_0000_0000
  type UInt64 = n: int | 0 <= n < 0x1_0000_0000_0000_0000
  datatype CodecError = Truncated | TrailingBytes

  /** The three components of a managed-state key. */
  datatype Slot = Slot(name: Field, key: Field, namespace: Field)

  datatype TimerDomain = EventTime | ProcessingTime

  lemma Powers()
    ensures Power256(4) == 0x1_0000_0000
    ensures Power256(8) == 0x1_0000_0000_0000_0000
  {
    assert Power256(2) == 0x1_0000;
    assert Power256(4) == 0x1_0000_0000;
    assert Power256(6) == 0x1_0000_0000_0000;
  }

  function Pack32(n: nat): (r: Blob)
    requires n < 0x1_0000_0000
    ensures |r| == 4 && FromBigEndian(r) == n
  {
    Powers();
    BigEndian(n, 4)
  }

  function Pack64(n: UInt64): (r: Blob)
    ensures |r| == 8 && FromBigEndian(r) == n
  {
    Powers();
    BigEndian(n, 8)
  }

  function Unpack64(b: Blob): (n: UInt64)
    requires |b| == 8
    ensures n == FromBigEndian(b)
  {
    Powers();
    FromBigEndian(b)
  }

  /** Two's complement, as ">q". */
  function PackSigned(n: Int64): (r: Blob)
    ensures |r| == 8
  {
    Pack64(if n < 0 then n + 0x1_0000_0000_0000_0000 else n)
  }

  function UnpackSigned(b: Blob): Int64
    requires |b| == 8
  {
    var n := Unpack64(b);
    if n < 0x8000_0000_0000_0000 then n else n - 0x1_0000_0000_0000_0000
  }

  // ---- state keys ----------------------------------------------------------

  function Component(value: Field): Blob {
    Pack32(|value|) + value
  }

  function ReadComponent(value: Blob, offset: nat): (r: Result<(Field, nat), CodecError>)
    requires offset <= |value|
    ensures r.Ok? ==> offset + 4 + |r.value.0| == r.value.1 <= |value|
  {
    if offset + 4 > |value| then
      Err(Truncated)
    else
      Powers();
      var size := FromBigEndian(value[offset..offset + 4]);
      var start := offset + 4;
      if start + size > |value| then
        Err(Truncated)
      else
        Ok((value[start..start + size], start + size))
  }

  function EncodeStateKey(slot: Slot): Blob {
    Component(slot.name) + Component(slot.key) + Component(slot.namespace)
  }

  function StateKeyPrefix(name: Field, key: Field): Blob {
    Component(name) + Component(key)
  }

  function DecodeStateKey(encoded: Blob): Result<Slot, CodecError> {
    match ReadComponent(encoded, 0)
    case Err(e) => Err(e)
    case Ok((name, afterName)) =>
      match ReadComponent(encoded, afterName)
      case Err(e) => Err(e)
      case Ok((key, afterKey)) =>
        match ReadComponent(encoded, afterKey)
        case Err(e) => Err(e)
        case Ok((namespace, end)) =>
          if end != |encoded| then Err(TrailingBytes) else Ok(Slot(name, key, namespace))
  }

  lemma SliceOfTail(value: Blob, offset: nat, n: nat, i: nat, j: nat)
    requires offset + n <= |value| && i <= j <= n
    ensures value[offset..][..n][i..j] == value[offset + i..offset + j]
  {
  }

  /** Reading finds a component exactly where its encoding stands. */
  lemma ReadComponentIff(value: Blob, offset: nat, field: Field)
    requires offset <= |value|
    ensures ReadComponent(value, offset) == Ok((field, offset + 4 + |field|))
       <==> StartsWith(value[offset..], Component(field))
  {
    var c := Component(field);
    if StartsWith(value[offset..], c) {
      SliceOfTail(value, offset, |c|, 0, 4);
      SliceOfTail(value, offset, |c|, 4, |c|);
      assert c[0..4] == Pack32(|field|) && c[4..|c|] == field;
    }
    if ReadComponent(value, offset) == Ok((field, offset + 4 + |field|)) {
      var head := value[offset..offset + 4];
      FromBigEndianInjective(head, Pack32(|field|));
      assert value[offset..][..|c|] == head + value[offset + 4..offset + 4 + |field|];
    }
  }

  /** Two components that open one string are one component. */
  lemma ComponentUnique(value: Blob, offset: nat, a: Field, b: Field)
    requires offset <= |value|
    requires StartsWith(value[offset..], Component(a)) && StartsWith(value[offset..], Component(b))
    ensures a == b
  {
    ReadComponentIff(value, offset, a);
    ReadComponentIff(value, offset, b);
  }

  /** Decoding accepts exactly the encodings of three components, and inverts them. */
  lemma StateKeyRoundTrip(encoded: Blob, slot: Slot)
    ensures DecodeStateKey(encoded) == Ok(slot) <==> encoded == EncodeStateKey(slot)
  {
    if encoded == EncodeStateKey(slot) {
      DecodeEncoded(slot);
    }
    if DecodeStateKey(encoded) == Ok(slot) {
      EncodeDecoded(encoded, slot);
    }
  }

  lemma DecodeEncoded(slot: Slot)
    ensures DecodeStateKey(EncodeStateKey(slot)) == Ok(slot)
  {
    var encoded := EncodeStateKey(slot);
    var n, k, s := Component(slot.name), Component(slot.key), Component(slot.namespace);
    assert encoded[0..] == n + (k + s);
    ReadComponentIff(encoded, 0, slot.name);
    assert encoded[|n|..] == k + s;
    ReadComponentIff(encoded, |n|, slot.key);
    assert encoded[|n| + |k|..] == s;
    ReadComponentIff(encoded, |n| + |k|, slot.namespace);
  }

  lemma ThreeSlices(v: Blob, a: Blob, b: Blob, c: Blob)
    requires |v| == |a| + |b| + |c|
    requires StartsWith(v, a) && StartsWith(v[|a|..], b) && StartsWith(v[|a| + |b|..], c)
    ensures v == a + b + c
  {
    assert v == v[..|a|] + v[|a|..][..|b|] + v[|a| + |b|..];
  }

  lemma ComponentLength(field: Field)
    ensures |Component(field)| == 4 + |field|
  {
  }

  lemma EncodeDecoded(encoded: Blob, slot: Slot)
    requires DecodeStateKey(encoded) == Ok(slot)
    ensures encoded == EncodeStateKey(slot)
  {
    hide ReadComponent, Component, StartsWith;
    var n, k, s := Component(slot.name), Component(slot.key), Component(slot.namespace);
    ComponentLength(slot.name);
    ComponentLength(slot.key);
    ComponentLength(slot.namespace);
    ReadComponentIff(encoded, 0, slot.name);
    ReadComponentIff(encoded, |n|, slot.key);
    ReadComponentIff(encoded, |n| + |k|, slot.namespace);
    assert encoded[0..] == encoded;
    ThreeSlices(encoded, n, k, s);
  }

  lemma EncodeStateKeyInjective(a: Slot, b: Slot)
    requires EncodeStateKey(a) == EncodeStateKey(b)
    ensures a == b
  {
    StateKeyRoundTrip(EncodeStateKey(a), a);
    StateKeyRoundTrip(EncodeStateKey(a), b);
  }

  /** A state key starts with a scan prefix exactly when its name and key are the prefix's. */
  lemma PrefixSelectsNameAndKey(slot: Slot, name: Field, key: Field)
    ensures StartsWith(EncodeStateKey(slot), StateKeyPrefix(name, key))
       <==> slot.name == name && slot.key == key
  {
    var encoded := EncodeStateKey(slot);
    var n, k := Component(slot.name), Component(slot.key);
    var p := StateKeyPrefix(name, key);
    assert encoded[0..] == encoded;
    assert encoded[..|n|] == n && encoded[|n|..][..|k|] == k;
    assert encoded[..|n| + |k|] == n + k;
    if StartsWith(encoded, p) {
      assert encoded[..|Component(name)|] == p[..|Component(name)|] == Component(name);
      ComponentUnique(encoded, 0, slot.name, name);
      assert encoded[|n|..][..|Component(key)|] == p[|n|..];
      ComponentUnique(encoded, |n|, slot.key, key);
    }
  }

  // ---- state values --------------------------------------------------------

  const NO_EXPIRY: Int64 := -1

  function EncodeStateValue(payload: Blob, expires: Option<Int64>): Blob {
    PackSigned(if expires.None? then NO_EXPIRY else expires.value) + payload
  }

  function DecodeStateValue(encoded: Blob): Result<(Option<Int64>, Blob), CodecError> {
    if |encoded| < 8 then
      Err(Truncated)
    else
      var expiry := UnpackSigned(encoded[..8]);
      Ok((if expiry == NO_EXPIRY then None else Some(expiry), encoded[8..]))
  }

  /** A value survives storage exactly when its expiry is not the sentinel of "no expiry". */
  lemma StateValueRoundTrip(payload: Blob, expires: Option<Int64>)
    ensures DecodeStateValue(EncodeStateValue(payload, expires)) == Ok((expires, payload))
       <==> expires != Some(NO_EXPIRY)
  {
    var expiry: Int64 := if expires.None? then NO_EXPIRY else expires.value;
    var encoded := EncodeStateValue(payload, expires);
    assert encoded[..8] == PackSigned(expiry) && encoded[8..] == payload;
    assert UnpackSigned(PackSigned(expiry)) == expiry;
  }

  // ---- expiry index --------------------------------------------------------

  function EncodeExpiryKey(expires: UInt64, stateKey: Blob): Blob {
    Pack64(expires) + stateKey
  }

  function DecodeExpiryKey(encoded: Blob): Result<(UInt64, Blob), CodecError> {
    if |encoded| < 8 then Err(Truncated) else Ok((Unpack64(encoded[..8]), encoded[8..]))
  }

  /** Index keys decode to what they encode, and only encodings decode. */
  lemma ExpiryKeyRoundTrip(encoded: Blob, expires: UInt64, stateKey: Blob)
    ensures DecodeExpiryKey(encoded) == Ok((expires, stateKey))
       <==> encoded == EncodeExpiryKey(expires, stateKey)
  {
    if encoded == EncodeExpiryKey(expires, stateKey) {
      assert encoded[..8] == Pack64(expires) && encoded[8..] == stateKey;
    }
    if DecodeExpiryKey(encoded) == Ok((expires, stateKey)) {
      FromBigEndianInjective(encoded[..8], Pack64(expires));
      assert encoded == encoded[..8] + encoded[8..];
    }
  }

  /** A scan of the index meets entries by expiry, and by state key within one instant. */
  lemma ExpiryKeyOrder(e: UInt64, a: Blob, f: UInt64, b: Blob)
    ensures Less(EncodeExpiryKey(e, a), EncodeExpiryKey(f, b)) <==> e < f || (e == f && Less(a, b))
  {
    TimestampOrder([], e, a, f, b);
    assert [] + Pack64(e) + a == EncodeExpiryKey(e, a);
    assert [] + Pack64(f) + b == EncodeExpiryKey(f, b);
  }

  lemma TimestampOrder(p: Blob, e: UInt64, a: Blob, f: UInt64, b: Blob)
    ensures Less(p + Pack64(e) + a, p + Pack64(f) + b) <==> e < f || (e == f && Less(a, b))
  {
    assert p + Pack64(e) + a == p + (Pack64(e) + a);
    assert p + Pack64(f) + b == p + (Pack64(f) + b);
    LessAfterPrefix(p, Pack64(e) + a, Pack64(f) + b);
    if e == f {
      LessAfterPrefix(Pack64(e), a, b);
    } else {
      LessOfHeads(Pack64(e), Pack64(f), a, b);
      BigEndianOrder(Pack64(e), Pack64(f));
    }
  }

  // ---- timers --------------------------------------------------------------

  /** The byte `b"e"` or `b"p"`. */
  function TimerPrefix(domain: TimerDomain): Blob {
    match domain
    case EventTime => [101]
    case ProcessingTime => [112]
  }

  function EncodeTimerKey(domain: TimerDomain, timestamp: UInt64, digest: Blob): Blob {
    TimerPrefix(domain) + Pack64(timestamp) + digest
  }

  /** `decode_timer` reads the timestamp back out of the key. */
  function DecodeTimerTimestamp(encoded: Blob): Result<UInt64, CodecError> {
    if |encoded| < 9 then Err(Truncated) else Ok(Unpack64(encoded[1..9]))
  }

  lemma TimerKeyRoundTrip(domain: TimerDomain, timestamp: UInt64, digest: Blob)
    ensures var k := EncodeTimerKey(domain, timestamp, digest);
      && DecodeTimerTimestamp(k) == Ok(timestamp)
      && k[9..] == digest
      && forall d :: StartsWith(k, TimerPrefix(d)) <==> d == domain
  {
    var k := EncodeTimerKey(domain, timestamp, digest);
    assert k[1..9] == Pack64(timestamp);
    assert k[9..] == digest;
    assert k[..1] == TimerPrefix(domain);
  }

  lemma EncodeTimerKeyInjective(d: TimerDomain, t: UInt64, x: Blob, e: TimerDomain, u: UInt64, y: Blob)
    requires EncodeTimerKey(d, t, x) == EncodeTimerKey(e, u, y)
    ensures d == e && t == u && x == y
  {
    TimerKeyRoundTrip(d, t, x);
    TimerKeyRoundTrip(e, u, y);
    assert StartsWith(EncodeTimerKey(d, t, x), TimerPrefix(d));
  }

  /** A scan of one domain meets its timers by timestamp, and by digest within one instant. */
  lemma TimerKeyOrder(domain: TimerDomain, t: UInt64, x: Blob, u: UInt64, y: Blob)
    ensures Less(EncodeTimerKey(domain, t, x), EncodeTimerKey(domain, u, y))
       <==> t < u || (t == u && Less(x, y))
  {
    TimestampOrder(TimerPrefix(domain), t, x, u, y);
  }
}
