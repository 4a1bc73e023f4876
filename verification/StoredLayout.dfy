/** The bytes of stored keys and values, position by position. */
module StoredLayout {
  import opened Wrappers
  import opened Bytes
  import opened StateCodec

  /** Three lengths of four bytes, each before its component. */
  lemma StateKeyLayout(slot: Slot)
    ensures var e, n, k, s := EncodeStateKey(slot), |slot.name|, |slot.key|, |slot.namespace|;
      && |e| == n + k + s + 12
      && FromBigEndian(e[..4]) == n && e[4..4 + n] == slot.name
      && FromBigEndian(e[4 + n..8 + n]) == k && e[8 + n..8 + n + k] == slot.key
      && FromBigEndian(e[8 + n + k..12 + n + k]) == s && e[12 + n + k..] == slot.namespace
  {
    hide Pack32, FromBigEndian;
    var a, b, c := Pack32(|slot.name|), Pack32(|slot.key|), Pack32(|slot.namespace|);
    var e, n, k := EncodeStateKey(slot), |slot.name|, |slot.key|;
    assert e == (a + slot.name) + (b + slot.key) + (c + slot.namespace);
    assert e[..4] == a && e[4 + n..8 + n] == b && e[8 + n + k..12 + n + k] == c;
  }

  /** Eight bytes of expiry, in two's complement with -1 for none, before the payload. */
  lemma StateValueLayout(payload: Blob, expires: Option<Int64>)
    ensures var e := EncodeStateValue(payload, expires);
      && |e| == 8 + |payload| && e[8..] == payload
      && (expires.None? ==> FromBigEndian(e[..8]) == 18446744073709551615)
      && (expires.Some? && expires.value >= 0 ==> FromBigEndian(e[..8]) == expires.value)
      && (expires.Some? && expires.value < 0 ==> FromBigEndian(e[..8]) == 18446744073709551616 + expires.value)
  {
    hide FromBigEndian;
    var expiry: Int64 := if expires.None? then NO_EXPIRY else expires.value;
    assert EncodeStateValue(payload, expires)[..8] == PackSigned(expiry);
  }

  /** Eight bytes of expiry before the state key. */
  lemma ExpiryKeyLayout(expires: UInt64, stateKey: Blob)
    ensures var e := EncodeExpiryKey(expires, stateKey);
      |e| == 8 + |stateKey| && FromBigEndian(e[..8]) == expires && e[8..] == stateKey
  {
    hide FromBigEndian;
    assert EncodeExpiryKey(expires, stateKey)[..8] == Pack64(expires);
  }

  /** The letter e or p for the domain, eight bytes of timestamp, and the digest. */
  lemma TimerKeyLayout(domain: TimerDomain, timestamp: UInt64, digest: Blob)
    ensures var e := EncodeTimerKey(domain, timestamp, digest);
      && |e| == 9 + |digest| && e[0] == (if domain.EventTime? then 'e' else 'p') as int
      && FromBigEndian(e[1..9]) == timestamp && e[9..] == digest
      && StartsWith(e, TimerPrefix(domain)) && |TimerPrefix(domain)| == 1
  {
    hide FromBigEndian;
    assert EncodeTimerKey(domain, timestamp, digest)[1..9] == Pack64(timestamp);
  }
}
