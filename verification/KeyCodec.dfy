/**
  What the state backends need from key encoding: `encode_key`, `decode_key`, the
  routing hash of `key_group_for_key`, the timer digest and the timer payload.
 */
module KeyCodec {
  import opened Bytes
  import opened KeyEncoding
  import opened KeyEquality

  /**
    `encode` is `encode_key` at the highest pickle protocol, `route` the BLAKE2b
    digest of the key at protocol 4 read as an integer, `digest` stands for the
    SHA-256 of an encoded (key, namespace) pair, and `dumpPair` / `loadPair` are the
    timer payload. Digests are byte strings of any length, so that they can differ
    for all pairs.
   */
  datatype KeyCodec<!K> = KeyCodec(
    encode: K -> Blob,
    decode: Blob -> K,
    route: K -> nat,
    digest: (Blob, Blob) -> Blob,
    dumpPair: (K, K) -> Blob,
    loadPair: Blob -> (K, K))

  ghost predicate Lawful<K(!new)>(c: KeyCodec<K>) {
    && (forall k :: c.encode(c.decode(c.encode(k))) == c.encode(k))
    && (forall j, k :: c.encode(j) == c.encode(k) ==> c.route(j) == c.route(k))
    && (forall a, b, x, y :: c.digest(a, b) == c.digest(x, y) ==> a == x && b == y)
    && (forall j, k :: c.loadPair(c.dumpPair(j, k)) == (j, k))
  }

  /** `key_group_for_key`. */
  function KeyGroupOf<K>(c: KeyCodec<K>, key: K, maxParallelism: int): int
    requires maxParallelism >= 1
  {
    c.route(key) % maxParallelism
  }

  /**
    The group of a key is the remainder of its routed hash: in range, a multiple of the parallelism
    away from the hash, and the same for all keys with one encoding.
   */
  lemma KeyGroupIs<K(!new)>(c: KeyCodec<K>, key: K, other: K, maxParallelism: int) returns (multiple: nat)
    requires Lawful(c) && maxParallelism >= 1
    ensures 0 <= KeyGroupOf(c, key, maxParallelism) < maxParallelism
    ensures c.route(key) == multiple * maxParallelism + KeyGroupOf(c, key, maxParallelism)
    ensures c.encode(other) == c.encode(key) ==>
      KeyGroupOf(c, other, maxParallelism) == KeyGroupOf(c, key, maxParallelism)
  {
    multiple := c.route(key) / maxParallelism;
  }

  // ---- structural keys -----------------------------------------------------

  type Key = v: Value | Valid(v) witness NoneValue

  /** The parts of a codec that are not about keys: pickling bytes, hashing them, timer payloads. */
  datatype Serializer = Serializer(
    dumps: Value -> Blob,
    loads: Blob -> Key,
    hash: Blob -> nat,
    digest: (Blob, Blob) -> Blob,
    dumpPair: (Key, Key) -> Blob,
    loadPair: Blob -> (Key, Key))

  /** Pickle is injective on canonical keys and unpickling thaws them; the digest is injective. */
  ghost predicate Trusted(p: Platform, s: Serializer) {
    && Faithful(p)
    && (forall a, b :: Valid(a) && Valid(b) && s.dumps(Canonical(p, a)) == s.dumps(Canonical(p, b)) ==>
          Canonical(p, a) == Canonical(p, b))
    && (forall v :: Valid(v) ==> s.loads(s.dumps(Canonical(p, v))) == Thawed(Canonical(p, v)))
    && (forall a, b, x, y :: s.digest(a, b) == s.digest(x, y) ==> a == x && b == y)
    && (forall j, k :: s.loadPair(s.dumpPair(j, k)) == (j, k))
  }

  function StructuralCodec(p: Platform, s: Serializer): KeyCodec<Key> {
    KeyCodec(
      (k: Key) => s.dumps(Canonical(p, k)),
      s.loads,
      (k: Key) => s.hash(p.dumps(Canonical(p, k))),
      s.digest,
      s.dumpPair,
      s.loadPair)
  }

  /**
    The canonical encoding meets every law the backends rely on, and its encoded
    keys coincide exactly when Python calls the keys equal.
   */
  lemma StructuralCodecLawful(p: Platform, s: Serializer)
    requires Trusted(p, s)
    ensures Lawful(StructuralCodec(p, s))
    ensures forall j: Key, k: Key ::
      StructuralCodec(p, s).encode(j) == StructuralCodec(p, s).encode(k) <==> PyEqual(j, k)
  {
    var c := StructuralCodec(p, s);
    forall k: Key ensures c.encode(c.decode(c.encode(k))) == c.encode(k) {
      DecodedKeepsCanonicalForm(p, k);
    }
    forall j: Key, k: Key ensures c.encode(j) == c.encode(k) <==> PyEqual(j, k) {
      CanonicalDecidesEquality(p, j, k);
    }
  }
}
