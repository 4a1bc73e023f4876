/** The assumptions about pickle, digests and key codecs can be met. */
module KeyPlatforms {
  import opened Wrappers
  import opened Bytes
  import opened Texts
  import opened Serialization
  import opened StateCodec
  import opened KeyEncoding
  import opened KeyEquality
  import opened KeyCodec
  import opened KeyedState
  import opened MemoryBackend
  import opened RocksDbBackend

  // ---- a form of key values that tells them all apart ----------------------

  function TreeOf(v: Value): Tree
    decreases v
  {
    match v
    case NoneValue => Fork(0, [], Leaf, Leaf)
    case Text(s) => Fork(1, Rank(s), Leaf, Leaf)
    case ByteString(b) => Fork(2, b, Leaf, Leaf)
    case ByteArray(b) => Fork(3, b, Leaf, Leaf)
    case Bool(b) => Fork(4, Flag(b), Leaf, Leaf)
    case Int(n) => Fork(5, [], Number(n), Leaf)
    case Fraction(n, d) => Fork(6, [], Number(n), Number(d))
    case Float(n, d) => Fork(7, [], Number(n), Number(d))
    case Decimal(n, d) => Fork(8, [], Number(n), Number(d))
    case FloatInfinity(negative) => Fork(9, Flag(negative), Leaf, Leaf)
    case DecimalInfinity(negative) => Fork(10, Flag(negative), Leaf, Leaf)
    case Tuple(xs) => Fork(11, [], Chain(seq(|xs|, i requires 0 <= i < |xs| => TreeOf(xs[i]))), Leaf)
    case List(xs) => Fork(12, [], Chain(seq(|xs|, i requires 0 <= i < |xs| => TreeOf(xs[i]))), Leaf)
    case Range(start, stop, step) => Fork(13, [], Number(start), Node([], Number(stop), Number(step)))
    case Dict(xs) =>
      Fork(14, [], Chain(seq(|xs|, i requires 0 <= i < |xs| => Node([], TreeOf(xs[i].0), TreeOf(xs[i].1)))), Leaf)
    case Set(frozen, xs) =>
      Fork(15, Flag(frozen), Chain(seq(|xs|, i requires 0 <= i < |xs| => TreeOf(xs[i]))), Leaf)
    case CanonicalSet(xs) => Fork(16, [], Chain(seq(|xs|, i requires 0 <= i < |xs| => TreeOf(xs[i]))), Leaf)
  }

  function KindOf(v: Value): Byte {
    match v
    case NoneValue => 0
    case Text(_) => 1
    case ByteString(_) => 2
    case ByteArray(_) => 3
    case Bool(_) => 4
    case Int(_) => 5
    case Fraction(_, _) => 6
    case Float(_, _) => 7
    case Decimal(_, _) => 8
    case FloatInfinity(_) => 9
    case DecimalInfinity(_) => 10
    case Tuple(_) => 11
    case List(_) => 12
    case Range(_, _, _) => 13
    case Dict(_) => 14
    case Set(_, _) => 15
    case CanonicalSet(_) => 16
  }

  lemma TreeKind(v: Value)
    ensures TreeOf(v).Node? && TreeOf(v).mark != [] && TreeOf(v).mark[0] == KindOf(v)
  {
  }

  function Trees(xs: seq<Value>): seq<Tree> {
    seq(|xs|, i requires 0 <= i < |xs| => TreeOf(xs[i]))
  }

  function EntryTrees(xs: seq<(Value, Value)>): seq<Tree> {
    seq(|xs|, i requires 0 <= i < |xs| => Node([], TreeOf(xs[i].0), TreeOf(xs[i].1)))
  }

  function ItemsOf(v: Value): seq<Value> {
    if v.Tuple? || v.List? || v.Set? || v.CanonicalSet? then v.items else []
  }

  lemma {:induction false} TreeInjective(a: Value, b: Value)
    requires TreeOf(a) == TreeOf(b)
    ensures a == b
    decreases a
  {
    TreeKind(a);
    TreeKind(b);
    if a.Tuple? || a.List? || a.Set? || a.CanonicalSet? {
      SameItems(a, b);
      forall i | 0 <= i < |a.items| ensures a.items[i] == b.items[i] {
        assert Trees(a.items)[i] == Trees(b.items)[i];
        TreeInjective(a.items[i], b.items[i]);
      }
      assert a.items == b.items;
    } else if a.Dict? {
      SameEntries(a.entries, b.entries);
      forall i | 0 <= i < |a.entries| ensures a.entries[i] == b.entries[i] {
        assert EntryTrees(a.entries)[i] == EntryTrees(b.entries)[i];
        TreeInjective(a.entries[i].0, b.entries[i].0);
        TreeInjective(a.entries[i].1, b.entries[i].1);
      }
      assert a.entries == b.entries;
    } else {
      ScalarInjective(a, b);
    }
  }

  lemma SameItems(a: Value, b: Value)
    requires TreeOf(a) == TreeOf(b) && KindOf(a) == KindOf(b)
    requires a.Tuple? || a.List? || a.Set? || a.CanonicalSet?
    ensures Trees(ItemsOf(a)) == Trees(ItemsOf(b))
    ensures a.Set? ==> a.frozen == b.frozen
  {
    assert TreeOf(a).first == Chain(Trees(a.items));
    assert TreeOf(b).first == Chain(Trees(b.items));
    ChainInjective(Trees(a.items), Trees(b.items));
    assert a.Set? ==> TreeOf(a).mark[1] == Flag(a.frozen)[0] && TreeOf(b).mark[1] == Flag(b.frozen)[0];
  }

  lemma SameEntries(xs: seq<(Value, Value)>, ys: seq<(Value, Value)>)
    requires TreeOf(Dict(xs)) == TreeOf(Dict(ys))
    ensures EntryTrees(xs) == EntryTrees(ys)
  {
    assert TreeOf(Dict(xs)).first == Chain(EntryTrees(xs));
    assert TreeOf(Dict(ys)).first == Chain(EntryTrees(ys));
    ChainInjective(EntryTrees(xs), EntryTrees(ys));
  }

  lemma ScalarInjective(a: Value, b: Value)
    requires TreeOf(a) == TreeOf(b) && KindOf(a) == KindOf(b)
    requires !a.Tuple? && !a.List? && !a.Set? && !a.CanonicalSet? && !a.Dict?
    ensures a == b
  {
    assert TreeOf(a).mark[1..] == TreeOf(b).mark[1..];
    match a
    case Text(s) => RankInjective(s, b.text);
    case Int(n) => NumberInjective(n, b.integer);
    case Fraction(n, d) =>
      NumberInjective(n, b.numerator);
      NumberInjective(d, b.denominator);
    case Float(n, d) =>
      NumberInjective(n, b.numerator);
      NumberInjective(d, b.denominator);
    case Decimal(n, d) =>
      NumberInjective(n, b.numerator);
      NumberInjective(d, b.denominator);
    case Range(start, stop, step) =>
      NumberInjective(start, b.start);
      NumberInjective(stop, b.stop);
      NumberInjective(step, b.step);
    case _ =>
  }

  function Pickled(v: Value): Blob {
    Packed(TreeOf(v))
  }

  lemma PickledInjective(a: Value, b: Value)
    requires Pickled(a) == Pickled(b)
    ensures a == b
  {
    PackedInjective(TreeOf(a), TreeOf(b));
    TreeInjective(a, b);
  }

  // ---- structural keys -----------------------------------------------------

  function PlatformFor(exactFloat: (int, int) -> bool): Platform {
    Platform(Pickled, exactFloat)
  }

  ghost predicate IsPickled(p: Platform, b: Blob, v: Value) {
    Valid(v) && Pickled(Canonical(p, v)) == b
  }

  ghost function Unpickled(p: Platform, b: Blob): Key
    requires Faithful(p)
  {
    if exists v :: IsPickled(p, b, v) then
      var v :| IsPickled(p, b, v);
      DecodedKeyIsEqual(p, v);
      Thawed(Canonical(p, v))
    else
      NoneValue
  }

  function PickledPair(j: Key, k: Key): Blob {
    Pair(Pickled(j), Pickled(k))
  }

  ghost predicate IsPair(b: Blob, j: Key, k: Key) {
    PickledPair(j, k) == b
  }

  ghost function UnpickledPair(b: Blob): (Key, Key) {
    if exists j: Key, k: Key :: IsPair(b, j, k) then
      var j: Key, k: Key :| IsPair(b, j, k);
      (j, k)
    else
      (NoneValue, NoneValue)
  }

  ghost function SerializerFor(p: Platform): Serializer
    requires Faithful(p)
  {
    Serializer(Pickled, b => Unpickled(p, b), b => |b|, Pair, PickledPair, b => UnpickledPair(b))
  }

  /**
    Whichever ratios floats can hold, some pickling and some digest meet all that is
    asked of them: the laws of structural keys are not vacuous.
   */
  lemma TrustedExists(exactFloat: (int, int) -> bool) returns (p: Platform, s: Serializer)
    ensures p.exactFloat == exactFloat && Trusted(p, s)
  {
    p := PlatformFor(exactFloat);
    forall a, b | Pickled(Canonical(p, a)) == Pickled(Canonical(p, b)) ensures Canonical(p, a) == Canonical(p, b) {
      PickledInjective(Canonical(p, a), Canonical(p, b));
    }
    s := SerializerFor(p);
    forall v | Valid(v) ensures s.loads(s.dumps(Canonical(p, v))) == Thawed(Canonical(p, v)) {
      var b := s.dumps(Canonical(p, v));
      assert IsPickled(p, b, v);
      var w :| IsPickled(p, b, w) && Unpickled(p, b) == Thawed(Canonical(p, w));
      PickledInjective(Canonical(p, v), Canonical(p, w));
    }
    forall a: Blob, b: Blob, x: Blob, y: Blob | s.digest(a, b) == s.digest(x, y) ensures a == x && b == y {
      PairInjective(a, b, x, y);
    }
    forall j: Key, k: Key ensures s.loadPair(s.dumpPair(j, k)) == (j, k) {
      PairUnpickled(j, k);
    }
  }

  lemma PairUnpickled(j: Key, k: Key)
    ensures UnpickledPair(PickledPair(j, k)) == (j, k)
  {
    var b := PickledPair(j, k);
    assert IsPair(b, j, k);
    var x: Key, y: Key :| IsPair(b, x, y) && UnpickledPair(b) == (x, y);
    assert IsPair(b, x, y);
    assert PickledPair(x, y) == b;
    PairInjective(Pickled(j), Pickled(k), Pickled(x), Pickled(y));
    PickledInjective(j, x);
    PickledInjective(k, y);
  }

  // ---- byte-string keys ----------------------------------------------------

  /** Keys that are byte strings encode themselves. */
  function BlobCodec(): KeyCodec<Blob> {
    KeyCodec((k: Blob) => k, (b: Blob) => b, (k: Blob) => FromBigEndian(k), Pair, Pair, Unpair)
  }

  lemma BlobCodecLawful()
    ensures Lawful(BlobCodec())
  {
    var c := BlobCodec();
    forall a: Blob, b: Blob, x: Blob, y: Blob | c.digest(a, b) == c.digest(x, y) ensures a == x && b == y {
      PairInjective(a, b, x, y);
    }
    forall j: Blob, k: Blob ensures c.loadPair(c.dumpPair(j, k)) == (j, k) {
      UnpairPair(j, k);
    }
  }

  /** What a read at `later` returns after a write at `now` on a fresh backend. */
  function ReadAfterWrite(d: Descriptor, key: Blob, namespace: Blob, payload: Blob, now: Millis, later: Millis)
    : Result<Option<Blob>, BackendError>
  {
    if !(Fits(d.name) && Fits(key) && Fits(namespace)) then Err(ComponentTooLong)
    else if d.ttl.Some? && now + d.ttl.value.ttl <= later && !d.ttl.value.returnExpired then Ok(None)
    else Ok(Some(payload))
  }

  method WriteThenReadMemory(
      d: Descriptor, key: Blob, namespace: Blob, payload: Blob, now: Millis, later: Millis, renewal: Millis)
    returns (r: Result<Option<Blob>, BackendError>)
    ensures r == ReadAfterWrite(d, key, namespace, payload, now, later)
  {
    BlobCodecLawful();
    var b := new MemoryStateBackend(BlobCodec());
    b.SetCurrentKey(key);
    var error := b.Put(d, payload, namespace, now);
    r := b.Get(d, namespace, later, renewal);
  }

  method WriteThenReadRocksDb(
      d: Descriptor, key: Blob, namespace: Blob, payload: Blob, now: Millis, later: Millis, renewal: Millis)
    returns (r: Result<Option<Blob>, BackendError>)
    ensures r == ReadAfterWrite(d, key, namespace, payload, now, later)
  {
    BlobCodecLawful();
    var b := new RocksDbStateBackend(BlobCodec());
    b.SetCurrentKey(key);
    var error := b.Put(d, payload, namespace, now);
    r := b.Get(d, namespace, later, renewal);
  }
}
