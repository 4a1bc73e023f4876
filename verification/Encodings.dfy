/** Byte-string dictionaries that store a typed dictionary under an injective key encoding. */
module Encodings {
  import opened Bytes
  import opened Sorting

  ghost predicate Encodes<A(!new), B>(phys: map<Blob, Blob>, logical: map<A, B>, key: A -> Blob, val: B -> Blob) {
    && (forall a :: a in logical ==> key(a) in phys && phys[key(a)] == val(logical[a]))
    && (forall b :: b in phys ==> Encoded(b, logical, key))
  }

  ghost predicate Encoded<A(!new), B>(b: Blob, logical: map<A, B>, key: A -> Blob) {
    exists a :: a in logical && key(a) == b
  }

  /** A set seen as a dictionary without values. */
  function Unit<A>(s: set<A>): map<A, ()> {
    map x | x in s :: ()
  }

  function NoBytes(u: ()): Blob { [] }

  lemma EncodesLookup<A(!new), B>(phys: map<Blob, Blob>, logical: map<A, B>, key: A -> Blob, val: B -> Blob, a: A)
    requires Encodes(phys, logical, key, val) && Injective(key)
    ensures key(a) in phys <==> a in logical
    ensures a in logical ==> phys[key(a)] == val(logical[a])
  {
    if key(a) in phys {
      assert Encoded(key(a), logical, key);
    }
  }

  lemma EncodesPut<A(!new), B>(phys: map<Blob, Blob>, logical: map<A, B>, key: A -> Blob, val: B -> Blob, a: A, v: B)
    requires Encodes(phys, logical, key, val) && Injective(key)
    ensures Encodes(phys[key(a) := val(v)], logical[a := v], key, val)
  {
    var after := logical[a := v];
    forall b | b in phys[key(a) := val(v)] ensures Encoded(b, after, key) {
      if b == key(a) {
        assert a in after;
      } else {
        assert Encoded(b, logical, key);
        var x :| x in logical && key(x) == b;
        assert x in after;
      }
    }
  }

  lemma EncodesDrop<A(!new), B>(phys: map<Blob, Blob>, logical: map<A, B>, key: A -> Blob, val: B -> Blob, a: A)
    requires Encodes(phys, logical, key, val) && Injective(key)
    ensures Encodes(phys - {key(a)}, logical - {a}, key, val)
  {
    var after := logical - {a};
    forall b | b in phys - {key(a)} ensures Encoded(b, after, key) {
      assert Encoded(b, logical, key);
      var x :| x in logical && key(x) == b;
      assert x in after;
    }
  }

  /** One encoding determines the physical dictionary completely. */
  lemma EncodesDeterminesBytes<A(!new), B>(
      p: map<Blob, Blob>, q: map<Blob, Blob>, logical: map<A, B>, key: A -> Blob, val: B -> Blob)
    requires Encodes(p, logical, key, val) && Encodes(q, logical, key, val)
    ensures p == q
  {
    assert forall b :: b in p ==> Encoded(b, logical, key);
    assert forall b :: b in q ==> Encoded(b, logical, key);
  }

  /** Scanning the sorted physical keys meets the logical keys in encoded order. */
  lemma EncodesSorted<A(!new), B>(phys: map<Blob, Blob>, logical: map<A, B>, key: A -> Blob, val: B -> Blob)
    requires Encodes(phys, logical, key, val) && Injective(key)
    ensures InOrder(SortedKeys(phys.Keys), Ordered(logical.Keys, key), key)
  {
    forall b | b in phys.Keys ensures exists x :: x in logical.Keys && key(x) == b {
      assert Encoded(b, logical, key);
    }
    SortedImage(logical.Keys, key, phys.Keys);
  }
}
