/** Python's `sorted`, with a byte-string sort key. */
module Sorting {
  import opened Bytes

  ghost predicate Ascending<T>(s: seq<T>, key: T -> Blob) {
    forall i, j :: 0 <= i < j < |s| ==> Less(key(s[i]), key(s[j]))
  }

  ghost predicate DistinctKeys<T>(s: seq<T>, key: T -> Blob) {
    forall i, j :: 0 <= i < j < |s| ==> key(s[i]) != key(s[j])
  }

  ghost predicate NoDuplicates<T>(s: seq<T>) {
    forall i, j :: 0 <= i < j < |s| ==> s[i] != s[j]
  }

  /** Stable insertion: an equal key goes after the ones already there. */
  function Insert<T(!new)>(x: T, s: seq<T>, key: T -> Blob): (r: seq<T>)
    ensures |r| == |s| + 1
    ensures forall y :: y in r <==> y == x || y in s
  {
    if s == [] || Less(key(x), key(s[0])) then
      [x] + s
    else
      [s[0]] + Insert(x, s[1..], key)
  }

  function SortBy<T(!new)>(s: seq<T>, key: T -> Blob): (r: seq<T>)
    ensures |r| == |s|
    ensures forall y :: y in r <==> y in s
  {
    if s == [] then
      []
    else
      var last := |s| - 1;
      assert s == s[..last] + [s[last]];
      Insert(s[last], SortBy(s[..last], key), key)
  }

  lemma {:induction false} InsertAscending<T(!new)>(x: T, s: seq<T>, key: T -> Blob)
    requires Ascending(s, key)
    requires forall y :: y in s ==> key(y) != key(x)
    ensures Ascending(Insert(x, s, key), key)
  {
    if s == [] {
    } else if Less(key(x), key(s[0])) {
      forall j | 0 < j < |s| ensures Less(key(x), key(s[j])) {
        LessTransitive(key(x), key(s[0]), key(s[j]));
      }
    } else {
      LessTotal(key(x), key(s[0]));
      InsertAscending(x, s[1..], key);
      var rest := Insert(x, s[1..], key);
      forall j | 0 <= j < |rest| ensures Less(key(s[0]), key(rest[j])) {
        assert rest[j] in rest;
        if rest[j] != x {
          var k :| 0 <= k < |s[1..]| && s[1..][k] == rest[j];
          assert s[k + 1] == rest[j];
        }
      }
    }
  }

  /** Sorting elements with different keys puts them in strictly ascending order. */
  lemma {:induction false} SortByAscending<T(!new)>(s: seq<T>, key: T -> Blob)
    requires DistinctKeys(s, key)
    ensures Ascending(SortBy(s, key), key)
  {
    if s != [] {
      var last := |s| - 1;
      SortByAscending(s[..last], key);
      InsertAscending(s[last], SortBy(s[..last], key), key);
    }
  }

  lemma AscendingHeadLeast<T>(s: seq<T>, key: T -> Blob, x: T)
    requires Ascending(s, key) && x in s
    ensures x == s[0] || Less(key(s[0]), key(x))
  {
    var i :| 0 <= i < |s| && s[i] == x;
  }

  /** Ascending sequences are determined by their elements. */
  lemma {:induction false} AscendingUnique<T(!new)>(a: seq<T>, b: seq<T>, key: T -> Blob)
    requires Ascending(a, key) && Ascending(b, key)
    requires |a| == |b| && forall x :: x in a <==> x in b
    ensures a == b
  {
    if a != [] {
      assert a[0] in b;
      assert b[0] in a;
      AscendingHeadLeast(a, key, b[0]);
      AscendingHeadLeast(b, key, a[0]);
      if a[0] != b[0] {
        LessAsymmetric(key(a[0]), key(b[0]));
      }
      TailElements(a, key);
      TailElements(b, key);
      AscendingUnique(a[1..], b[1..], key);
      assert a == [a[0]] + a[1..] && b == [b[0]] + b[1..];
    }
  }

  lemma TailElements<T(!new)>(s: seq<T>, key: T -> Blob)
    requires Ascending(s, key) && s != []
    ensures Ascending(s[1..], key)
    ensures forall x :: x in s[1..] <==> x in s && x != s[0]
  {
    forall x ensures x in s[1..] <==> x in s && x != s[0] {
      if x in s[1..] {
        var i :| 0 <= i < |s[1..]| && s[1..][i] == x;
        LessIrreflexive(key(x));
        assert s[i + 1] == x;
      }
      if x in s && x != s[0] {
        var i :| 0 <= i < |s| && s[i] == x;
        assert s[1..][i - 1] == x;
      }
    }
  }

  /** Sorting an ascending sequence changes nothing. */
  lemma SortByOfAscending<T(!new)>(s: seq<T>, key: T -> Blob)
    requires Ascending(s, key)
    ensures SortBy(s, key) == s
  {
    forall i, j | 0 <= i < j < |s| ensures key(s[i]) != key(s[j]) {
      LessIrreflexive(key(s[i]));
    }
    SortByAscending(s, key);
    AscendingUnique(SortBy(s, key), s, key);
  }

  // ---- counting ------------------------------------------------------------

  function Elements<T>(s: seq<T>): set<T> {
    set x | x in s
  }

  lemma {:induction false} NoDuplicatesCount<T>(s: seq<T>)
    requires NoDuplicates(s)
    ensures |Elements(s)| == |s|
  {
    if s != [] {
      NoDuplicatesCount(s[1..]);
      assert s == [s[0]] + s[1..];
      assert Elements(s) == {s[0]} + Elements(s[1..]);
      assert s[0] !in s[1..];
    }
  }

  lemma {:induction false} ElementsBound<T>(s: seq<T>)
    ensures |Elements(s)| <= |s|
    ensures |Elements(s)| == |s| ==> NoDuplicates(s)
  {
    if s != [] {
      ElementsBound(s[1..]);
      assert s == [s[0]] + s[1..];
      assert Elements(s) == {s[0]} + Elements(s[1..]);
      if |Elements(s)| == |s| {
        assert s[0] !in Elements(s[1..]);
        forall i, j | 0 <= i < j < |s| ensures s[i] != s[j] {
          assert s[j] == s[1..][j - 1];
          if i > 0 {
            assert s[i] == s[1..][i - 1];
          }
        }
      }
    }
  }

  lemma SubsetOfSameSize<T>(a: set<T>, b: set<T>)
    requires a <= b && |a| == |b|
    ensures a == b
  {
    assert b == a + (b - a);
    assert |b| == |a| + |b - a|;
  }

  /** Distinct elements that all occur in a sequence of the same length make up that sequence. */
  lemma SameLengthSubset<T>(a: seq<T>, b: seq<T>)
    requires NoDuplicates(a) && |a| == |b|
    requires forall x :: x in a ==> x in b
    ensures NoDuplicates(b)
    ensures forall x :: x in b ==> x in a
  {
    NoDuplicatesCount(a);
    ElementsBound(b);
    assert Elements(a) <= Elements(b);
    assert Elements(b) == Elements(a) + (Elements(b) - Elements(a));
    SubsetOfSameSize(Elements(a), Elements(b));
    forall x | x in b ensures x in a {
      assert x in Elements(b);
    }
  }

  /** Sorting forgets exactly the order of the input. */
  lemma SortByEqualIff<T(!new)>(a: seq<T>, b: seq<T>, key: T -> Blob)
    requires DistinctKeys(a, key)
    ensures SortBy(a, key) == SortBy(b, key) <==> |a| == |b| && forall x :: x in a ==> x in b
  {
    if |a| == |b| && forall x :: x in a ==> x in b {
      SameLengthSubset(a, b);
      forall i, j | 0 <= i < j < |b| ensures key(b[i]) != key(b[j]) {
        assert b[i] in a && b[j] in a;
        var k :| 0 <= k < |a| && a[k] == b[i];
        var l :| 0 <= l < |a| && a[l] == b[j];
        assert k != l;
      }
      SortByAscending(a, key);
      SortByAscending(b, key);
      AscendingUnique(SortBy(a, key), SortBy(b, key), key);
    }
    if SortBy(a, key) == SortBy(b, key) {
      forall x | x in a ensures x in b {
        assert x in SortBy(b, key);
      }
    }
  }

  // ---- the elements of a set, in key order ---------------------------------

  function Identity(b: Blob): Blob { b }

  ghost predicate Injective<T(!new)>(key: T -> Blob) {
    forall x, y :: key(x) == key(y) ==> x == y
  }

  predicate IsLeast<T>(x: T, s: set<T>, key: T -> Blob) {
    x in s && forall y :: y in s ==> x == y || Less(key(x), key(y))
  }

  lemma {:induction false} LeastExists<T(!new)>(s: set<T>, key: T -> Blob)
    requires s != {} && Injective(key)
    ensures exists x :: IsLeast(x, s, key)
  {
    var y :| y in s;
    if s == {y} {
      assert IsLeast(y, s, key);
    } else {
      var rest := s - {y};
      LeastExists(rest, key);
      var x :| IsLeast(x, rest, key);
      LessTotal(key(x), key(y));
      if Less(key(x), key(y)) {
        assert IsLeast(x, s, key);
      } else {
        forall z | z in s && z != y ensures Less(key(y), key(z)) {
          if z != x {
            LessTransitive(key(y), key(x), key(z));
          }
        }
        assert IsLeast(y, s, key);
      }
    }
  }

  function Least<T(!new)>(s: set<T>, key: T -> Blob): (x: T)
    requires s != {} && Injective(key)
    ensures IsLeast(x, s, key)
  {
    LeastExists(s, key);
    assert forall x, y | IsLeast(x, s, key) && IsLeast(y, s, key) :: x == y by {
      forall x, y | IsLeast(x, s, key) && IsLeast(y, s, key) ensures x == y {
        if x != y {
          LessAsymmetric(key(x), key(y));
        }
      }
    }
    var x :| IsLeast(x, s, key);
    x
  }

  /** The elements of a set in ascending order of their keys. */
  function Ordered<T(!new)>(s: set<T>, key: T -> Blob): (r: seq<T>)
    requires Injective(key)
    ensures |r| == |s|
  {
    if s == {} then
      []
    else
      var x := Least(s, key);
      [x] + Ordered(s - {x}, key)
  }

  /** `sorted(d)` for a dictionary with byte-string keys. */
  function SortedKeys(s: set<Blob>): (r: seq<Blob>)
    ensures |r| == |s|
  {
    Ordered(s, Identity)
  }

  ghost predicate IsOrdering<T(!new)>(r: seq<T>, s: set<T>, key: T -> Blob) {
    Ascending(r, key) && forall x :: x in r <==> x in s
  }

  lemma {:induction false} OrderedIsOrdering<T(!new)>(s: set<T>, key: T -> Blob)
    requires Injective(key)
    ensures IsOrdering(Ordered(s, key), s, key)
  {
    if s != {} {
      var x := Least(s, key);
      OrderedIsOrdering(s - {x}, key);
      var rest := Ordered(s - {x}, key);
      forall i | 0 <= i < |rest| ensures Less(key(x), key(rest[i])) {
        assert rest[i] in rest;
      }
    }
  }

  lemma AscendingNoDuplicates<T>(s: seq<T>, key: T -> Blob)
    requires Ascending(s, key)
    ensures NoDuplicates(s)
  {
    forall i, j | 0 <= i < j < |s| ensures s[i] != s[j] {
      LessIrreflexive(key(s[i]));
    }
  }

  /** There is only one ordering of a set. */
  lemma OrderingUnique<T(!new)>(a: seq<T>, b: seq<T>, s: set<T>, key: T -> Blob)
    requires IsOrdering(a, s, key) && IsOrdering(b, s, key)
    ensures a == b && |a| == |s|
  {
    AscendingNoDuplicates(a, key);
    AscendingNoDuplicates(b, key);
    NoDuplicatesCount(a);
    NoDuplicatesCount(b);
    assert Elements(a) == s;
    assert Elements(b) == s;
    AscendingUnique(a, b, key);
  }

  ghost predicate InOrder<T>(keys: seq<Blob>, order: seq<T>, key: T -> Blob) {
    |keys| == |order| && forall i :: 0 <= i < |order| ==> keys[i] == key(order[i])
  }

  ghost predicate IsImage<T(!new)>(encoded: set<Blob>, s: set<T>, key: T -> Blob) {
    && (forall x :: x in s ==> key(x) in encoded)
    && (forall b :: b in encoded ==> exists x :: x in s && key(x) == b)
  }

  /** Sorting the encodings of a set meets its elements in their key order. */
  lemma SortedImage<T(!new)>(s: set<T>, key: T -> Blob, encoded: set<Blob>)
    requires Injective(key) && IsImage(encoded, s, key)
    ensures |encoded| == |s|
    ensures InOrder(SortedKeys(encoded), Ordered(s, key), key)
  {
    hide Ordered, IsOrdering, IsImage;
    OrderedIsOrdering(s, key);
    OrderedIsOrdering(encoded, Identity);
    var image := Image(Ordered(s, key), key);
    ImageOrdering(Ordered(s, key), image, s, key, encoded);
    OrderingUnique(image, SortedKeys(encoded), encoded, Identity);
  }

  function Image<T>(order: seq<T>, key: T -> Blob): (image: seq<Blob>)
    ensures InOrder(image, order, key)
  {
    seq(|order|, i requires 0 <= i < |order| => key(order[i]))
  }

  lemma ImageOrdering<T(!new)>(order: seq<T>, image: seq<Blob>, s: set<T>, key: T -> Blob, encoded: set<Blob>)
    requires IsOrdering(order, s, key) && InOrder(image, order, key) && IsImage(encoded, s, key)
    ensures IsOrdering(image, encoded, Identity)
  {
    forall b | b in image ensures b in encoded {
      var i :| 0 <= i < |image| && image[i] == b;
      assert order[i] in s;
    }
    forall b | b in encoded ensures b in image {
      var x :| x in s && key(x) == b;
      assert x in order;
      var i :| 0 <= i < |order| && order[i] == x;
      assert image[i] == b;
    }
  }

  /** The first position that an iterator opened at `from` yields. */
  function Seek(keys: seq<Blob>, from: Blob): (i: nat)
    ensures i <= |keys|
    ensures forall j :: 0 <= j < i ==> Less(keys[j], from)
    ensures i < |keys| ==> !Less(keys[i], from)
  {
    if keys == [] || !Less(keys[0], from) then 0 else 1 + Seek(keys[1..], from)
  }

  /** Keys before the seek position do not start with the prefix. */
  lemma SeekSkips(keys: seq<Blob>, prefix: Blob, j: nat)
    requires j < Seek(keys, prefix)
    ensures !StartsWith(keys[j], prefix)
  {
    if StartsWith(keys[j], prefix) {
      PrefixIsLeast(prefix, keys[j]);
      LessAsymmetric(keys[j], prefix);
    }
  }

  /** A prefix scan may stop at the first key outside the prefix. */
  lemma PrefixScanStops(keys: seq<Blob>, prefix: Blob, i: nat, j: nat)
    requires Ascending(keys, Identity)
    requires Seek(keys, prefix) <= i <= j < |keys| && !StartsWith(keys[i], prefix)
    ensures !StartsWith(keys[j], prefix)
  {
    if StartsWith(keys[j], prefix) {
      var k := Seek(keys, prefix);
      LessTotal(keys[k], prefix);
      if k < i {
        assert Less(Identity(keys[k]), Identity(keys[i]));
        if prefix != keys[k] {
          LessTransitive(prefix, keys[k], keys[i]);
        }
      }
      assert i < j;
      assert Less(Identity(keys[i]), Identity(keys[j]));
      PrefixIsInterval(prefix, prefix, keys[i], keys[j]);
    }
  }

  // ---- filtered scans ------------------------------------------------------

  function Filter<T>(s: seq<T>, p: T -> bool): (r: seq<T>)
    ensures |r| <= |s|
  {
    if s == [] then
      []
    else
      var last := |s| - 1;
      Filter(s[..last], p) + (if p(s[last]) then [s[last]] else [])
  }

  lemma FilterStep<T>(s: seq<T>, p: T -> bool, i: nat)
    requires i < |s|
    ensures Filter(s[..i + 1], p) == Filter(s[..i], p) + (if p(s[i]) then [s[i]] else [])
  {
    assert s[..i + 1][..i] == s[..i];
  }

  lemma {:induction false} FilterMembers<T>(s: seq<T>, p: T -> bool, x: T)
    ensures x in Filter(s, p) <==> x in s && p(x)
  {
    if s != [] {
      var last := |s| - 1;
      FilterMembers(s[..last], p, x);
      assert s == s[..last] + [s[last]];
    }
  }

  lemma {:induction false} FilterAscending<T>(s: seq<T>, p: T -> bool, key: T -> Blob)
    requires Ascending(s, key)
    ensures Ascending(Filter(s, p), key)
  {
    if s != [] {
      var last := |s| - 1;
      var head := Filter(s[..last], p);
      FilterAscending(s[..last], p, key);
      forall i | 0 <= i < |head| ensures Less(key(head[i]), key(s[last])) {
        FilterMembers(s[..last], p, head[i]);
        var j :| 0 <= j < |s[..last]| && s[..last][j] == head[i];
      }
    }
  }

  /** A scan of a prefix finds a prefix of what the whole scan finds. */
  lemma {:induction false} FilterPrefix<T>(s: seq<T>, p: T -> bool, i: nat)
    requires i <= |s|
    ensures |Filter(s[..i], p)| <= |Filter(s, p)|
    ensures Filter(s, p)[..|Filter(s[..i], p)|] == Filter(s[..i], p)
    decreases |s| - i
  {
    if i < |s| {
      FilterPrefix(s, p, i + 1);
      FilterStep(s, p, i);
    } else {
      assert s[..i] == s;
    }
  }

  ghost predicate NoneFrom<T>(s: seq<T>, p: T -> bool, i: nat) {
    forall j :: i <= j < |s| ==> !p(s[j])
  }

  /** When nothing from `i` on qualifies, the scan may stop there. */
  lemma {:induction false} FilterStops<T>(s: seq<T>, p: T -> bool, i: nat)
    requires i <= |s| && NoneFrom(s, p, i)
    ensures Filter(s, p) == Filter(s[..i], p)
    decreases |s| - i
  {
    if i < |s| {
      FilterStep(s, p, i);
      FilterStops(s, p, i + 1);
    } else {
      assert s[..i] == s;
    }
  }

  /**
    A scan that stopped at `i` holds the first `n` matches, if it stopped because
    nothing follows or because it has `n`.
   */
  lemma ScanFinds<T>(s: seq<T>, p: T -> bool, i: nat, n: nat)
    requires i <= |s|
    requires var found := |Filter(s[..i], p)|;
      found == n || (found <= n && NoneFrom(s, p, i))
    ensures Filter(s[..i], p) == Filter(s, p)[..if n < |Filter(s, p)| then n else |Filter(s, p)|]
  {
    FilterPrefix(s, p, i);
    if NoneFrom(s, p, i) {
      FilterStops(s, p, i);
    }
  }

  /** Filtering an ordered set orders the filtered set. */
  lemma OrderedFilter<T(!new)>(s: set<T>, sub: set<T>, p: T -> bool, key: T -> Blob)
    requires Injective(key)
    requires forall x :: x in sub <==> x in s && p(x)
    ensures Ordered(sub, key) == Filter(Ordered(s, key), p)
  {
    var order := Ordered(s, key);
    var found := Filter(order, p);
    OrderedIsOrdering(s, key);
    OrderedIsOrdering(sub, key);
    FilterAscending(order, p, key);
    forall x ensures x in found <==> x in sub {
      FilterMembers(order, p, x);
    }
    OrderingUnique(found, Ordered(sub, key), sub, key);
  }
}
