/** The canonical form of a key decides Python equality, and survives decoding. */
module KeyEquality {
  import opened Bytes
  import opened Rationals
  import opened Sorting
  import opened KeyEncoding

  // ---- ratios --------------------------------------------------------------

  lemma RatioOfRational(p: Platform, v: Value)
    requires Valid(v) && IsRational(v)
    ensures DenominatorOf(v) > 0
    ensures Canonical(p, v) == CanonicalRatio(p, NumeratorOf(v), DenominatorOf(v))
  {
    if v.Bool? || v.Int? {
      var n := NumeratorOf(v);
      assert Gcd(1, 0) == 1;
      assert Gcd(Abs(n), 1) == 1;
      assert Reduced(n, 1) == (n, 1);
    }
  }

  lemma CanonicalRatioDecides(p: Platform, n: int, d: int, m: int, e: int)
    requires d > 0 && e > 0
    ensures CanonicalRatio(p, n, d) == CanonicalRatio(p, m, e) <==> n * e == m * d
  {
    EqualRatios(n, d, m, e);
  }

  // ---- ranges --------------------------------------------------------------

  lemma DivisionStep(x: int, d: int)
    requires d > 0
    ensures (x + d) / d == x / d + 1
    ensures 0 <= x < d ==> x / d == 0
  {
    Quotient(x - x % d, d, x / d);
    assert x == d * (x / d) + x % d;
    assert x + d == d * (x / d + 1) + x % d;
    Quotient((x + d) - x % d, d, x / d + 1) by { assert d * (x / d + 1) == d * (x / d) + d; }
    var z := (x + d) / d - (x / d + 1);
    assert d * z + (x + d) % d - x % d == 0 by {
      assert d * z == d * ((x + d) / d) - d * (x / d + 1);
    }
    assert z >= 1 ==> d * z >= d;
    assert z <= -1 ==> d * z <= -d;
  }

  /** The size formula counts the elements, which step evenly from the start. */
  lemma {:induction false} RangeShape(start: int, stop: int, step: int)
    requires step != 0
    ensures var r := RangeElements(start, stop, step);
      |r| == RangeSize(start, stop, step) && forall i :: 0 <= i < |r| ==> r[i] == start + i * step
    decreases if step > 0 then stop - start else start - stop
  {
    if !(if step > 0 then start >= stop else start <= stop) {
      RangeShape(start + step, stop, step);
      var r := RangeElements(start, stop, step);
      forall i | 0 <= i < |r| ensures r[i] == start + i * step {
        if i > 0 {
          assert i * step == step + (i - 1) * step;
        }
      }
      if step > 0 {
        DivisionStep(stop - start - 1 - step, step);
        DivisionStep(stop - start - 1, step);
      } else {
        DivisionStep(start - stop - 1 + step, -step);
        DivisionStep(start - stop - 1, -step);
      }
    }
  }

  /** Canonical ranges coincide exactly when the ranges yield the same integers. */
  lemma CanonicalRangeDecides(a: int, b: int, c: int, d: int, e: int, f: int)
    requires c != 0 && f != 0
    ensures CanonicalRange(a, b, c) == CanonicalRange(d, e, f)
       <==> RangeElements(a, b, c) == RangeElements(d, e, f)
  {
    RangeShape(a, b, c);
    RangeShape(d, e, f);
    var r, s := RangeElements(a, b, c), RangeElements(d, e, f);
    if r == s {
      if |r| >= 1 {
        assert r[0] == a + 0 * c && s[0] == d + 0 * f;
        if |r| >= 2 {
          assert r[1] == a + 1 * c && s[1] == d + 1 * f;
        }
      }
    }
    if CanonicalRange(a, b, c) == CanonicalRange(d, e, f) {
      SpanDeterminesSize(c, |r|, |s|);
      SpanNonZero(c, |r|);
      SpanNonZero(f, |s|);
      assert |r| == |s|;
      forall i | 0 <= i < |r| ensures r[i] == s[i] {
        assert |r| == 1 ==> i * c == 0 && i * f == 0;
      }
    }
  }

  lemma SpanDeterminesSize(step: int, m: nat, n: nat)
    requires step != 0
    ensures step * m == step * n ==> m == n
    ensures step * m == step ==> m == 1
    ensures step * n == step ==> n == 1
  {
    NonZeroProduct(step, m - n);
    NonZeroProduct(step, m - 1);
    NonZeroProduct(step, n - 1);
    assert step * (m - n) == step * m - step * n;
    assert step * (m - 1) == step * m - step;
    assert step * (n - 1) == step * n - step;
  }

  lemma SpanNonZero(step: int, n: nat)
    requires step != 0
    ensures n > 0 ==> step * n != 0
  {
    NonZeroProduct(step, n);
  }

  lemma NonZeroProduct(a: int, b: int)
    ensures a != 0 && b != 0 ==> a * b != 0
  {
  }

  /** A canonical range is its own canonical form. */
  lemma CanonicalRangeTwice(a: int, b: int, c: int)
    requires c != 0
    ensures var r := CanonicalRange(a, b, c);
      r.step != 0 && CanonicalRange(r.start, r.stop, r.step) == r
  {
    RangeShape(a, b, c);
    var size := RangeSize(a, b, c);
    if size >= 2 {
      FullRange(a, c, size);
    }
  }

  lemma FullRange(a: int, c: int, size: int)
    requires c != 0 && size >= 1
    ensures RangeSize(a, a + c * size, c) == size
  {
    if c > 0 {
      FullSpan(c, size);
    } else {
      FullSpan(-c, size);
      assert -c * size == -(c * size);
    }
  }

  lemma FullSpan(c: int, size: int)
    requires c > 0 && size >= 1
    ensures c * size > 0 && (c * size - 1) / c + 1 == size
  {
    assert c * size - 1 == c * (size - 1) + (c - 1);
    var z := (c * size - 1) / c - (size - 1);
    assert c * z == c * ((c * size - 1) / c) - c * (size - 1);
    assert z >= 1 ==> c * z >= c;
    assert z <= -1 ==> c * z <= -c;
  }

  // ---- the main theorem ----------------------------------------------------

  /** The classes of values between which Python equality never holds. */
  datatype Kind = NoKey | TextKey | BytesKey | RationalKey | InfiniteKey
    | TupleKey | ListKey | RangeKey | DictKey | SetKey

  function KindOf(v: Value): Kind {
    match v
    case NoneValue => NoKey
    case Text(_) => TextKey
    case ByteString(_) => BytesKey
    case ByteArray(_) => BytesKey
    case FloatInfinity(_) => InfiniteKey
    case DecimalInfinity(_) => InfiniteKey
    case Tuple(_) => TupleKey
    case List(_) => ListKey
    case Range(_, _, _) => RangeKey
    case Dict(_) => DictKey
    case Set(_, _) => SetKey
    case CanonicalSet(_) => SetKey
    case _ => RationalKey
  }

  lemma KindOfCanonical(p: Platform, v: Value)
    ensures KindOf(Canonical(p, v)) == KindOf(v)
  {
  }

  lemma KindOfEqual(a: Value, b: Value)
    requires PyEqual(a, b)
    ensures KindOf(a) == KindOf(b)
  {
  }

  /** Canonical forms coincide exactly when Python calls the keys equal. */
  lemma {:induction false} CanonicalDecidesEquality(p: Platform, a: Value, b: Value)
    requires Faithful(p) && Valid(a) && Valid(b)
    ensures Canonical(p, a) == Canonical(p, b) <==> PyEqual(a, b)
    decreases a, 2
  {
    KindOfCanonical(p, a);
    KindOfCanonical(p, b);
    if PyEqual(a, b) {
      KindOfEqual(a, b);
    }
    if KindOf(a) == KindOf(b) {
      match KindOf(a)
      case TupleKey => SequenceEquality(p, a, b);
      case ListKey => SequenceEquality(p, a, b);
      case DictKey => DictionaryEquality(p, a, b);
      case SetKey => SetEquality(p, a, b);
      case _ => ScalarEquality(p, a, b);
    }
  }

  lemma ScalarEquality(p: Platform, a: Value, b: Value)
    requires Valid(a) && Valid(b) && KindOf(a) == KindOf(b)
    requires !a.Tuple? && !a.List? && !a.Dict? && !a.Set?
    ensures Canonical(p, a) == Canonical(p, b) <==> PyEqual(a, b)
  {
    if IsRational(a) {
      RatioOfRational(p, a);
      RatioOfRational(p, b);
      CanonicalRatioDecides(p, NumeratorOf(a), DenominatorOf(a), NumeratorOf(b), DenominatorOf(b));
    } else if a.Range? {
      CanonicalRangeDecides(a.start, a.stop, a.step, b.start, b.stop, b.step);
    }
  }

  /** The theorem for the children of `parent`, each against each child of the other side. */
  lemma PointwiseEquality(p: Platform, parent: Value, xs: seq<Value>, ys: seq<Value>)
    requires Faithful(p)
    requires forall i :: 0 <= i < |xs| ==> xs[i] < parent && Valid(xs[i])
    requires forall j :: 0 <= j < |ys| ==> Valid(ys[j])
    ensures forall i, j :: 0 <= i < |xs| && 0 <= j < |ys| ==>
      (Canonical(p, xs[i]) == Canonical(p, ys[j]) <==> PyEqual(xs[i], ys[j]))
    decreases parent, 0
  {
    forall i, j | 0 <= i < |xs| && 0 <= j < |ys|
      ensures Canonical(p, xs[i]) == Canonical(p, ys[j]) <==> PyEqual(xs[i], ys[j])
    {
      CanonicalDecidesEquality(p, xs[i], ys[j]);
    }
  }

  function CanonicalItems(p: Platform, xs: seq<Value>): (r: seq<Value>)
    ensures |r| == |xs| && forall i :: 0 <= i < |xs| ==> r[i] == Canonical(p, xs[i])
  {
    seq(|xs|, i requires 0 <= i < |xs| => Canonical(p, xs[i]))
  }

  lemma SequenceForm(p: Platform, xs: seq<Value>)
    ensures Canonical(p, Tuple(xs)) == Tuple(CanonicalItems(p, xs))
    ensures Canonical(p, List(xs)) == List(CanonicalItems(p, xs))
  {
    assert Canonical(p, Tuple(xs)).items == CanonicalItems(p, xs);
    assert Canonical(p, List(xs)).items == CanonicalItems(p, xs);
  }

  ghost predicate Pointwise(xs: seq<Value>, ys: seq<Value>) {
    |xs| == |ys| && forall i :: 0 <= i < |xs| ==> PyEqual(xs[i], ys[i])
  }

  lemma SamePointwise(p: Platform, xs: seq<Value>, ys: seq<Value>)
    requires forall i, j :: 0 <= i < |xs| && 0 <= j < |ys| ==>
      (Canonical(p, xs[i]) == Canonical(p, ys[j]) <==> PyEqual(xs[i], ys[j]))
    ensures CanonicalItems(p, xs) == CanonicalItems(p, ys) <==> Pointwise(xs, ys)
  {
    var a, b := CanonicalItems(p, xs), CanonicalItems(p, ys);
    if a == b {
      forall i | 0 <= i < |xs| ensures PyEqual(xs[i], ys[i]) {
        assert a[i] == b[i];
      }
    }
  }

  lemma SequenceEquality(p: Platform, a: Value, b: Value)
    requires Faithful(p) && Valid(a) && Valid(b)
    requires (a.Tuple? && b.Tuple?) || (a.List? && b.List?)
    ensures Canonical(p, a) == Canonical(p, b) <==> PyEqual(a, b)
    decreases a, 1
  {
    PointwiseEquality(p, a, a.items, b.items);
    SamePointwise(p, a.items, b.items);
    assert PyEqual(a, b) <==> Pointwise(a.items, b.items);
    SequenceForm(p, a.items);
    SequenceForm(p, b.items);
  }

  ghost predicate Covered<T(!new)>(c: seq<T>, d: seq<T>) {
    forall x :: x in c ==> x in d
  }

  lemma SetForm(p: Platform, v: Value)
    requires v.Set?
    ensures Canonical(p, v) == CanonicalSet(SortBy(CanonicalItems(p, v.items), p.dumps))
  {
    var c := CanonicalItems(p, v.items);
    assert c == seq(|v.items|, i requires 0 <= i < |v.items| => Canonical(p, v.items[i]));
  }

  lemma SetCovered(p: Platform, a: Value, b: Value)
    requires a.Set? && b.Set?
    requires forall i, j :: 0 <= i < |a.items| && 0 <= j < |b.items| ==>
      (Canonical(p, a.items[i]) == Canonical(p, b.items[j]) <==> PyEqual(a.items[i], b.items[j]))
    ensures var c, d := CanonicalItems(p, a.items), CanonicalItems(p, b.items);
      |c| == |d| && Covered(c, d) <==> PyEqual(a, b)
  {
    var xs, ys := a.items, b.items;
    var c, d := CanonicalItems(p, xs), CanonicalItems(p, ys);
    if PyEqual(a, b) {
      forall x | x in c ensures x in d {
        var i :| 0 <= i < |c| && c[i] == x;
        assert HasEqual(xs[i], ys);
        var j :| 0 <= j < |ys| && PyEqual(xs[i], ys[j]);
        assert d[j] == x;
      }
    }
    if |c| == |d| && Covered(c, d) {
      forall i | 0 <= i < |xs| ensures HasEqual(xs[i], ys) {
        assert c[i] in d;
        var j :| 0 <= j < |d| && d[j] == c[i];
        assert PyEqual(xs[i], ys[j]);
      }
    }
  }

  lemma SetEquality(p: Platform, a: Value, b: Value)
    requires Faithful(p) && Valid(a) && Valid(b) && a.Set? && b.Set?
    ensures Canonical(p, a) == Canonical(p, b) <==> PyEqual(a, b)
    decreases a, 1
  {
    PointwiseEquality(p, a, a.items, b.items);
    SetCovered(p, a, b);
    SetKeysDistinct(p, a);
    SortByEqualIff(CanonicalItems(p, a.items), CanonicalItems(p, b.items), p.dumps);
    SetForm(p, a);
    SetForm(p, b);
  }

  /** Elements that Python tells apart are pickled differently. */
  lemma SetKeysDistinct(p: Platform, a: Value)
    requires Faithful(p) && Valid(a) && a.Set?
    ensures DistinctKeys(CanonicalItems(p, a.items), p.dumps)
    decreases a, 0
  {
    var xs := a.items;
    forall i, j | 0 <= i < j < |xs| ensures p.dumps(Canonical(p, xs[i])) != p.dumps(Canonical(p, xs[j])) {
      CanonicalDecidesEquality(p, xs[i], xs[j]);
    }
  }

  function CanonicalEntries(p: Platform, xs: seq<(Value, Value)>): (r: seq<(Value, Value)>)
    ensures |r| == |xs|
    ensures forall i :: 0 <= i < |xs| ==> r[i] == (Canonical(p, xs[i].0), Canonical(p, xs[i].1))
  {
    seq(|xs|, i requires 0 <= i < |xs| => (Canonical(p, xs[i].0), Canonical(p, xs[i].1)))
  }

  lemma DictionaryForm(p: Platform, v: Value)
    requires v.Dict?
    ensures Canonical(p, v) == Dict(SortBy(CanonicalEntries(p, v.entries), EntryKey(p)))
  {
    var xs := v.entries;
    assert CanonicalEntries(p, xs)
        == seq(|xs|, i requires 0 <= i < |xs| => (Canonical(p, xs[i].0), Canonical(p, xs[i].1)));
  }

  lemma DictionaryCovered(p: Platform, a: Value, b: Value)
    requires a.Dict? && b.Dict?
    requires forall i, j :: 0 <= i < |a.entries| && 0 <= j < |b.entries| ==>
      (CanonicalEntries(p, a.entries)[i] == CanonicalEntries(p, b.entries)[j]
       <==> EqualEntries(a.entries[i], b.entries[j]))
    ensures var c, d := CanonicalEntries(p, a.entries), CanonicalEntries(p, b.entries);
      |c| == |d| && Covered(c, d) <==> PyEqual(a, b)
  {
    var xs, ys := a.entries, b.entries;
    var c, d := CanonicalEntries(p, xs), CanonicalEntries(p, ys);
    if PyEqual(a, b) {
      forall x | x in c ensures x in d {
        var i :| 0 <= i < |c| && c[i] == x;
        assert HasEqualEntry(xs[i], ys);
        var j :| 0 <= j < |ys| && EqualEntries(xs[i], ys[j]);
        assert d[j] == x;
      }
    }
    if |c| == |d| && Covered(c, d) {
      forall i | 0 <= i < |xs| ensures HasEqualEntry(xs[i], ys) {
        assert c[i] in d;
        var j :| 0 <= j < |d| && d[j] == c[i];
        assert EqualEntries(xs[i], ys[j]);
      }
    }
  }

  lemma EntriesEquality(p: Platform, a: Value, i: nat, y: (Value, Value))
    requires Faithful(p) && Valid(a) && a.Dict? && i < |a.entries| && Valid(y.0) && Valid(y.1)
    ensures var x := a.entries[i];
      Canonical(p, x.0) == Canonical(p, y.0) && Canonical(p, x.1) == Canonical(p, y.1) <==> EqualEntries(x, y)
    decreases a, 0
  {
    CanonicalDecidesEquality(p, a.entries[i].0, y.0);
    CanonicalDecidesEquality(p, a.entries[i].1, y.1);
  }

  lemma DictionaryEquality(p: Platform, a: Value, b: Value)
    requires Faithful(p) && Valid(a) && Valid(b) && a.Dict? && b.Dict?
    ensures Canonical(p, a) == Canonical(p, b) <==> PyEqual(a, b)
    decreases a, 1
  {
    var c, d := CanonicalEntries(p, a.entries), CanonicalEntries(p, b.entries);
    forall i, j | 0 <= i < |a.entries| && 0 <= j < |b.entries|
      ensures c[i] == d[j] <==> EqualEntries(a.entries[i], b.entries[j])
    {
      EntriesEquality(p, a, i, b.entries[j]);
    }
    DictionaryCovered(p, a, b);
    DictionaryKeysDistinct(p, a);
    SortByEqualIff(c, d, EntryKey(p));
    DictionaryForm(p, a);
    DictionaryForm(p, b);
  }

  lemma DictionaryKeysDistinct(p: Platform, a: Value)
    requires Faithful(p) && Valid(a) && a.Dict?
    ensures DistinctKeys(CanonicalEntries(p, a.entries), EntryKey(p))
    decreases a, 0
  {
    var xs := a.entries;
    forall i, j | 0 <= i < j < |xs|
      ensures p.dumps(Canonical(p, xs[i].0)) != p.dumps(Canonical(p, xs[j].0))
    {
      CanonicalDecidesEquality(p, xs[i].0, xs[j].0);
    }
  }

  // ---- consequences --------------------------------------------------------

  /** On valid keys Python's `==` is an equivalence, although `PyEqual` is not defined as one. */
  lemma PyEqualIsEquivalence(p: Platform, a: Value, b: Value, c: Value)
    requires Faithful(p) && Valid(a) && Valid(b) && Valid(c)
    ensures PyEqual(a, a)
    ensures PyEqual(a, b) ==> PyEqual(b, a)
    ensures PyEqual(a, b) && PyEqual(b, c) ==> PyEqual(a, c)
  {
    CanonicalDecidesEquality(p, a, a);
    CanonicalDecidesEquality(p, a, b);
    CanonicalDecidesEquality(p, b, a);
    CanonicalDecidesEquality(p, b, c);
    CanonicalDecidesEquality(p, a, c);
  }

  lemma ReducedRatioTwice(p: Platform, n: int, d: int)
    requires d > 0
    ensures var c := CanonicalRatio(p, n, d); Valid(c) && Canonical(p, c) == c
  {
    ReducedTwice(n, d);
  }

  ghost predicate Stable(p: Platform, c: Value) {
    Canonical(p, c) == c
  }

  /** Canonicalising twice changes nothing. */
  lemma {:induction false} CanonicalTwice(p: Platform, v: Value)
    requires Faithful(p) && Valid(v)
    ensures Stable(p, Canonical(p, v))
    decreases v
  {
    match v
    case Tuple(xs) =>
      forall i | 0 <= i < |xs| ensures Stable(p, Canonical(p, xs[i])) { CanonicalTwice(p, xs[i]); }
      SequenceTwice(p, xs);
    case List(xs) =>
      forall i | 0 <= i < |xs| ensures Stable(p, Canonical(p, xs[i])) { CanonicalTwice(p, xs[i]); }
      SequenceTwice(p, xs);
    case Dict(xs) =>
      forall i | 0 <= i < |xs|
        ensures Stable(p, Canonical(p, xs[i].0)) && Stable(p, Canonical(p, xs[i].1))
      {
        CanonicalTwice(p, xs[i].0);
        CanonicalTwice(p, xs[i].1);
      }
      DictionaryTwice(p, v);
    case Set(_, _) =>
    case _ => ScalarTwice(p, v);
  }

  lemma ScalarTwice(p: Platform, v: Value)
    requires Valid(v) && !v.Tuple? && !v.List? && !v.Dict? && !v.Set?
    ensures Stable(p, Canonical(p, v))
  {
    if IsRational(v) {
      RatioOfRational(p, v);
      ReducedRatioTwice(p, NumeratorOf(v), DenominatorOf(v));
    } else if v.Range? {
      CanonicalRangeTwice(v.start, v.stop, v.step);
    }
  }

  lemma SequenceTwice(p: Platform, xs: seq<Value>)
    requires forall i :: 0 <= i < |xs| ==> Stable(p, Canonical(p, xs[i]))
    ensures Stable(p, Canonical(p, Tuple(xs))) && Stable(p, Canonical(p, List(xs)))
  {
    SequenceForm(p, xs);
    StableItems(p, CanonicalItems(p, xs));
    SequenceForm(p, CanonicalItems(p, xs));
  }

  lemma StableItems(p: Platform, cs: seq<Value>)
    requires forall c :: c in cs ==> Stable(p, c)
    ensures CanonicalItems(p, cs) == cs
  {
    forall i | 0 <= i < |cs| ensures Stable(p, cs[i]) {
      assert cs[i] in cs;
    }
  }

  lemma DictionaryTwice(p: Platform, v: Value)
    requires Faithful(p) && Valid(v) && v.Dict?
    requires forall i :: 0 <= i < |v.entries| ==>
      Stable(p, Canonical(p, v.entries[i].0)) && Stable(p, Canonical(p, v.entries[i].1))
    ensures Stable(p, Canonical(p, v))
  {
    var c := CanonicalEntries(p, v.entries);
    var sorted := SortBy(c, EntryKey(p));
    DictionaryForm(p, v);
    DictionaryKeysDistinct(p, v);
    SortByAscending(c, EntryKey(p));
    forall i | 0 <= i < |sorted| ensures Stable(p, sorted[i].0) && Stable(p, sorted[i].1) {
      assert sorted[i] in c;
    }
    assert CanonicalEntries(p, sorted) == sorted;
    DictionaryForm(p, Dict(sorted));
    SortByOfAscending(sorted, EntryKey(p));
  }

  /** `w` is a valid key whose canonical form is `c`. */
  ghost predicate Restores(p: Platform, w: Value, c: Value) {
    Valid(w) && Canonical(p, w) == c
  }

  /** Decoding the canonical form of `v` restores it. */
  ghost predicate RoundTrips(p: Platform, v: Value) {
    Restores(p, Thawed(Canonical(p, v)), Canonical(p, v))
  }

  /** Unpickling a canonical key yields a valid key with that canonical form. */
  lemma {:induction false} DecodedKeepsCanonicalForm(p: Platform, v: Value)
    requires Faithful(p) && Valid(v)
    ensures RoundTrips(p, v)
    decreases v
  {
    match v
    case Tuple(xs) =>
      forall i | 0 <= i < |xs| ensures RoundTrips(p, xs[i]) { DecodedKeepsCanonicalForm(p, xs[i]); }
      DecodedSequence(p, xs);
    case List(xs) =>
      forall i | 0 <= i < |xs| ensures RoundTrips(p, xs[i]) { DecodedKeepsCanonicalForm(p, xs[i]); }
      DecodedSequence(p, xs);
    case Dict(xs) =>
      assert EntriesRoundTrip(p, xs) by {
        forall i | 0 <= i < |xs| ensures RoundTrips(p, xs[i].0) && RoundTrips(p, xs[i].1) {
          DecodedKeepsCanonicalForm(p, xs[i].0);
          DecodedKeepsCanonicalForm(p, xs[i].1);
        }
      }
      DecodedDictionary(p, v);
    case Set(_, xs) =>
      assert ItemsRoundTrip(p, xs) by {
        forall i | 0 <= i < |xs| ensures RoundTrips(p, xs[i]) { DecodedKeepsCanonicalForm(p, xs[i]); }
      }
      DecodedSet(p, v);
    case _ => DecodedScalar(p, v);
  }

  lemma DecodedScalar(p: Platform, v: Value)
    requires Valid(v) && !v.Tuple? && !v.List? && !v.Dict? && !v.Set?
    ensures RoundTrips(p, v)
  {
    if IsRational(v) {
      RatioOfRational(p, v);
      ReducedRatioTwice(p, NumeratorOf(v), DenominatorOf(v));
    } else if v.Range? {
      CanonicalRangeTwice(v.start, v.stop, v.step);
    }
  }

  lemma DecodedSequence(p: Platform, xs: seq<Value>)
    requires forall i :: 0 <= i < |xs| ==> RoundTrips(p, xs[i])
    ensures RoundTrips(p, Tuple(xs)) && RoundTrips(p, List(xs))
  {
    hide PyEqual, Valid;
    var cs := CanonicalItems(p, xs);
    forall c | c in cs ensures Restores(p, Thawed(c), c) {
      var i :| 0 <= i < |xs| && cs[i] == c;
      assert RoundTrips(p, xs[i]);
    }
    SequenceRestored(p, xs, cs);
  }

  lemma SequenceRestored(p: Platform, xs: seq<Value>, cs: seq<Value>)
    requires cs == CanonicalItems(p, xs) && AllRestored(p, cs)
    ensures RoundTrips(p, Tuple(xs)) && RoundTrips(p, List(xs))
  {
    hide Canonical, Thawed, PyEqual, AllRestored;
    ThawedItems(p, cs);
    SequenceForm(p, xs);
    ThawedForms(cs);
    SequenceForm(p, ThawedAll(cs));
  }

  function ThawedAll(cs: seq<Value>): (r: seq<Value>)
    ensures |r| == |cs| && forall i :: 0 <= i < |cs| ==> r[i] == Thawed(cs[i])
  {
    seq(|cs|, i requires 0 <= i < |cs| => Thawed(cs[i]))
  }

  lemma ThawedForms(cs: seq<Value>)
    ensures Thawed(Tuple(cs)) == Tuple(ThawedAll(cs)) && Thawed(List(cs)) == List(ThawedAll(cs))
    ensures Thawed(CanonicalSet(cs)) == Set(true, ThawedAll(cs))
  {
    assert Thawed(Tuple(cs)).items == ThawedAll(cs);
    assert Thawed(List(cs)).items == ThawedAll(cs);
    assert Thawed(CanonicalSet(cs)).items == ThawedAll(cs);
  }

  lemma ThawedItems(p: Platform, cs: seq<Value>)
    requires AllRestored(p, cs)
    ensures CanonicalItems(p, ThawedAll(cs)) == cs && AllValid(ThawedAll(cs))
  {
    forall i | 0 <= i < |cs| ensures Restores(p, Thawed(cs[i]), cs[i]) {
      assert cs[i] in cs;
    }
  }

  ghost predicate AllValid(ws: seq<Value>) {
    forall i :: 0 <= i < |ws| ==> Valid(ws[i])
  }

  ghost predicate ItemsRoundTrip(p: Platform, xs: seq<Value>) {
    forall i :: 0 <= i < |xs| ==> RoundTrips(p, xs[i])
  }

  ghost predicate AllRestored(p: Platform, cs: seq<Value>) {
    forall c :: c in cs ==> Restores(p, Thawed(c), c)
  }

  lemma DecodedSet(p: Platform, v: Value)
    requires Faithful(p) && Valid(v) && v.Set? && ItemsRoundTrip(p, v.items)
    ensures RoundTrips(p, v)
  {
    var c := CanonicalItems(p, v.items);
    var sorted := SortBy(c, p.dumps);
    assert Ascending(sorted, p.dumps) by {
      SetKeysDistinct(p, v);
      SortByAscending(c, p.dumps);
    }
    assert AllRestored(p, sorted) by {
      forall x | x in sorted ensures Restores(p, Thawed(x), x) {
        var i :| 0 <= i < |c| && c[i] == x;
        assert RoundTrips(p, v.items[i]);
      }
    }
    SetForm(p, v);
    RestoredSet(p, v, sorted);
  }

  lemma RestoredSet(p: Platform, v: Value, cs: seq<Value>)
    requires Faithful(p) && Ascending(cs, p.dumps) && AllRestored(p, cs)
    requires Canonical(p, v) == CanonicalSet(cs)
    ensures RoundTrips(p, v)
  {
    hide PyEqual, Canonical, Thawed, SortBy, Ascending, AllRestored;
    var ws := ThawedAll(cs);
    ThawedItems(p, cs);
    RestoredItemsDistinct(p, ws, cs);
    ThawedForms(cs);
    SetForm(p, Set(true, ws));
    SortByOfAscending(cs, p.dumps);
  }

  lemma RestoredItemsDistinct(p: Platform, ws: seq<Value>, cs: seq<Value>)
    requires Faithful(p) && Ascending(cs, p.dumps) && CanonicalItems(p, ws) == cs && AllValid(ws)
    ensures forall i, j :: 0 <= i < j < |ws| ==> !PyEqual(ws[i], ws[j])
  {
    forall i, j | 0 <= i < j < |ws| ensures !PyEqual(ws[i], ws[j]) {
      LessIrreflexive(p.dumps(cs[i]));
      assert CanonicalItems(p, ws)[i] != CanonicalItems(p, ws)[j];
      CanonicalDecidesEquality(p, ws[i], ws[j]);
    }
  }

  function ThawedEntries(cs: seq<(Value, Value)>): (r: seq<(Value, Value)>)
    ensures |r| == |cs| && forall i :: 0 <= i < |cs| ==> r[i] == (Thawed(cs[i].0), Thawed(cs[i].1))
  {
    seq(|cs|, i requires 0 <= i < |cs| => (Thawed(cs[i].0), Thawed(cs[i].1)))
  }

  ghost predicate RestoresEntry(p: Platform, w: (Value, Value), c: (Value, Value)) {
    Restores(p, w.0, c.0) && Restores(p, w.1, c.1)
  }

  ghost predicate EntriesRoundTrip(p: Platform, xs: seq<(Value, Value)>) {
    forall i :: 0 <= i < |xs| ==> RoundTrips(p, xs[i].0) && RoundTrips(p, xs[i].1)
  }

  lemma SortedEntriesRestored(p: Platform, v: Value)
    requires Faithful(p) && Valid(v) && v.Dict? && EntriesRoundTrip(p, v.entries)
    ensures var sorted := SortBy(CanonicalEntries(p, v.entries), EntryKey(p));
      forall i :: 0 <= i < |sorted| ==> RestoresEntry(p, ThawedEntries(sorted)[i], sorted[i])
  {
    hide PyEqual, Valid, Faithful, Canonical, Thawed;
    var c := CanonicalEntries(p, v.entries);
    var sorted := SortBy(c, EntryKey(p));
    forall i | 0 <= i < |sorted| ensures RestoresEntry(p, ThawedEntries(sorted)[i], sorted[i]) {
      assert sorted[i] in c;
      var k :| 0 <= k < |c| && c[k] == sorted[i];
      assert RoundTrips(p, v.entries[k].0) && RoundTrips(p, v.entries[k].1);
    }
  }

  lemma DecodedDictionary(p: Platform, v: Value)
    requires Faithful(p) && Valid(v) && v.Dict? && EntriesRoundTrip(p, v.entries)
    ensures RoundTrips(p, v)
  {
    var c := CanonicalEntries(p, v.entries);
    var sorted := SortBy(c, EntryKey(p));
    assert Ascending(sorted, EntryKey(p)) by {
      DictionaryKeysDistinct(p, v);
      SortByAscending(c, EntryKey(p));
    }
    SortedEntriesRestored(p, v);
    DictionaryForm(p, v);
    ThawedDictionary(sorted);
    RestoredDictionary(p, v, ThawedEntries(sorted), sorted);
  }

  lemma ThawedDictionary(cs: seq<(Value, Value)>)
    ensures Thawed(Dict(cs)) == Dict(ThawedEntries(cs))
  {
    assert Thawed(Dict(cs)).entries == ThawedEntries(cs);
  }

  lemma RestoredDictionary(p: Platform, v: Value, ws: seq<(Value, Value)>, cs: seq<(Value, Value)>)
    requires Faithful(p) && Ascending(cs, EntryKey(p)) && |ws| == |cs|
    requires forall i :: 0 <= i < |cs| ==> RestoresEntry(p, ws[i], cs[i])
    requires Canonical(p, v) == Dict(cs) && Thawed(Dict(cs)) == Dict(ws)
    ensures RoundTrips(p, v)
  {
    hide PyEqual, RestoresEntry, Canonical, Thawed, SortBy, Ascending;
    RestoredKeysDistinct(p, ws, cs);
    RestoredEntries(p, ws, cs);
    DictionaryForm(p, Dict(ws));
    SortByOfAscending(cs, EntryKey(p));
  }

  lemma RestoredKeysDistinct(p: Platform, ws: seq<(Value, Value)>, cs: seq<(Value, Value)>)
    requires Faithful(p) && Ascending(cs, EntryKey(p)) && |ws| == |cs|
    requires forall i :: 0 <= i < |cs| ==> RestoresEntry(p, ws[i], cs[i])
    ensures forall i, j :: 0 <= i < j < |ws| ==> !PyEqual(ws[i].0, ws[j].0)
  {
    forall i, j | 0 <= i < j < |ws| ensures !PyEqual(ws[i].0, ws[j].0) {
      assert RestoresEntry(p, ws[i], cs[i]) && RestoresEntry(p, ws[j], cs[j]);
      LessIrreflexive(EntryKey(p)(cs[i]));
      assert Less(EntryKey(p)(cs[i]), EntryKey(p)(cs[j]));
      CanonicalDecidesEquality(p, ws[i].0, ws[j].0);
    }
  }

  lemma RestoredEntries(p: Platform, ws: seq<(Value, Value)>, cs: seq<(Value, Value)>)
    requires |ws| == |cs| && forall i :: 0 <= i < |cs| ==> RestoresEntry(p, ws[i], cs[i])
    ensures CanonicalEntries(p, ws) == cs
    ensures forall i :: 0 <= i < |ws| ==> Valid(ws[i].0) && Valid(ws[i].1)
  {
    forall i | 0 <= i < |ws|
      ensures CanonicalEntries(p, ws)[i] == cs[i] && Valid(ws[i].0) && Valid(ws[i].1)
    {
      assert RestoresEntry(p, ws[i], cs[i]);
    }
  }

  /** A key that went through storage still equals the key that was stored. */
  lemma DecodedKeyIsEqual(p: Platform, v: Value)
    requires Faithful(p) && Valid(v)
    ensures Valid(Thawed(Canonical(p, v)))
    ensures PyEqual(Thawed(Canonical(p, v)), v)
  {
    DecodedKeepsCanonicalForm(p, v);
    CanonicalDecidesEquality(p, Thawed(Canonical(p, v)), v);
  }
}
