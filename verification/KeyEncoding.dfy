/**
  Equality-preserving canonicalisation of state keys: `key_encoding.py`.

  `PyEqual` is Python's `==` on the supported structural keys, written down
  independently of the canonical form; the main theorem says the two agree.
 */
module KeyEncoding {
  import opened Bytes
  import opened Rationals
  import opened Sorting

  /**
    Keys as Python values. Fractions, finite floats and decimals carry the ratio
    they denote, in any terms; collections carry their iteration order.
   */
  datatype Value =
    | NoneValue
    | Text(text: string)
    | ByteString(bytes: Blob)
    | ByteArray(bytes: Blob)
    | Bool(truth: bool)
    | Int(integer: int)
    | Fraction(numerator: int, denominator: int)
    | Float(numerator: int, denominator: int)
    | Decimal(numerator: int, denominator: int)
    | FloatInfinity(negative: bool)
    | DecimalInfinity(negative: bool)
    | Tuple(items: seq<Value>)
    | List(items: seq<Value>)
    | Range(start: int, stop: int, step: int)
    | Dict(entries: seq<(Value, Value)>)
    | Set(frozen: bool, items: seq<Value>)
    | CanonicalSet(items: seq<Value>)

  /**
    What the interpreter contributes: the bytes pickle gives a canonical value,
    and which reduced ratios a binary float can hold exactly.
   */
  datatype Platform = Platform(dumps: Value -> Blob, exactFloat: (int, int) -> bool)

  // ---- Python equality -----------------------------------------------------

  predicate IsRational(v: Value) {
    v.Bool? || v.Int? || v.Fraction? || v.Float? || v.Decimal?
  }

  function NumeratorOf(v: Value): int
    requires IsRational(v)
  {
    match v
    case Bool(b) => if b then 1 else 0
    case Int(n) => n
    case Fraction(n, _) => n
    case Float(n, _) => n
    case Decimal(n, _) => n
  }

  function DenominatorOf(v: Value): int
    requires IsRational(v)
  {
    match v
    case Bool(_) => 1
    case Int(_) => 1
    case Fraction(_, d) => d
    case Float(_, d) => d
    case Decimal(_, d) => d
  }

  predicate IsBytesLike(v: Value) {
    v.ByteString? || v.ByteArray?
  }

  predicate IsInfinity(v: Value) {
    v.FloatInfinity? || v.DecimalInfinity?
  }

  /** The integers a range yields. */
  function RangeElements(start: int, stop: int, step: int): seq<int>
    requires step != 0
    decreases if step > 0 then stop - start else start - stop
  {
    if (if step > 0 then start >= stop else start <= stop) then
      []
    else
      [start] + RangeElements(start + step, stop, step)
  }

  /** Python's `==`. Distinctness of set elements and dictionary keys is part of `Valid`. */
  ghost predicate PyEqual(a: Value, b: Value)
    decreases a, 0
  {
    if IsRational(a) then
      IsRational(b) && NumeratorOf(a) * DenominatorOf(b) == NumeratorOf(b) * DenominatorOf(a)
    else if IsBytesLike(a) then
      IsBytesLike(b) && a.bytes == b.bytes
    else if IsInfinity(a) then
      IsInfinity(b) && a.negative == b.negative
    else
      match a
      case NoneValue => b.NoneValue?
      case Text(s) => b.Text? && s == b.text
      case Tuple(xs) =>
        b.Tuple? && |xs| == |b.items| && forall i :: 0 <= i < |xs| ==> PyEqual(xs[i], b.items[i])
      case List(xs) =>
        b.List? && |xs| == |b.items| && forall i :: 0 <= i < |xs| ==> PyEqual(xs[i], b.items[i])
      case Range(_, _, _) =>
        && b.Range? && a.step != 0 && b.step != 0
        && RangeElements(a.start, a.stop, a.step) == RangeElements(b.start, b.stop, b.step)
      case Dict(xs) =>
        && b.Dict? && |xs| == |b.entries|
        && forall i :: 0 <= i < |xs| ==> HasEqualEntry(xs[i], b.entries)
      case Set(_, xs) =>
        && b.Set? && |xs| == |b.items|
        && forall i :: 0 <= i < |xs| ==> HasEqual(xs[i], b.items)
      case _ => false
  }

  ghost predicate HasEqual(x: Value, ys: seq<Value>)
    decreases x, 1
  {
    exists j :: 0 <= j < |ys| && PyEqual(x, ys[j])
  }

  ghost predicate HasEqualEntry(x: (Value, Value), ys: seq<(Value, Value)>)
    decreases x, 1
  {
    exists j :: 0 <= j < |ys| && EqualEntries(x, ys[j])
  }

  ghost predicate EqualEntries(x: (Value, Value), y: (Value, Value))
    decreases x, 0
  {
    PyEqual(x.0, y.0) && PyEqual(x.1, y.1)
  }

  /** Values the interpreter can build and the encoding accepts as structural keys. */
  ghost predicate Valid(v: Value)
    decreases v
  {
    match v
    case Fraction(_, d) => d > 0
    case Float(_, d) => d > 0
    case Decimal(_, d) => d > 0
    case Tuple(xs) => forall i :: 0 <= i < |xs| ==> Valid(xs[i])
    case List(xs) => forall i :: 0 <= i < |xs| ==> Valid(xs[i])
    case Range(_, _, step) => step != 0
    case Dict(xs) =>
      && (forall i :: 0 <= i < |xs| ==> Valid(xs[i].0) && Valid(xs[i].1))
      && (forall i, j :: 0 <= i < j < |xs| ==> !PyEqual(xs[i].0, xs[j].0))
    case Set(_, xs) =>
      && (forall i :: 0 <= i < |xs| ==> Valid(xs[i]))
      && (forall i, j :: 0 <= i < j < |xs| ==> !PyEqual(xs[i], xs[j]))
    case CanonicalSet(_) => false
    case _ => true
  }

  // ---- canonical form ------------------------------------------------------

  predicate IsPowerOfTwo(d: int)
    requires d > 0
    decreases d
  {
    d == 1 || (d % 2 == 0 && IsPowerOfTwo(d / 2))
  }

  function CanonicalRatio(p: Platform, n: int, d: int): Value
    requires d > 0
  {
    var (rn, rd) := Reduced(n, d);
    if rd == 1 then
      Int(rn)
    else if rd > 0 && IsPowerOfTwo(rd) && p.exactFloat(rn, rd) then
      Float(rn, rd)
    else
      Fraction(rn, rd)
  }

  function RangeSize(start: int, stop: int, step: int): int
    requires step != 0
  {
    if step > 0 then
      if start >= stop then 0 else (stop - start - 1) / step + 1
    else
      if start <= stop then 0 else (start - stop - 1) / -step + 1
  }

  function CanonicalRange(start: int, stop: int, step: int): Value
    requires step != 0
  {
    var size := RangeSize(start, stop, step);
    if size == 0 then
      Range(0, 0, 1)
    else if size == 1 then
      Range(start, start + 1, 1)
    else
      Range(start, start + step * size, step)
  }

  /** The pickled bytes of the key of a dictionary entry. */
  function EntryKey(p: Platform): ((Value, Value)) -> Blob {
    (entry: (Value, Value)) => p.dumps(entry.0)
  }

  function Canonical(p: Platform, v: Value): Value
    decreases v
  {
    match v
    case ByteArray(b) => ByteString(b)
    case Bool(b) => Int(if b then 1 else 0)
    case Fraction(n, d) => if d > 0 then CanonicalRatio(p, n, d) else v
    case Float(n, d) => if d > 0 then CanonicalRatio(p, n, d) else v
    case Decimal(n, d) => if d > 0 then CanonicalRatio(p, n, d) else v
    case DecimalInfinity(negative) => FloatInfinity(negative)
    case Tuple(xs) => Tuple(seq(|xs|, i requires 0 <= i < |xs| => Canonical(p, xs[i])))
    case List(xs) => List(seq(|xs|, i requires 0 <= i < |xs| => Canonical(p, xs[i])))
    case Range(start, stop, step) => if step != 0 then CanonicalRange(start, stop, step) else v
    case Dict(xs) =>
      var entries := seq(|xs|, i requires 0 <= i < |xs| => (Canonical(p, xs[i].0), Canonical(p, xs[i].1)));
      Dict(SortBy(entries, EntryKey(p)))
    case Set(_, xs) =>
      var items := seq(|xs|, i requires 0 <= i < |xs| => Canonical(p, xs[i]));
      CanonicalSet(SortBy(items, p.dumps))
    case _ => v
  }

  /**
    Pickle tells canonical values apart. Only values that `Canonical` produces are
    ever pickled, so nothing is assumed about the others.
   */
  ghost predicate Faithful(p: Platform) {
    forall a, b :: Valid(a) && Valid(b) && p.dumps(Canonical(p, a)) == p.dumps(Canonical(p, b)) ==>
      Canonical(p, a) == Canonical(p, b)
  }

  /** What unpickling gives back: a canonical set returns as a frozenset. */
  function Thawed(v: Value): Value
    decreases v
  {
    match v
    case Tuple(xs) => Tuple(seq(|xs|, i requires 0 <= i < |xs| => Thawed(xs[i])))
    case List(xs) => List(seq(|xs|, i requires 0 <= i < |xs| => Thawed(xs[i])))
    case Dict(xs) => Dict(seq(|xs|, i requires 0 <= i < |xs| => (Thawed(xs[i].0), Thawed(xs[i].1))))
    case CanonicalSet(xs) => Set(true, seq(|xs|, i requires 0 <= i < |xs| => Thawed(xs[i])))
    case _ => v
  }
}
