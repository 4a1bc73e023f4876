/** A self-delimiting byte form of labelled trees, for platforms that must tell values apart. */
module Serialization {
  import opened Bytes

  // ---- pairs of byte strings -----------------------------------------------

  function Unary(n: nat): (r: Blob)
    ensures |r| == n + 1
  {
    if n == 0 then [0] else [1] + Unary(n - 1)
  }

  function LeadingOnes(b: Blob): (n: nat)
    ensures n <= |b|
  {
    if b != [] && b[0] == 1 then 1 + LeadingOnes(b[1..]) else 0
  }

  function Pair(a: Blob, b: Blob): Blob {
    Unary(|a|) + a + b
  }

  function Unpair(encoded: Blob): (Blob, Blob) {
    var n := LeadingOnes(encoded);
    if 2 * n + 1 <= |encoded| then (encoded[n + 1..2 * n + 1], encoded[2 * n + 1..]) else ([], [])
  }

  lemma {:induction false} LeadingOnesOf(n: nat, b: Blob)
    ensures LeadingOnes(Unary(n) + b) == n
  {
    var s := Unary(n) + b;
    if n > 0 {
      LeadingOnesOf(n - 1, b);
      assert s[1..] == Unary(n - 1) + b;
    }
  }

  lemma UnpairPair(a: Blob, b: Blob)
    ensures Unpair(Pair(a, b)) == (a, b)
  {
    var s := Pair(a, b);
    LeadingOnesOf(|a|, a + b);
    assert s == Unary(|a|) + (a + b);
    assert s[|a| + 1..2 * |a| + 1] == a && s[2 * |a| + 1..] == b;
  }

  lemma PairInjective(a: Blob, b: Blob, x: Blob, y: Blob)
    requires Pair(a, b) == Pair(x, y)
    ensures a == x && b == y
  {
    UnpairPair(a, b);
    UnpairPair(x, y);
  }

  // ---- trees ---------------------------------------------------------------

  /** A labelled tree; `rest` also chains the members of a sequence. */
  datatype Tree = Leaf | Node(mark: Blob, first: Tree, rest: Tree)

  function Packed(t: Tree): Blob {
    match t
    case Leaf => [0]
    case Node(mark, first, rest) => [1] + Pair(mark, Packed(first) + Packed(rest))
  }

  /** A packed tree tells where it ends. */
  lemma {:induction false} PackedDelimited(t: Tree, x: Blob, u: Tree, y: Blob)
    requires Packed(t) + x == Packed(u) + y
    ensures t == u && x == y
  {
    assert (Packed(t) + x)[0] == Packed(t)[0] && (Packed(u) + y)[0] == Packed(u)[0];
    match t
    case Leaf =>
      assert u.Leaf?;
      assert (Packed(t) + x)[1..] == x && (Packed(u) + y)[1..] == y;
    case Node(mark, first, rest) =>
      assert u.Node?;
      PackedOpens(t, x);
      PackedOpens(u, y);
      PairInjective(mark, Packed(first) + (Packed(rest) + x), u.mark, Packed(u.first) + (Packed(u.rest) + y));
      PackedDelimited(first, Packed(rest) + x, u.first, Packed(u.rest) + y);
      PackedDelimited(rest, x, u.rest, y);
  }

  lemma PackedOpens(t: Tree, x: Blob)
    requires t.Node?
    ensures (Packed(t) + x)[1..] == Pair(t.mark, Packed(t.first) + (Packed(t.rest) + x))
  {
  }

  lemma PackedInjective(t: Tree, u: Tree)
    requires Packed(t) == Packed(u)
    ensures t == u
  {
    assert Packed(t) + [] == Packed(t) && Packed(u) + [] == Packed(u);
    PackedDelimited(t, [], u, []);
  }

  function Chain(ts: seq<Tree>): Tree {
    if ts == [] then Leaf else Node([], ts[0], Chain(ts[1..]))
  }

  lemma {:induction false} ChainInjective(ts: seq<Tree>, us: seq<Tree>)
    requires Chain(ts) == Chain(us)
    ensures ts == us
  {
    if ts != [] {
      ChainInjective(ts[1..], us[1..]);
      assert ts == [ts[0]] + ts[1..] && us == [us[0]] + us[1..];
    }
  }

  // ---- scalars -------------------------------------------------------------

  /** A tree with a numbered kind, a mark and two subtrees. */
  function Fork(kind: Byte, mark: Blob, first: Tree, rest: Tree): Tree {
    Node([kind] + mark, first, rest)
  }

  function Flag(b: bool): Blob {
    [if b then 1 else 0]
  }

  function Number(n: int): Tree {
    Node(Flag(n < 0) + seq(if n < 0 then -n else n, _ => 0), Leaf, Leaf)
  }

  lemma NumberInjective(n: int, m: int)
    requires Number(n) == Number(m)
    ensures n == m
  {
    assert Number(n).mark[0] == Number(m).mark[0];
    assert |Number(n).mark| == 1 + if n < 0 then -n else n;
  }

  // ---- texts ---------------------------------------------------------------

  function Characters(b: Blob): string {
    seq(|b|, i requires 0 <= i < |b| => b[i] as char)
  }

  lemma CharactersInjective(a: Blob, b: Blob)
    requires Characters(a) == Characters(b)
    ensures a == b
  {
    forall i | 0 <= i < |a| ensures a[i] == b[i] {
      assert Characters(a)[i] == Characters(b)[i];
    }
  }
}
