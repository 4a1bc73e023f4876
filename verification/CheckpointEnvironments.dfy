/** The assumptions about JSON, quoting, URIs and digests can be met. */
module CheckpointEnvironments {
  import opened Wrappers
  import opened Bytes
  import opened Sorting
  import opened Texts
  import opened Serialization
  import opened Manifests
  import opened CheckpointFiles
  import opened HexTexts
  import opened DigestCollisions

  // ---- a form of JSON values that tells them all apart ---------------------

  function FloatTree(x: Float): Tree {
    match x
    case Finite(n, d) => Fork(0, [], Number(n), Number(d))
    case Infinite => Fork(1, [], Leaf, Leaf)
    case NotANumber => Fork(2, [], Leaf, Leaf)
  }

  function FieldNames(fields: map<string, Json>): (names: seq<string>)
    ensures IsOrdering(names, fields.Keys, Rank)
  {
    RanksInjective();
    OrderedIsOrdering(fields.Keys, Rank);
    Ordered(fields.Keys, Rank)
  }

  function TreeOf(j: Json): Tree
    decreases j
  {
    match j
    case Null => Fork(0, [], Leaf, Leaf)
    case Bool(b) => Fork(1, Flag(b), Leaf, Leaf)
    case Int(n) => Fork(2, [], Number(n), Leaf)
    case Real(x) => Fork(3, [], FloatTree(x), Leaf)
    case Text(s) => Fork(4, Rank(s), Leaf, Leaf)
    case List(xs) => Fork(5, [], Chain(seq(|xs|, i requires 0 <= i < |xs| => TreeOf(xs[i]))), Leaf)
    case Object(fields) =>
      var names := FieldNames(fields);
      Fork(6, [], Chain(seq(|names|, i requires 0 <= i < |names| =>
        assert names[i] in names; Node(Rank(names[i]), TreeOf(fields[names[i]]), Leaf))), Leaf)
  }

  function KindOf(j: Json): Byte {
    match j
    case Null => 0
    case Bool(_) => 1
    case Int(_) => 2
    case Real(_) => 3
    case Text(_) => 4
    case List(_) => 5
    case Object(_) => 6
  }

  lemma TreeKind(j: Json)
    ensures TreeOf(j).Node? && TreeOf(j).mark != [] && TreeOf(j).mark[0] == KindOf(j)
  {
  }

  function Trees(xs: seq<Json>): seq<Tree> {
    seq(|xs|, i requires 0 <= i < |xs| => TreeOf(xs[i]))
  }

  function FieldTrees(fields: map<string, Json>): seq<Tree> {
    var names := FieldNames(fields);
    seq(|names|, i requires 0 <= i < |names| =>
      assert names[i] in names; Node(Rank(names[i]), TreeOf(fields[names[i]]), Leaf))
  }

  lemma {:induction false} TreeInjective(a: Json, b: Json)
    requires TreeOf(a) == TreeOf(b)
    ensures a == b
    decreases a
  {
    TreeKind(a);
    TreeKind(b);
    if a.List? {
      assert TreeOf(a).first == Chain(Trees(a.items)) && TreeOf(b).first == Chain(Trees(b.items));
      ChainInjective(Trees(a.items), Trees(b.items));
      forall i | 0 <= i < |a.items| ensures a.items[i] == b.items[i] {
        assert Trees(a.items)[i] == Trees(b.items)[i];
        TreeInjective(a.items[i], b.items[i]);
      }
      assert a.items == b.items;
    } else if a.Object? {
      SameNames(a.fields, b.fields);
      forall k | k in a.fields ensures a.fields[k] == b.fields[k] {
        SameField(a.fields, b.fields, k);
        TreeInjective(a.fields[k], b.fields[k]);
      }
      assert a.fields == b.fields;
    } else {
      ScalarInjective(a, b);
    }
  }

  lemma SameNames(a: map<string, Json>, b: map<string, Json>)
    requires TreeOf(Object(a)) == TreeOf(Object(b))
    ensures FieldTrees(a) == FieldTrees(b)
    ensures FieldNames(a) == FieldNames(b) && a.Keys == b.Keys
  {
    assert TreeOf(Object(a)).first == Chain(FieldTrees(a));
    assert TreeOf(Object(b)).first == Chain(FieldTrees(b));
    ChainInjective(FieldTrees(a), FieldTrees(b));
    var m, n := FieldNames(a), FieldNames(b);
    forall i | 0 <= i < |m| ensures m[i] == n[i] {
      assert FieldTrees(a)[i].mark == FieldTrees(b)[i].mark;
      RankInjective(m[i], n[i]);
    }
    assert m == n;
  }

  lemma SameField(a: map<string, Json>, b: map<string, Json>, k: string)
    requires FieldTrees(a) == FieldTrees(b) && FieldNames(a) == FieldNames(b) && k in a
    ensures k in b && TreeOf(a[k]) == TreeOf(b[k])
  {
    var i :| 0 <= i < |FieldNames(a)| && FieldNames(a)[i] == k;
    assert FieldTrees(a)[i].first == FieldTrees(b)[i].first;
  }

  lemma ScalarInjective(a: Json, b: Json)
    requires TreeOf(a) == TreeOf(b) && KindOf(a) == KindOf(b)
    requires !a.List? && !a.Object?
    ensures a == b
  {
    assert TreeOf(a).mark[1..] == TreeOf(b).mark[1..];
    match a
    case Int(n) => NumberInjective(n, b.n);
    case Text(s) => RankInjective(s, b.s);
    case Real(Finite(n, d)) =>
      assert FloatTree(a.x) == FloatTree(b.x) && FloatTree(b.x).mark[0] == 0;
      NumberInjective(n, b.x.numerator);
      NumberInjective(d, b.x.denominator);
    case Real(x) =>
      assert FloatTree(x) == FloatTree(b.x) && FloatTree(x).mark[0] == FloatTree(b.x).mark[0];
    case _ =>
  }

  // ---- texts ---------------------------------------------------------------

  function PathTree(p: Path): Tree {
    if p == [] then Leaf else Node(Rank(p[0]), Leaf, PathTree(p[1..]))
  }

  lemma {:induction false} PathTreeInjective(p: Path, q: Path)
    requires PathTree(p) == PathTree(q)
    ensures p == q
  {
    if p != [] {
      RankInjective(p[0], q[0]);
      PathTreeInjective(p[1..], q[1..]);
      assert p == [p[0]] + p[1..] && q == [q[0]] + q[1..];
    }
  }

  // ---- the environment -----------------------------------------------------

  function JsonBytes(j: Json): Blob {
    Packed(TreeOf(j))
  }

  ghost function JsonRead(b: Blob): Option<Json> {
    if j: Json :| JsonBytes(j) == b then Some(j) else None
  }

  function UriOf(p: Path): string {
    Characters(Packed(PathTree(p)))
  }

  ghost function Located(uri: string): Option<Path> {
    if p: Path :| UriOf(p) == uri then Some(p) else None
  }

  ghost function AnyEnvironment(parseInt: string -> Option<int>): Environment {
    Environment(
      (s: string) => s, JsonBytes, b => JsonRead(b), parseInt, UriOf, u => Located(u), HexText)
  }

  /** However `int` reads texts, the laws of the environment can be met, with hexadecimal digests. */
  lemma LawfulExists(parseInt: string -> Option<int>) returns (env: Environment)
    ensures env.parseInt == parseInt && Lawful(env) && HexDigests(env)
  {
    env := AnyEnvironment(parseInt);
    forall j: Json ensures env.loads(env.dumps(j)) == Some(j) {
      JsonReadBack(j);
    }
    forall p: Path ensures env.uri(p) != "" && env.locate(env.uri(p)) == Some(p) {
      LocatedBack(p);
    }
    forall a: Blob, b: Blob | env.digest(a) == env.digest(b) ensures a == b {
      HexTextInjective(a, b);
    }
  }

  lemma JsonReadBack(j: Json)
    ensures JsonRead(JsonBytes(j)) == Some(j)
  {
    var r := JsonRead(JsonBytes(j));
    assert r.Some? && JsonBytes(r.value) == JsonBytes(j);
    PackedInjective(TreeOf(r.value), TreeOf(j));
    TreeInjective(r.value, j);
  }

  lemma LocatedBack(p: Path)
    ensures UriOf(p) != "" && Located(UriOf(p)) == Some(p)
  {
    var r := Located(UriOf(p));
    assert r.Some? && UriOf(r.value) == UriOf(p);
    CharactersInjective(Packed(PathTree(r.value)), Packed(PathTree(p)));
    PackedInjective(PathTree(r.value), PathTree(p));
    PathTreeInjective(r.value, p);
  }
}
