/** The assumptions about SQL texts, quoted path keys and partition ranks can be met. */
module SqlRenderings {
  import opened Wrappers
  import opened Bytes
  import opened Sorting
  import opened Texts
  import opened Serialization
  import opened Decimals
  import opened SqlExpressions
  import opened AiProjections
  import JsonPaths
  import Manifests

  function ValueTree(v: Value): Tree {
    match v
    case Null => Fork(0, [], Leaf, Leaf)
    case Bool(b) => Fork(1, Flag(b), Leaf, Leaf)
    case Datum(d) => Fork(2, [], Number(d), Leaf)
  }

  lemma ValueTreeInjective(a: Value, b: Value)
    requires ValueTree(a) == ValueTree(b)
    ensures a == b
  {
    assert ValueTree(a).mark[0] == ValueTree(b).mark[0];
    assert ValueTree(a).mark[1..] == ValueTree(b).mark[1..];
    if a.Datum? {
      NumberInjective(a.d, b.d);
    }
  }

  function TreeOf(e: Expr): Tree
    decreases e
  {
    match e
    case Column(table, name) => Fork(0, [], Node(Rank(table), Leaf, Leaf), Node(Rank(name), Leaf, Leaf))
    case Star(table) => Fork(1, Rank(table), Leaf, Leaf)
    case Constant(v) => Fork(2, [], ValueTree(v), Leaf)
    case Paren(x) => Fork(3, [], TreeOf(x), Leaf)
    case Not(x) => Fork(4, [], TreeOf(x), Leaf)
    case And(x, y) => Fork(5, [], TreeOf(x), TreeOf(y))
    case Or(x, y) => Fork(6, [], TreeOf(x), TreeOf(y))
    case IsNull(x) => Fork(7, [], TreeOf(x), Leaf)
    case In(x, xs) => Fork(8, [], TreeOf(x), Chain(seq(|xs|, i requires 0 <= i < |xs| => TreeOf(xs[i]))))
    case Coalesce(xs) => Fork(9, [], Chain(seq(|xs|, i requires 0 <= i < |xs| => TreeOf(xs[i]))), Leaf)
    case Case(base, bs, default) =>
      Fork(10, [], Chain(seq(|bs|, i requires 0 <= i < |bs| => WhenTree(bs[i]))),
        Node([], MaybeTree(base), MaybeTree(default)))
    case Strict(op, xs) => Fork(11, Rank(op), Chain(seq(|xs|, i requires 0 <= i < |xs| => TreeOf(xs[i]))), Leaf)
    case Scalar(f, xs) => Fork(12, Rank(f), Chain(seq(|xs|, i requires 0 <= i < |xs| => TreeOf(xs[i]))), Leaf)
    case AiCall(f, xs) => Fork(13, Rank(f), Chain(seq(|xs|, i requires 0 <= i < |xs| => TreeOf(xs[i]))), Leaf)
  }

  function WhenTree(b: SqlExpressions.Branch): Tree
    decreases b
  {
    Node([], TreeOf(b.condition), TreeOf(b.outcome))
  }

  function MaybeTree(e: Option<Expr>): Tree
    decreases e
  {
    match e
    case None => Leaf
    case Some(x) => Node([], TreeOf(x), Leaf)
  }

  function KindOf(e: Expr): Byte {
    match e
    case Column(_, _) => 0
    case Star(_) => 1
    case Constant(_) => 2
    case Paren(_) => 3
    case Not(_) => 4
    case And(_, _) => 5
    case Or(_, _) => 6
    case IsNull(_) => 7
    case In(_, _) => 8
    case Coalesce(_) => 9
    case Case(_, _, _) => 10
    case Strict(_, _) => 11
    case Scalar(_, _) => 12
    case AiCall(_, _) => 13
  }

  lemma TreeKind(e: Expr)
    ensures TreeOf(e).Node? && TreeOf(e).mark != [] && TreeOf(e).mark[0] == KindOf(e)
  {
  }

  function Trees(xs: seq<Expr>): seq<Tree> {
    seq(|xs|, i requires 0 <= i < |xs| => TreeOf(xs[i]))
  }

  function WhenTrees(bs: seq<SqlExpressions.Branch>): seq<Tree> {
    seq(|bs|, i requires 0 <= i < |bs| => WhenTree(bs[i]))
  }

  /** The expressions right below an expression, in sequences. */
  function ArgumentsOf(e: Expr): seq<Expr> {
    match e
    case In(_, xs) => xs
    case Coalesce(xs) => xs
    case Strict(_, xs) => xs
    case Scalar(_, xs) => xs
    case AiCall(_, xs) => xs
    case _ => []
  }

  predicate HasArguments(e: Expr) {
    e.In? || e.Coalesce? || e.Strict? || e.Scalar? || e.AiCall?
  }

  lemma SameArguments(a: Expr, b: Expr)
    requires TreeOf(a) == TreeOf(b) && KindOf(a) == KindOf(b) && HasArguments(a)
    ensures Trees(ArgumentsOf(a)) == Trees(ArgumentsOf(b))
  {
    var xs, ys := ArgumentsOf(a), ArgumentsOf(b);
    if a.In? {
      assert TreeOf(a).rest == Chain(Trees(xs)) && TreeOf(b).rest == Chain(Trees(ys));
    } else {
      assert TreeOf(a).first == Chain(Trees(xs)) && TreeOf(b).first == Chain(Trees(ys));
    }
    ChainInjective(Trees(xs), Trees(ys));
  }

  lemma SameBranches(a: Expr, b: Expr)
    requires TreeOf(a) == TreeOf(b) && a.Case? && b.Case?
    ensures WhenTrees(a.branches) == WhenTrees(b.branches)
    ensures MaybeTree(a.base) == MaybeTree(b.base) && MaybeTree(a.default) == MaybeTree(b.default)
  {
    assert TreeOf(a).first == Chain(WhenTrees(a.branches)) && TreeOf(b).first == Chain(WhenTrees(b.branches));
    ChainInjective(WhenTrees(a.branches), WhenTrees(b.branches));
  }

  /** The texts that an expression carries itself. */
  lemma SameTexts(a: Expr, b: Expr)
    requires TreeOf(a) == TreeOf(b) && KindOf(a) == KindOf(b)
    ensures a.Column? ==> a.table == b.table && a.name == b.name
    ensures a.Star? ==> a.starTable == b.starTable
    ensures a.Constant? ==> a.v == b.v
    ensures a.Strict? ==> a.op == b.op
    ensures a.Scalar? ==> a.callee == b.callee
    ensures a.AiCall? ==> a.identifier == b.identifier
  {
    hide Rank;
    assert TreeOf(a).mark[1..] == TreeOf(b).mark[1..];
    match a
    case Column(table, name) =>
      RankInjective(table, b.table);
      RankInjective(name, b.name);
    case Star(table) => RankInjective(table, b.starTable);
    case Constant(v) => ValueTreeInjective(v, b.v);
    case Strict(op, _) => RankInjective(op, b.op);
    case Scalar(f, _) => RankInjective(f, b.callee);
    case AiCall(f, _) => RankInjective(f, b.identifier);
    case _ =>
  }

  lemma {:induction false} TreeInjective(a: Expr, b: Expr)
    requires TreeOf(a) == TreeOf(b)
    ensures a == b
    decreases a
  {
    TreeKind(a);
    TreeKind(b);
    SameTexts(a, b);
    if HasArguments(a) {
      SameArguments(a, b);
      var xs, ys := ArgumentsOf(a), ArgumentsOf(b);
      forall i | 0 <= i < |xs| ensures xs[i] == ys[i] {
        assert Trees(xs)[i] == Trees(ys)[i];
        TreeInjective(xs[i], ys[i]);
      }
      assert |xs| == |Trees(xs)| == |Trees(ys)| == |ys|;
      assert xs == ys;
    }
    match a
    case Paren(x) => TreeInjective(x, b.inner);
    case Not(x) => TreeInjective(x, b.operand);
    case And(x, y) =>
      TreeInjective(x, b.left);
      TreeInjective(y, b.right);
    case Or(x, y) =>
      TreeInjective(x, b.left);
      TreeInjective(y, b.right);
    case IsNull(x) => TreeInjective(x, b.tested);
    case In(x, _) => TreeInjective(x, b.needle);
    case Case(_, _, _) => CaseInjective(a, b);
    case _ =>
  }

  lemma {:induction false} CaseInjective(a: Expr, b: Expr)
    requires a.Case? && b.Case? && TreeOf(a) == TreeOf(b)
    ensures a == b
    decreases a, 0
  {
    SameBranches(a, b);
    if a.base.Some? {
      TreeInjective(a.base.value, b.base.value);
    }
    if a.default.Some? {
      TreeInjective(a.default.value, b.default.value);
    }
    forall i | 0 <= i < |a.branches| ensures a.branches[i] == b.branches[i] {
      assert WhenTrees(a.branches)[i] == WhenTrees(b.branches)[i];
      TreeInjective(a.branches[i].condition, b.branches[i].condition);
      TreeInjective(a.branches[i].outcome, b.branches[i].outcome);
    }
    assert |a.branches| == |WhenTrees(a.branches)| == |WhenTrees(b.branches)| == |b.branches|;
    assert a.branches == b.branches;
  }

  function TextOf(e: Expr): string {
    Characters(Packed(TreeOf(e)))
  }

  function AnyRendering(nameOf: Expr -> string, native: Expr -> bool): Rendering {
    Rendering(TextOf, nameOf, (q: Projection) => "?column?", native)
  }

  /** Whatever unaliased expressions are called, some rendering gives different calls different texts. */
  lemma RenderingExists(nameOf: Expr -> string, native: Expr -> bool) returns (n: Rendering)
    ensures n.nameOf == nameOf && n.native == native && Lawful(n)
  {
    n := AnyRendering(nameOf, native);
    forall a, b | n.sql(a) == n.sql(b) ensures a == b {
      CharactersInjective(Packed(TreeOf(a)), Packed(TreeOf(b)));
      PackedInjective(TreeOf(a), TreeOf(b));
      TreeInjective(a, b);
    }
  }

  // ---- quoted keys and subscripts ------------------------------------------

  function Unquoted(text: string): Option<string> {
    if |text| >= 2 then Some(text[1..|text| - 1]) else None
  }

  function ReadInteger(text: string): Option<int> {
    var negative := text != "" && text[0] == '-';
    var digits := ParseDigits(if negative then text[1..] else text);
    if digits.None? then
      None
    else
      var n: int := digits.value;
      Some(if negative then -n else n)
  }

  /** Some reader of quoted texts and integers meets the laws of JSON paths. */
  lemma ReaderExists() returns (r: JsonPaths.Reader)
    ensures JsonPaths.Lawful(r)
  {
    r := JsonPaths.Reader(c => c == ' ', Unquoted, ReadInteger);
    forall key: string ensures r.literal(JsonPaths.Quoted(key)) == Some(key) {
      assert JsonPaths.Quoted(key)[1..|key| + 1] == key;
    }
    forall n: int ensures r.integer(JsonPaths.Signed(n)) == Some(n) {
      IntegerRead(n);
    }
  }

  lemma IntegerRead(n: int)
    ensures ReadInteger(JsonPaths.Signed(n)) == Some(n)
  {
    if n < 0 {
      ParseDecimal(-n);
      assert JsonPaths.Signed(n)[1..] == Decimal(-n);
    } else {
      ParseDecimal(n);
      assert Decimal(n)[0] in Decimal(n);
    }
  }

  // ---- partitions ----------------------------------------------------------

  function PartitionRank(p: Manifests.StatePartition): Blob {
    Pair(Rank(p.jobId), Pair(Rank(p.operatorId), Packed(Number(p.keyGroup))))
  }

  /** Partitions can be told apart by a ranking. */
  lemma PartitionRankInjective()
    ensures Injective(PartitionRank)
  {
    forall p, q | PartitionRank(p) == PartitionRank(q) ensures p == q {
      var a, b := Packed(Number(p.keyGroup)), Packed(Number(q.keyGroup));
      PairInjective(Rank(p.jobId), Pair(Rank(p.operatorId), a), Rank(q.jobId), Pair(Rank(q.operatorId), b));
      PairInjective(Rank(p.operatorId), a, Rank(q.operatorId), b);
      RankInjective(p.jobId, q.jobId);
      RankInjective(p.operatorId, q.operatorId);
      PackedInjective(Number(p.keyGroup), Number(q.keyGroup));
      NumberInjective(p.keyGroup, q.keyGroup);
    }
  }
}
