/** Python's `sorted` on a list of integers. */
module IntegerSort {
  ghost predicate Nondecreasing(s: seq<int>) {
    forall i, j :: 0 <= i < j < |s| ==> s[i] <= s[j]
  }

  function InsertInt(x: int, s: seq<int>): (r: seq<int>)
    ensures multiset(r) == multiset{x} + multiset(s)
  {
    if s == [] || x < s[0] then
      [x] + s
    else
      assert s == [s[0]] + s[1..];
      [s[0]] + InsertInt(x, s[1..])
  }

  function SortInts(s: seq<int>): (r: seq<int>)
    ensures multiset(r) == multiset(s)
  {
    if s == [] then
      []
    else
      assert s == [s[0]] + s[1..];
      InsertInt(s[0], SortInts(s[1..]))
  }

  lemma InSorted(s: seq<int>, x: int)
    ensures x in SortInts(s) <==> x in s
  {
    assert x in multiset(SortInts(s)) <==> x in multiset(s);
  }

  lemma {:induction false} InsertSorted(x: int, s: seq<int>)
    requires Nondecreasing(s)
    ensures Nondecreasing(InsertInt(x, s))
  {
    if s != [] && s[0] <= x {
      var rest := InsertInt(x, s[1..]);
      InsertSorted(x, s[1..]);
      forall i | 0 <= i < |rest| ensures s[0] <= rest[i] {
        assert rest[i] in multiset(rest);
        if rest[i] != x {
          assert rest[i] in s[1..];
        }
      }
    }
  }

  lemma {:induction false} SortIsSorted(s: seq<int>)
    ensures Nondecreasing(SortInts(s))
  {
    if s != [] {
      SortIsSorted(s[1..]);
      InsertSorted(s[0], SortInts(s[1..]));
    }
  }

  lemma LeastFirst(a: seq<int>, b: seq<int>)
    requires a != [] && Nondecreasing(b) && multiset(a) == multiset(b)
    ensures b != [] && b[0] <= a[0]
  {
    assert a[0] in multiset(b);
    var i :| 0 <= i < |b| && b[i] == a[0];
  }

  lemma TailMultiset(a: seq<int>)
    requires a != []
    ensures multiset(a[1..]) == multiset(a) - multiset{a[0]}
  {
    assert a == [a[0]] + a[1..];
  }

  /** A multiset of integers has one nondecreasing listing. */
  lemma {:induction false} SortedUnique(a: seq<int>, b: seq<int>)
    requires Nondecreasing(a) && Nondecreasing(b) && multiset(a) == multiset(b)
    ensures a == b
  {
    if a == [] {
      assert |multiset(b)| == |b|;
    } else {
      LeastFirst(a, b);
      LeastFirst(b, a);
      TailMultiset(a);
      TailMultiset(b);
      SortedUnique(a[1..], b[1..]);
      assert a == [a[0]] + a[1..] && b == [b[0]] + b[1..];
    }
  }

  lemma SortOfPermutation(a: seq<int>, b: seq<int>)
    requires multiset(a) == multiset(b)
    ensures SortInts(a) == SortInts(b)
  {
    SortIsSorted(a);
    SortIsSorted(b);
    SortedUnique(SortInts(a), SortInts(b));
  }

  ghost predicate IsMax(m: int, s: set<int>) {
    m in s && forall x :: x in s ==> x <= m
  }

  lemma Member<T>(s: set<T>) returns (x: T)
    requires s != {}
    ensures x in s
  {
    x :| x in s;
  }

  lemma Inhabited(s: set<int>)
    requires s != {}
    ensures exists x :: x in s
  {
    var x := Member(s);
    assert x in s;
  }

  lemma {:induction false} MaxExists(s: set<int>)
    requires s != {}
    ensures exists m :: IsMax(m, s)
  {
    var y := Member(s);
    var rest := s - {y};
    var top := y;
    if rest != {} {
      MaxExists(rest);
      var m :| IsMax(m, rest);
      top := if m < y then y else m;
    }
    forall x | x in s ensures x <= top {
      assert x == y || x in rest;
    }
    assert IsMax(top, s);
  }

  ghost function MaxOf(s: set<int>): (m: int)
    requires s != {}
    ensures IsMax(m, s)
  {
    MaxExists(s);
    var m :| IsMax(m, s);
    m
  }

  function Above(s: set<int>, x: int): set<int> {
    set y | y in s && y > x
  }

  /** The `r` largest elements. */
  function Newest(s: set<int>, r: int): set<int> {
    set x | x in s && |Above(s, x)| < r
  }
}
