/** Texts as Python orders them, by code point: one character becomes three bytes. */
module Texts {
  import opened Bytes
  import opened Sorting

  function Rank(s: string): (r: Blob)
    ensures |r| == 3 * |s|
  {
    if s == [] then
      []
    else
      assert Power256(3) == 256 * Power256(2) && Power256(2) == 256 * Power256(1);
      BigEndian(s[0] as int, 3) + Rank(s[1..])
  }

  lemma {:induction false} RankInjective(s: string, t: string)
    requires Rank(s) == Rank(t)
    ensures s == t
  {
    if s != [] {
      var r := Rank(s);
      assert r[..3] == BigEndian(s[0] as int, 3) && r[..3] == BigEndian(t[0] as int, 3);
      assert s[0] as int == t[0] as int;
      assert r[3..] == Rank(s[1..]) && r[3..] == Rank(t[1..]);
      RankInjective(s[1..], t[1..]);
      assert s == [s[0]] + s[1..] && t == [t[0]] + t[1..];
    }
  }

  lemma RanksInjective()
    ensures Injective(Rank)
  {
    forall s, t | Rank(s) == Rank(t) ensures s == t { RankInjective(s, t); }
  }
}
