/**
  Names of exclusive and task-owned state objects carry sixteen digits of the payload's
  digest, so different payloads of one version can share a path.
 */
module DigestCollisions {
  import opened Wrappers
  import opened Bytes
  import opened Sorting
  import opened HexTexts
  import opened Manifests
  import opened CheckpointFiles
  import P = CheckpointProtocol

  ghost predicate HexDigests(env: Environment) {
    forall b :: AllHex(env.digest(b))
  }

  // ---- more payloads than names --------------------------------------------

  function Below(n: nat): (s: set<nat>)
    ensures |s| == n && forall k: nat :: k in s <==> k < n
  {
    if n == 0 then {} else Below(n - 1) + {n - 1}
  }

  /** More values than there are numbers below `n` repeat one. */
  lemma Pigeonhole(values: seq<nat>, n: nat) returns (i: nat, j: nat)
    requires |values| > n && forall k :: 0 <= k < |values| ==> values[k] < n
    ensures i < j < |values| && values[i] == values[j]
  {
    if NoDuplicates(values) {
      NoDuplicatesCount(values);
      assert Elements(values) <= Below(n);
      Smaller(Elements(values), Below(n));
    }
    i, j :| 0 <= i < j < |values| && values[i] == values[j];
  }

  lemma Smaller(a: set<nat>, b: set<nat>)
    requires a <= b
    ensures |a| <= |b|
  {
    assert b == a + (b - a);
    assert |b| == |a| + |b - a|;
  }

  /** The part of a digest that goes into the name. */
  function Short(digest: string): string {
    if |digest| <= 16 then digest else digest[..16]
  }

  function Zeros(n: nat): Blob {
    seq(n, _ => 0)
  }

  ghost function Codes(env: Environment, n: nat): (codes: seq<nat>)
    requires HexDigests(env)
    ensures |codes| == n
  {
    seq(n, k requires 0 <= k < n => CodeOf(env, k))
  }

  ghost function CodeOf(env: Environment, k: nat): nat
    requires HexDigests(env)
  {
    assert AllHex(env.digest(Zeros(k)));
    Code(Short(env.digest(Zeros(k))))
  }

  /** Whatever the digest is, two payloads of different sizes agree in the digits that are used. */
  lemma ShortDigestsCollide(env: Environment) returns (a: Blob, b: Blob)
    requires HexDigests(env)
    ensures |a| != |b| && Short(env.digest(a)) == Short(env.digest(b))
  {
    hide Power17, Code;
    var n := Power17(16);
    var codes := Codes(env, n + 1);
    forall k | 0 <= k < |codes| ensures codes[k] < n {
      assert AllHex(env.digest(Zeros(k)));
      CodeBound(Short(env.digest(Zeros(k))), 16);
    }
    var i, j := Pigeonhole(codes, n);
    assert CodeOf(env, i) == CodeOf(env, j);
    assert AllHex(env.digest(Zeros(i))) && AllHex(env.digest(Zeros(j)));
    CodeInjective(Short(env.digest(Zeros(i))), Short(env.digest(Zeros(j))));
    a, b := Zeros(i), Zeros(j);
  }

  // ---- an entry that cannot be read ----------------------------------------

  /**
    With any digest there are two payloads such that, written one after the other as
    the same version of a partition, the second write succeeds and returns an entry
    that cannot be read: the first payload stands at its path.
   */
  lemma SecondWriteUnreadable(env: Environment, id: nat, h: P.Handle) returns (a: Blob, b: Blob)
    requires Lawful(env) && HexDigests(env) && P.ValidHandle(h)
    ensures var empty := FileSystem(map[], {});
      var first := P.WriteState(env, empty, id, h, a, Exclusive); var between := P.Final(empty, first.states);
      var second := P.WriteState(env, between, id, h, b, Exclusive); var after := P.Final(between, second.states);
      && first.result.Ok? && P.ReadState(env, after, first.result.value) == Ok(a)
      && second.result.Ok? && P.ReadState(env, after, second.result.value) == Err(P.SizeMismatch)
  {
    a, b := ShortDigestsCollide(env);
    SamePath(env, id, h, a, b);
    SecondRefused(env, id, h, a, b);
  }

  lemma SamePath(env: Environment, id: nat, h: P.Handle, a: Blob, b: Blob)
    requires P.ValidHandle(h) && Short(env.digest(a)) == Short(env.digest(b))
    ensures P.ObjectPath(env, id, h, a, Exclusive) == P.ObjectPath(env, id, h, b, Exclusive)
  {
  }

  lemma SecondRefused(env: Environment, id: nat, h: P.Handle, a: Blob, b: Blob)
    requires Lawful(env) && P.ValidHandle(h) && |a| != |b|
    requires P.ObjectPath(env, id, h, a, Exclusive) == P.ObjectPath(env, id, h, b, Exclusive)
    ensures var empty := FileSystem(map[], {});
      var first := P.WriteState(env, empty, id, h, a, Exclusive); var between := P.Final(empty, first.states);
      var second := P.WriteState(env, between, id, h, b, Exclusive); var after := P.Final(between, second.states);
      && first.result.Ok? && P.ReadState(env, after, first.result.value) == Ok(a)
      && second.result.Ok? && P.ReadState(env, after, second.result.value) == Err(P.SizeMismatch)
  {
    hide StatePath;
    var path := P.ObjectPath(env, id, h, a, Exclusive);
    assert env.locate(env.uri(path)) == Some(path);
  }
}
