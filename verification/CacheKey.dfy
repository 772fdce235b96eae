/** The key a cached answer is stored under (CBERCacheManager::computeCacheKey): a hash over
    the request's byte vectors, one after the other. */
module CacheKey {
  import opened Bytes
  import opened Sequences
  import Buffer = DataConcatenator

  type Octets = seq<byte>

  type Hash = Octets -> Octets

  /** What is hashed: all vectors, or in the original mode the first and the last. */
  function KeyInput(optimized: bool, vectors: seq<Octets>): Octets
    requires vectors != []
  {
    if optimized then Flatten(vectors)
    else if |vectors| > 1 then vectors[0] + vectors[|vectors| - 1]
    else vectors[0]
  }

  function Key(optimized: bool, sha: Hash, vectors: seq<Octets>): Octets {
    if vectors == [] then [] else sha(KeyInput(optimized, vectors))
  }

  method ComputeCacheKey(optimized: bool, sha: Hash, vectors: seq<Octets>) returns (key: Octets)
    ensures key == Key(optimized, sha, vectors)
    ensures vectors == [] ==> key == []
    ensures vectors != [] && optimized ==> key == sha(Flatten(vectors))
    ensures |vectors| == 1 ==> key == sha(vectors[0])
    ensures |vectors| > 1 && !optimized ==> key == sha(vectors[0] + vectors[|vectors| - 1])
  {
    if |vectors| == 0 { return []; }
    var concat := new Buffer.Concatenator(0);
    if optimized {
      for i := 0 to |vectors|
        invariant concat.limit == 0
        invariant concat.data == Flatten(vectors[..i]) && concat.offset == |concat.data|
      {
        AppendedAtEnd(concat.Abstract(), vectors[i]);
        var _ := concat.AddVector(vectors[i]);
        assert vectors[..i + 1][..i] == vectors[..i];
      }
      assert vectors[..|vectors|] == vectors;
    } else {
      AppendedAtEnd(concat.Abstract(), vectors[0]);
      var _ := concat.AddVector(vectors[0]);
      assert concat.data == vectors[0];
      if |vectors| > 1 {
        AppendedAtEnd(concat.Abstract(), vectors[|vectors| - 1]);
        var _ := concat.AddVector(vectors[|vectors| - 1]);
      }
    }
    if |vectors| == 1 {
      FlattenOne(vectors[0]);
      assert vectors == [vectors[0]];
    }
    return sha(concat.data);
  }

  lemma AppendedAtEnd(s: Buffer.State, b: Octets)
    requires s.offset == |s.data|
    ensures Buffer.Appended(s, b) == Buffer.State(s.data + b, s.offset + |b|)
  {
    assert (s.data + Buffer.Zeros(|b|))[..s.offset] == s.data;
  }

  ghost predicate Injective(sha: Hash) {
    forall x, y :: sha(x) == sha(y) ==> x == y
  }

  /** With an injective hash, two requests share a key exactly when what is hashed of them is
      the same. In the optimised mode that forgets where one vector ends and the next begins;
      in the original mode everything between the first and the last vector. */
  lemma SameKeyIffSameInput(optimized: bool, sha: Hash, a: seq<Octets>, b: seq<Octets>)
    requires Injective(sha) && a != [] && b != []
    ensures Key(optimized, sha, a) == Key(optimized, sha, b) <==> KeyInput(optimized, a) == KeyInput(optimized, b)
  { }

  /** In the original mode nothing between the first and the last vector counts. */
  lemma MiddleIsLost(sha: Hash, first: Octets, middle: seq<Octets>, last: Octets)
    ensures Key(false, sha, [first] + middle + [last]) == sha(first + last)
  {
    assert ([first] + middle + [last])[0] == first;
  }

  /** Cutting one vector of a request in two never changes the key in the optimised mode. */
  lemma SplitPointsAreLost(sha: Hash, before: seq<Octets>, x: Octets, y: Octets, after: seq<Octets>)
    ensures Key(true, sha, before + [x, y] + after) == Key(true, sha, before + [x + y] + after)
  {
    FlattenConcat(before + [x, y], after);
    FlattenConcat(before + [x + y], after);
    FlattenConcat(before, [x, y]);
    FlattenConcat(before, [x + y]);
    FlattenConcat([x], [y]);
    FlattenOne(x);
    FlattenOne(y);
    FlattenOne(x + y);
    assert [x] + [y] == [x, y];
  }
}
