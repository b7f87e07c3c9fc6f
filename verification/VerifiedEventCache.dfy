/** The cache of signatures that were already checked: least recently used entries go first, and entries expire. */
module VerifiedEventCache {
  import opened LedgerModel
  import opened Sorting
  import opened SyncModel

  const NUL := '\0'
  const DEFAULT_ENTRIES := 4096
  const DEFAULT_TTL := 600

  function CacheKey(id: string, authorKey: string, sig: string): (r: string) {
    id + [NUL] + authorKey + [NUL] + sig
  }

  /** The list without `x`. */
  function Without(s: seq<string>, x: string): (r: seq<string>)
    ensures |r| <= |s|
    ensures forall y :: y in r <==> y in s && y != x
  {
    if s == [] then []
    else if s[|s| - 1] == x then Without(s[..|s| - 1], x)
    else Without(s[..|s| - 1], x) + [s[|s| - 1]]
  }

  /** The entries whose keys are listed. */
  ghost predicate Lists(order: seq<string>, expiry: map<string, int>) {
    Distinct(order) && Elements(order) == expiry.Keys
  }

  class Cache {
    const max: int
    const ttl: int
    var order: seq<string>
    var expiry: map<string, int>

    ghost predicate Valid()
      reads this
    {
      max > 0 && ttl > 0 && |order| <= max && Lists(order, expiry)
    }

    constructor (max: int, ttl: int)
      ensures Valid() && expiry == map[]
      ensures this.max == (if max <= 0 then DEFAULT_ENTRIES else max)
      ensures this.ttl == (if ttl <= 0 then DEFAULT_TTL else ttl)
    {
      this.max := if max <= 0 then DEFAULT_ENTRIES else max;
      this.ttl := if ttl <= 0 then DEFAULT_TTL else ttl;
      order, expiry := [], map[];
    }

    /** A hit moves the entry to the front; an expired entry is removed and does not hit. */
    method Match(id: string, authorKey: string, sig: string, now: int) returns (hit: bool)
      requires Valid()
      modifies this
      ensures Valid()
      ensures var key := CacheKey(id, authorKey, sig);
        && (hit <==> key in old(expiry) && old(expiry)[key] > now)
        && expiry == (if hit then old(expiry) else old(expiry) - {key})
        && order == (if hit then [key] else []) + Without(old(order), key)
    {
      hide Distinct, Elements, CacheKey;
      var key := CacheKey(id, authorKey, sig);
      RemoveListed(order, expiry, key);
      if key !in expiry {
        assert expiry - {key} == expiry;
        return false;
      }
      if expiry[key] <= now {
        order := Without(order, key);
        expiry := expiry - {key};
        return false;
      }
      order := [key] + Without(order, key);
      return true;
    }

    /** Refreshes or adds the entry at the front and evicts from the back. */
    method Put(id: string, authorKey: string, sig: string, now: int)
      requires Valid()
      modifies this
      ensures Valid()
      ensures var key := CacheKey(id, authorKey, sig);
        && order == Take([key] + Without(old(order), key), max)
        && (forall k | k in expiry :: k == key || (k in old(expiry) && expiry[k] == old(expiry)[k]))
        && key in expiry && expiry[key] == now + ttl
    {
      hide Distinct, Elements, CacheKey;
      var key := CacheKey(id, authorKey, sig);
      RemoveListed(order, expiry, key);
      ghost var front := [key] + Without(order, key);
      AddListed(order, expiry, key, now + ttl);
      order := [key] + Without(order, key);
      expiry := expiry[key := now + ttl];
      while |order| > max
        invariant 1 <= |order| <= |front| && order == front[..|order|] && Lists(order, expiry)
        invariant |order| >= max || order == front
        invariant forall k | k in expiry :: k == key || (k in old(expiry) && expiry[k] == old(expiry)[k])
        invariant key in expiry && expiry[key] == now + ttl
      {
        var last := order[|order| - 1];
        DropLast(order, expiry);
        expiry := expiry - {last};
        order := order[..|order| - 1];
      }
    }
  }

  lemma {:induction false} WithoutDistinct(s: seq<string>, x: string)
    requires Distinct(s)
    ensures Distinct(Without(s, x)) && (x !in s ==> Without(s, x) == s) && (x in s ==> |Without(s, x)| == |s| - 1)
  {
    if s != [] {
      var init, last := s[..|s| - 1], s[|s| - 1];
      WithoutDistinct(init, x);
      assert forall y :: y in s <==> y in init || y == last;
      var r := Without(init, x);
      assert last !in init;
      assert s == init + [last];
    }
  }

  lemma RemoveListed(order: seq<string>, expiry: map<string, int>, key: string)
    requires Lists(order, expiry)
    ensures Lists(Without(order, key), expiry - {key})
    ensures key in expiry ==> |Without(order, key)| == |order| - 1 && Lists([key] + Without(order, key), expiry)
    ensures key !in expiry ==> Without(order, key) == order
  {
    WithoutDistinct(order, key);
    assert key in order <==> key in Elements(order);
    assert Elements([key] + Without(order, key)) == {key} + Elements(Without(order, key));
  }

  lemma AddListed(order: seq<string>, expiry: map<string, int>, key: string, exp: int)
    requires Lists(order, expiry)
    ensures Lists([key] + Without(order, key), expiry[key := exp])
  {
    WithoutDistinct(order, key);
    assert Elements([key] + Without(order, key)) == {key} + Elements(Without(order, key));
  }

  lemma DropLast(order: seq<string>, expiry: map<string, int>)
    requires Lists(order, expiry) && order != []
    ensures Lists(order[..|order| - 1], expiry - {order[|order| - 1]})
    ensures forall k | 0 <= k < |order| - 1 :: order[k] != order[|order| - 1]
  {
    var init, last := order[..|order| - 1], order[|order| - 1];
    assert Elements(order) == Elements(init) + {last};
    assert last !in init;
  }

  // ---------------------------------------------------------------- what a hit means

  ghost predicate NulFree(s: string) {
    NUL !in s
  }

  /** The key stands for a triple whose signature was checked. */
  ghost predicate VerifiedKey(env: Env, key: string) {
    exists id, authorKey, sig ::
      key == CacheKey(id, authorKey, sig) && NulFree(id) && NulFree(authorKey) && env.sigOk(authorKey, id, sig)
  }

  /** Only verified triples were put. */
  ghost predicate Trusted(env: Env, expiry: map<string, int>) {
    forall key | key in expiry :: VerifiedKey(env, key)
  }

  /** Two texts around a first NUL can be told apart. */
  lemma {:induction false} SplitAtNul(a: string, b: string, c: string, d: string)
    requires NulFree(a) && NulFree(c) && a + [NUL] + b == c + [NUL] + d
    ensures a == c && b == d
  {
    var s, t := a + [NUL] + b, c + [NUL] + d;
    assert s[0] == (if a == [] then NUL else a[0]) && t[0] == (if c == [] then NUL else c[0]);
    assert (a != [] ==> a[0] in a) && (c != [] ==> c[0] in c);
    if a != [] {
      assert s[1..] == a[1..] + [NUL] + b && t[1..] == c[1..] + [NUL] + d;
      SplitAtNul(a[1..], b, c[1..], d);
      assert a == [a[0]] + a[1..] && c == [c[0]] + c[1..];
    } else {
      assert s[1..] == b && t[1..] == d;
    }
  }

  /** Keys of identifiers and author keys without NUL never collide. */
  lemma KeyInjective(id: string, authorKey: string, sig: string, id': string, authorKey': string, sig': string)
    requires NulFree(id) && NulFree(authorKey) && NulFree(id') && NulFree(authorKey')
    requires CacheKey(id, authorKey, sig) == CacheKey(id', authorKey', sig')
    ensures id == id' && authorKey == authorKey' && sig == sig'
  {
    hide NulFree;
    assert CacheKey(id, authorKey, sig) == id + [NUL] + (authorKey + [NUL] + sig);
    assert CacheKey(id', authorKey', sig') == id' + [NUL] + (authorKey' + [NUL] + sig');
    SplitAtNul(id, authorKey + [NUL] + sig, id', authorKey' + [NUL] + sig');
    SplitAtNul(authorKey, sig, authorKey', sig');
  }

  /** A hit in a trusted cache proves the signature. */
  lemma HitIsVerified(env: Env, expiry: map<string, int>, id: string, authorKey: string, sig: string)
    requires Trusted(env, expiry) && CacheKey(id, authorKey, sig) in expiry && NulFree(id) && NulFree(authorKey)
    ensures env.sigOk(authorKey, id, sig)
  {
    hide CacheKey, NulFree;
    var id', authorKey', sig' :|
      CacheKey(id, authorKey, sig) == CacheKey(id', authorKey', sig') && NulFree(id') && NulFree(authorKey')
          && env.sigOk(authorKey', id', sig');
    KeyInjective(id, authorKey, sig, id', authorKey', sig');
  }

  /** Without that restriction keys do collide. */
  lemma NulMakesKeysCollide()
    ensures CacheKey("a" + [NUL] + "b", "c", "d") == CacheKey("a", "b" + [NUL] + "c", "d")
    ensures "a" + [NUL] + "b" != "a"
  {
    assert CacheKey("a" + [NUL] + "b", "c", "d") == ['a', NUL, 'b', NUL, 'c', NUL, 'd'];
    assert CacheKey("a", "b" + [NUL] + "c", "d") == ['a', NUL, 'b', NUL, 'c', NUL, 'd'];
  }
}
