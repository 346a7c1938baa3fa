/**
 * The caller-owned page cache (`Map<number, Data[]>`) and the display list
 * rebuilt from it. A JavaScript Map iterates in insertion order, so the cache
 * is modelled as its entries in that order; items are an opaque type.
 */
module PageCache {

  datatype Entry<T> = Entry(page: int, items: seq<T>)

  /** The cache's entries in insertion order. */
  type Cache<T> = seq<Entry<T>>

  /** The key set: `cache.has(k)` is `k in Keys(c)`. */
  function Keys<T>(c: Cache<T>): (ks: set<int>)
    ensures forall i :: 0 <= i < |c| ==> c[i].page in ks
    ensures forall k :: k in ks ==> exists i :: 0 <= i < |c| && c[i].page == k
  {
    set i | 0 <= i < |c| :: c[i].page
  }

  /** Total number of items over all cached pages. */
  function TotalItems<T>(c: Cache<T>): nat {
    if c == [] then 0 else |c[0].items| + TotalItems(c[1..])
  }

  /** `Array.from(cache.values()).flat()`: the page lists joined in insertion order. */
  function Flatten<T>(c: Cache<T>): (r: seq<T>)
    ensures |r| == TotalItems(c)
  {
    if c == [] then [] else c[0].items + Flatten(c[1..])
  }

  /** Flattening distributes over joining two runs of entries. */
  lemma {:induction false} FlattenAppend<T>(c: Cache<T>, d: Cache<T>)
    ensures Flatten(c + d) == Flatten(c) + Flatten(d)
  {
    if c == [] {
      assert c + d == d;
    } else {
      assert (c + d)[0] == c[0];
      assert (c + d)[1..] == c[1..] + d;
      FlattenAppend(c[1..], d);
    }
  }

  /**
   * The items of the i-th inserted page sit, in their own order, right after
   * the items of every page inserted before it.
   */
  lemma FlattenPlacesPage<T>(c: Cache<T>, i: int)
    requires 0 <= i < |c|
    ensures var start := TotalItems(c[..i]);
      start + |c[i].items| <= |Flatten(c)| &&
      Flatten(c)[start .. start + |c[i].items|] == c[i].items
  {
    assert c == c[..i] + ([c[i]] + c[i + 1..]);
    FlattenAppend(c[..i], [c[i]] + c[i + 1..]);
    assert Flatten([c[i]] + c[i + 1..]) == c[i].items + Flatten(c[i + 1..]);
  }

  /** An item is displayed exactly when some cached page holds it. */
  lemma {:induction false} FlattenMembership<T>(c: Cache<T>, x: T)
    ensures x in Flatten(c) <==> exists i :: 0 <= i < |c| && x in c[i].items
  {
    if c != [] {
      FlattenMembership(c[1..], x);
      if x in Flatten(c[1..]) {
        var i :| 0 <= i < |c[1..]| && x in c[1..][i].items;
        assert x in c[i + 1].items;
      }
      if exists i :: 0 <= i < |c| && x in c[i].items {
        var i :| 0 <= i < |c| && x in c[i].items;
        if i > 0 {
          assert x in c[1..][i - 1].items;
        }
      }
    }
  }

  /**
   * The rebuild follows insertion order, not page number: a cache that
   * received page 2 before page 1 shows page 2's items first.
   */
  lemma FlattenIsNotPageOrder<T>(a: T, b: T)
    ensures Flatten([Entry(2, [b]), Entry(1, [a])]) == [b, a]
  {
  }
}
