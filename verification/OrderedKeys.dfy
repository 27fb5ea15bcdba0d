/** The iteration order of the overflow maps: ascending prices for asks, descending for bids. */
module OrderedKeys {
  import opened MarketTypes

  lemma Pick<T>(s: set<T>) returns (x: T)
    requires s != {}
    ensures x in s
  {
    x :| x in s;
  }

  // Some element of a non-empty set, always the same one.
  ghost function Any<T>(s: set<T>): (x: T)
    requires s != {}
    ensures x in s
  {
    var x :| x in s;
    x
  }

  lemma NothingLeft<T>(s: set<T>, t: set<T>)
    requires s - t == {}
    ensures s <= t
  {
    forall x | x in s ensures x in t {
      assert x in t || x in s - t;
    }
  }

  lemma {:induction false} BestExists(side: Side, keys: set<int>)
    requires keys != {}
    ensures exists k | k in keys :: forall j | j in keys :: j == k || Better(side, k, j)
  {
    var x := Pick(keys);
    var rest := keys - {x};
    if rest == {} {
      assert keys == {x};
    } else {
      BestExists(side, rest);
      var k :| k in rest && forall j | j in rest :: j == k || Better(side, k, j);
      var w := if Better(side, x, k) then x else k;
      assert keys == rest + {x};
      assert w in keys && forall j | j in keys :: j == w || Better(side, w, j);
    }
  }

  // `begin()` of the map with these keys, or None for `end()`.
  function First(side: Side, keys: set<int>): (r: Option<int>)
    ensures r.None? <==> keys == {}
    ensures r.Some? ==> r.value in keys && forall k | k in keys :: k == r.value || Better(side, r.value, k)
  {
    if keys == {} then None
    else
      BestExists(side, keys);
      var k :| k in keys && forall j | j in keys :: j == k || Better(side, k, j);
      Some(k)
  }
}
