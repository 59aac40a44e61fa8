/** Small sequence and set helpers shared by the server and the viewer:
    the newest-n window of a bounded log, and listing a set's members in an
    unspecified order as ranging over a hash map does. */
module Collections {

  /** The last n elements of h, or all of h when it is shorter. */
  function Last<T>(h: seq<T>, n: nat): (r: seq<T>)
    ensures |r| == if |h| <= n then |h| else n
    ensures forall k :: 0 <= k < |r| ==> r[k] == h[|h| - |r| + k]
  {
    if |h| <= n then h else h[|h| - n..]
  }

  /** Concatenation regroups freely. */
  lemma AppendAssociative<T>(a: seq<T>, b: seq<T>, c: seq<T>)
    ensures a + b + c == a + (b + c)
  {
  }

  /** Appending to a window of the newest n gives the window of the longer
      history. */
  lemma LastOfAppend<T>(h: seq<T>, x: T, n: nat)
    requires n > 0
    ensures Last(Last(h, n) + [x], n) == Last(h + [x], n)
  {
    var w := Last(h, n) + [x];
    var g := h + [x];
    assert |Last(w, n)| == |Last(g, n)|;
    forall k | 0 <= k < |Last(g, n)|
      ensures Last(w, n)[k] == Last(g, n)[k]
    {
      var m := |Last(g, n)|;
      if k == m - 1 {
        assert Last(w, n)[k] == w[|w| - 1];
      } else {
        assert Last(w, n)[k] == w[|w| - m + k];
        assert w[|w| - m + k] == Last(h, n)[|w| - m + k];
      }
    }
  }

  /** Appending one element to a window that is at most n long and trimming
      to n drops the window's oldest element exactly when it was full. */
  lemma LastSlide<T>(w: seq<T>, x: T, n: nat)
    requires 0 < n && |w| <= n
    ensures Last(w + [x], n) == (if |w| == n then w[1..] else w) + [x]
  {
    if |w| == n {
      assert (w + [x])[|w + [x]| - n..] == w[1..] + [x];
    }
  }

  /** order lists every key exactly once. */
  ghost predicate IsEnumeration<K(!new)>(order: seq<K>, keys: set<K>) {
    (forall a, b :: 0 <= a < b < |order| ==> order[a] != order[b]) &&
    (forall k :: k in order <==> k in keys)
  }

  lemma {:induction false} EnumerationSize<K(!new)>(order: seq<K>, keys: set<K>)
    requires IsEnumeration(order, keys)
    ensures |order| == |keys|
  {
    if order != [] {
      var n := |order| - 1;
      var last := order[n];
      var rest := keys - {last};
      forall k ensures k in order[..n] <==> k in rest {
        if k in order[..n] {
          var a :| 0 <= a < n && order[..n][a] == k;
          assert order[a] == k && a < n;
        }
      }
      assert IsEnumeration(order[..n], rest);
      EnumerationSize(order[..n], rest);
    }
  }

  /** Walks a set in an unspecified order, like ranging over a Go map. */
  method Enumerate<K(==,!new)>(keys: set<K>) returns (order: seq<K>)
    ensures IsEnumeration(order, keys)
  {
    order := [];
    var remaining := keys;
    while remaining != {}
      invariant forall a, b :: 0 <= a < b < |order| ==> order[a] != order[b]
      invariant forall k :: k in order ==> k in keys && k !in remaining
      invariant forall k :: k in keys ==> k in order || k in remaining
      invariant remaining <= keys
      decreases |remaining|
    {
      var k :| k in remaining;
      order := order + [k];
      remaining := remaining - {k};
    }
  }

}
