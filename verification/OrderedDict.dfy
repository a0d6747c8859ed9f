// An OrderedDict is a map with the sequence of its keys in insertion order. The
// predicate Orders relates the two; the lemmas are its insert, delete and pop.
module OrderedDict {

  predicate NoDuplicates<T(==)>(s: seq<T>) {
    forall i, j :: 0 <= i < j < |s| ==> s[i] != s[j]
  }

  function Without<T>(s: seq<T>, i: nat): seq<T>
    requires i < |s|
  {
    s[..i] + s[i + 1..]
  }

  /** Pigeonhole: distinct elements of a list are no more than the list is long. */
  lemma {:induction false} Pigeonhole<T>(s: seq<T>, names: seq<T>)
    requires NoDuplicates(s) && forall i :: 0 <= i < |s| ==> s[i] in names
    ensures |s| <= |names|
    decreases |s|
  {
    if s != [] {
      var front, last := s[..|s| - 1], s[|s| - 1];
      var k :| 0 <= k < |names| && names[k] == last;
      forall i | 0 <= i < |front|
        ensures front[i] in Without(names, k)
      {
        assert front[i] == s[i] && s[i] != last;
        var m :| 0 <= m < |names| && names[m] == s[i];
        assert Without(names, k)[if m < k then m else m - 1] == s[i];
      }
      Pigeonhole(front, Without(names, k));
    }
  }

  // The keys of an OrderedDict in insertion order.
  predicate Orders<K(==), V(==)>(order: seq<K>, m: map<K, V>)
    decreases |order|
  {
    if order == [] then m == map[]
    else order[|order| - 1] in m && Orders(order[..|order| - 1], m - {order[|order| - 1]})
  }

  lemma {:induction false} OrdersKeys<K, V>(order: seq<K>, m: map<K, V>, k: K)
    requires Orders(order, m)
    ensures k in m <==> k in order
    decreases |order|
  {
    if order != [] {
      var front, last := order[..|order| - 1], order[|order| - 1];
      OrdersKeys(front, m - {last}, k);
      assert order == front + [last];
    }
  }

  lemma {:induction false} OrdersDistinct<K, V>(order: seq<K>, m: map<K, V>)
    requires Orders(order, m)
    ensures NoDuplicates(order) && |order| == |m|
    decreases |order|
  {
    if order != [] {
      var front, last := order[..|order| - 1], order[|order| - 1];
      OrdersDistinct(front, m - {last});
      OrdersKeys(front, m - {last}, last);
      assert (m - {last}).Keys == m.Keys - {last};
      assert forall i :: 0 <= i < |front| ==> order[i] == front[i] && front[i] in front;
    }
  }

  lemma OrdersFacts<K, V>(order: seq<K>, m: map<K, V>)
    requires Orders(order, m)
    ensures NoDuplicates(order) && |order| == |m|
    ensures forall i :: 0 <= i < |order| ==> order[i] in m
    ensures forall k :: k in m ==> k in order
  {
    OrdersDistinct(order, m);
    forall k ensures k in m <==> k in order {
      OrdersKeys(order, m, k);
    }
  }

  lemma {:induction false} OrdersRemove<K, V>(order: seq<K>, m: map<K, V>, i: nat)
    requires Orders(order, m) && i < |order|
    ensures order[i] in m && Orders(Without(order, i), m - {order[i]})
    decreases |order|
  {
    var front, last := order[..|order| - 1], order[|order| - 1];
    if i == |order| - 1 {
      assert Without(order, i) == front;
    } else {
      OrdersRemove(front, m - {last}, i);
      assert Without(order, i)[..|order| - 2] == Without(front, i);
      assert m - {last} - {order[i]} == m - {order[i]} - {last};
    }
  }

  lemma {:induction false} OrdersPut<K, V>(order: seq<K>, m: map<K, V>, key: K, v: V)
    requires Orders(order, m)
    ensures Orders(if key in m then order else order + [key], m[key := v])
    decreases |order|
  {
    if key !in m {
      assert (order + [key])[..|order|] == order;
      assert m[key := v] - {key} == m;
    } else {
      var front, last := order[..|order| - 1], order[|order| - 1];
      if last == key {
        assert m[key := v] - {key} == m - {key};
      } else {
        OrdersPut(front, m - {last}, key, v);
        assert m[key := v] - {last} == (m - {last})[key := v];
      }
    }
  }

  // popitem(last=False), and putting the popped row back at the end.
  lemma OrdersPop<K, V>(order: seq<K>, m: map<K, V>)
    requires Orders(order, m) && m != map[]
    ensures order != [] && order[0] in m
    ensures Orders(order[1..], m - {order[0]})
    ensures Orders(order[1..] + [order[0]], m)
  {
    OrdersRemove(order, m, 0);
    assert Without(order, 0) == order[1..];
    OrdersPut(order[1..], m - {order[0]}, order[0], m[order[0]]);
    assert (m - {order[0]})[order[0] := m[order[0]]] == m;
  }

  // The keys without one of them.
  function Others<K(==)>(order: seq<K>, key: K): seq<K> {
    if order == [] then []
    else Others(order[..|order| - 1], key) + (if order[|order| - 1] == key then [] else [order[|order| - 1]])
  }

  lemma {:induction false} OthersOfAbsent<K>(order: seq<K>, key: K)
    requires key !in order
    ensures Others(order, key) == order
  {
    if order != [] {
      OthersOfAbsent(order[..|order| - 1], key);
    }
  }

  lemma OthersSnoc<K>(order: seq<K>, key: K)
    ensures Others(order + [key], key) == Others(order, key)
  {
    assert (order + [key])[..|order|] == order;
  }

  /** In a list without duplicates, leaving out one position leaves out that key. */
  lemma {:induction false} WithoutIsOthers<K>(order: seq<K>, i: nat)
    requires NoDuplicates(order) && i < |order|
    ensures Without(order, i) == Others(order, order[i])
  {
    var front, last := order[..|order| - 1], order[|order| - 1];
    if i == |order| - 1 {
      OthersOfAbsent(front, last);
      assert Without(order, i) == front;
    } else {
      WithoutIsOthers(front, i);
      assert Without(order, i) == Without(front, i) + [last];
    }
  }
}
