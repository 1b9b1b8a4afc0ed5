/** Enumerating sets the way a program walks a Map or a record, and the sizes involved. */
module Collections {
  datatype Option<+T> = None | Some(value: T)

  function Elements<T>(s: seq<T>): set<T> { set x | x in s }

  lemma {:induction false} ElementsLength<T>(s: seq<T>)
    ensures |Elements(s)| <= |s|
  {
    if s == [] {
    } else {
      var n := |s| - 1;
      ElementsLength(s[..n]);
      ElementsSnoc(s[..n], s[n]);
      assert s == s[..n] + [s[n]];
    }
  }

  lemma ElementsSnoc<T>(s: seq<T>, x: T)
    ensures Elements(s + [x]) == Elements(s) + {x}
  {
  }

  lemma ElementsAgain<T>(s: seq<T>, x: T)
    requires x in s
    ensures Elements(s + [x]) == Elements(s)
  {
    ElementsSnoc(s, x);
  }

  predicate Distinct<T(==)>(s: seq<T>) { |Elements(s)| == |s| }

  lemma DistinctSnoc<T>(s: seq<T>, x: T)
    ensures Distinct(s + [x]) <==> Distinct(s) && x !in s
  {
    ElementsSnoc(s, x);
    ElementsLength(s);
    if x in s {
      assert Elements(s) + {x} == Elements(s);
    }
  }

  /** `order` visits every element of `s` exactly once: the iteration order of a Map or record. */
  predicate Lists<T(==)>(order: seq<T>, s: set<T>) {
    Elements(order) == s && |order| == |s|
  }

  lemma ListsPrefix<T>(order: seq<T>, s: set<T>, i: nat)
    requires Lists(order, s) && i < |order|
    ensures order[i] in s && order[i] !in order[..i]
    ensures Elements(order[..i + 1]) == Elements(order[..i]) + {order[i]}
    ensures order[..|order|] == order
  {
    assert order[i] in Elements(order);
    assert order[..i + 1] == order[..i] + [order[i]];
    DistinctPrefix(order, i + 1);
    DistinctSnoc(order[..i], order[i]);
  }

  lemma {:induction false} DistinctPrefix<T>(s: seq<T>, k: nat)
    requires Distinct(s) && k <= |s|
    ensures Distinct(s[..k])
    decreases |s|
  {
    if k < |s| {
      var n := |s| - 1;
      assert s == s[..n] + [s[n]];
      DistinctSnoc(s[..n], s[n]);
      assert s[..n][..k] == s[..k];
      DistinctPrefix(s[..n], k);
    } else {
      assert s[..k] == s;
    }
  }

  /** A set is visited in some order. */
  method Enumerate<T(==)>(s: set<T>) returns (order: seq<T>)
    ensures Lists(order, s)
  {
    order := [];
    var left := s;
    while left != {}
      invariant Distinct(order)
      invariant left <= s && Elements(order) == s - left
      decreases left
    {
      var x :| x in left;
      DistinctSnoc(order, x);
      ElementsSnoc(order, x);
      order := order + [x];
      left := left - {x};
    }
  }

  lemma ListExists<T>(s: set<T>) returns (order: seq<T>)
    ensures Lists(order, s)
    decreases s
  {
    if s == {} {
      order := [];
    } else {
      var x :| x in s;
      var rest := ListExists(s - {x});
      ElementsSnoc(rest, x);
      order := rest + [x];
    }
  }

  // Loops over an enumerated set that act on the elements of a part of it.

  function Among<T>(seen: seq<T>, part: set<T>): set<T> { set x | x in seen && x in part }

  lemma NoneListed<T>(order: seq<T>, part: set<T>)
    ensures Among(order[..0], part) == {} && Lists([], Among(order[..0], part))
  {
  }

  lemma AmongNext<T>(order: seq<T>, i: nat, part: set<T>)
    requires i < |order| && Distinct(order)
    ensures order[i] !in Among(order[..i], part)
    ensures order[i] !in part ==> Among(order[..i + 1], part) == Among(order[..i], part)
    ensures order[i] in part ==> Among(order[..i + 1], part) == Among(order[..i], part) + {order[i]}
  {
    ListsPrefix(order, Elements(order), i);
    assert order[..i + 1] == order[..i] + [order[i]];
  }

  lemma AmongAll<T>(order: seq<T>, all: set<T>, part: set<T>)
    requires Lists(order, all) && part <= all
    ensures Among(order[..|order|], part) == part
  {
  }

  /** Recording one more visited element that belongs to `part`. */
  lemma ListsGrow<T>(found: seq<T>, order: seq<T>, i: nat, part: set<T>)
    requires i < |order| && Distinct(order) && order[i] in part
    requires Lists(found, Among(order[..i], part))
    ensures Lists(found + [order[i]], Among(order[..i + 1], part))
  {
    AmongNext(order, i, part);
    ElementsSnoc(found, order[i]);
  }

  lemma DropNext<K, V>(m: map<K, V>, order: seq<K>, i: nat, part: set<K>)
    requires i < |order| && Distinct(order)
    ensures m - Among(order[..i + 1], part) ==
      if order[i] in part then (m - Among(order[..i], part)) - {order[i]} else m - Among(order[..i], part)
  {
  }

  lemma SameMaps<K, V>(a: map<K, V>, b: map<K, V>)
    requires forall k <- a :: k in b && b[k] == a[k]
    requires forall k <- b :: k in a
    ensures a == b
  {
  }

  // Sizes.

  lemma PartitionSize<T>(x: set<T>, y: set<T>, z: set<T>, whole: set<T>)
    requires x * y == {} && x * z == {} && y * z == {}
    requires forall e <- whole :: e in x || e in y || e in z
    requires x <= whole && y <= whole && z <= whole
    ensures |x| + |y| + |z| == |whole|
  {
    assert (x + y) * z == {};
    assert x + y + z == whole;
  }

  lemma UnionAssociates<T>(a: set<T>, b: set<T>, c: set<T>)
    ensures (a + b) + c == a + (b + c)
  {
  }

  lemma {:induction false} SubsetSize<T>(a: set<T>, b: set<T>)
    requires a <= b
    ensures |a| <= |b|
    decreases |b|
  {
    if a == {} {
    } else {
      var x :| x in a;
      SubsetSize(a - {x}, b - {x});
    }
  }
}
