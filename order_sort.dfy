/**
 * The deterministic order of the current repository's listing: creation
 * date ascending, ties broken by order ID ascending (Go's byte-wise string
 * `<`).  `sort.Slice` is a library call whose algorithm is not part of the
 * model; it is modelled by its result, a sorted permutation, computed here by
 * insertion.  `SortedPermutationUnique` shows why the choice of algorithm does
 * not matter: when order IDs are distinct there is only one sorted permutation.
 */
module OrderSort {
  import opened GoStrings
  import opened Domain

  /** The `less` function handed to `sort.Slice`. */
  predicate OrderLess(a: Order, b: Order)
  {
    if a.creationDate == b.creationDate then StringLess(a.orderId, b.orderId)
    else a.creationDate < b.creationDate
  }

  /** No later element is strictly smaller than an earlier one. */
  ghost predicate SortedByDateThenId(s: seq<Order>)
  {
    forall i, j :: 0 <= i < j < |s| ==> !OrderLess(s[j], s[i])
  }

  /** Every element is strictly smaller than every later one. */
  ghost predicate StrictlyAscending(s: seq<Order>)
  {
    forall i, j :: 0 <= i < j < |s| ==> OrderLess(s[i], s[j])
  }

  /** Equal order IDs mean equal orders, as for the values of a map keyed by order ID. */
  ghost predicate KeyedById(s: seq<Order>)
  {
    forall i, j :: 0 <= i < |s| && 0 <= j < |s| && s[i].orderId == s[j].orderId ==> s[i] == s[j]
  }

  lemma OrderLessIrreflexive(a: Order)
    ensures !OrderLess(a, a)
  {
    StringLessIrreflexive(a.orderId);
  }

  lemma OrderLessAsymmetric(a: Order, b: Order)
    requires OrderLess(a, b)
    ensures !OrderLess(b, a)
  {
    if a.creationDate == b.creationDate {
      StringLessAsymmetric(a.orderId, b.orderId);
    }
  }

  /** Orders with different IDs are always comparable. */
  lemma OrderLessTotal(a: Order, b: Order)
    requires a.orderId != b.orderId
    ensures OrderLess(a, b) || OrderLess(b, a)
  {
    if a.creationDate == b.creationDate {
      StringLessTotal(a.orderId, b.orderId);
    }
  }

  /** "Not less" is transitive, so the comparator describes a total preorder. */
  lemma NotLessTransitive(a: Order, b: Order, c: Order)
    requires !OrderLess(a, b) && !OrderLess(b, c)
    ensures !OrderLess(a, c)
  {
    if a.creationDate == b.creationDate == c.creationDate && StringLess(a.orderId, c.orderId) {
      if a.orderId == b.orderId {
      } else if b.orderId == c.orderId {
      } else {
        StringLessTotal(a.orderId, b.orderId);
        StringLessTotal(b.orderId, c.orderId);
        StringLessTransitive(c.orderId, b.orderId, a.orderId);
        StringLessAsymmetric(a.orderId, c.orderId);
      }
    }
  }

  /** Inserts `x` before the first element that is not smaller than it. */
  function Insert(x: Order, s: seq<Order>): (r: seq<Order>)
    requires SortedByDateThenId(s)
    ensures SortedByDateThenId(r)
    ensures multiset(r) == multiset(s) + multiset{x}
  {
    if s == [] then [x]
    else if OrderLess(s[0], x) then
      var tail := Insert(x, s[1..]);
      assert s == [s[0]] + s[1..];
      InsertHeadStaysFirst(s[0], x, s[1..], tail);
      [s[0]] + tail
    else
      NotLessThanHead(x, s);
      [x] + s
  }

  lemma InsertHeadStaysFirst(h: Order, x: Order, rest: seq<Order>, tail: seq<Order>)
    requires OrderLess(h, x)
    requires forall j :: 0 <= j < |rest| ==> !OrderLess(rest[j], h)
    requires SortedByDateThenId(tail)
    requires multiset(tail) == multiset(rest) + multiset{x}
    ensures SortedByDateThenId([h] + tail)
  {
    OrderLessAsymmetric(h, x);
    forall j | 0 <= j < |tail|
      ensures !OrderLess(tail[j], h)
    {
      assert tail[j] in multiset(tail);
      if tail[j] != x {
        assert tail[j] in multiset(rest);
        var k :| 0 <= k < |rest| && rest[k] == tail[j];
      }
    }
  }

  lemma NotLessThanHead(x: Order, s: seq<Order>)
    requires s != [] && SortedByDateThenId(s) && !OrderLess(s[0], x)
    ensures SortedByDateThenId([x] + s)
  {
    forall j | 0 <= j < |s|
      ensures !OrderLess(s[j], x)
    {
      if j > 0 {
        NotLessTransitive(s[j], s[0], x);
      }
    }
  }

  /** The result of `sort.Slice` with `OrderLess`: a sorted permutation of its input. */
  function SortOrders(s: seq<Order>): (r: seq<Order>)
    ensures SortedByDateThenId(r)
    ensures multiset(r) == multiset(s)
  {
    if s == [] then []
    else
      assert s == [s[0]] + s[1..];
      Insert(s[0], SortOrders(s[1..]))
  }

  /** With distinct IDs the sort is strict: it puts no two orders in an order the comparator cannot tell apart. */
  lemma SortedIsStrict(s: seq<Order>)
    requires SortedByDateThenId(s) && KeyedById(s)
    requires forall i, j :: 0 <= i < j < |s| ==> s[i] != s[j]
    ensures StrictlyAscending(s)
  {
    forall i, j | 0 <= i < j < |s|
      ensures OrderLess(s[i], s[j])
    {
      OrderLessTotal(s[i], s[j]);
    }
  }

  lemma MultisetTail(s: seq<Order>)
    requires s != []
    ensures multiset(s[1..]) == multiset(s) - multiset{s[0]}
  {
    assert s == [s[0]] + s[1..];
  }

  /** Two sorted sequences with the same orders, one order per ID, start with the same order. */
  lemma SortedHeadsEqual(a: seq<Order>, b: seq<Order>)
    requires a != [] && SortedByDateThenId(a) && SortedByDateThenId(b)
    requires multiset(a) == multiset(b)
    requires KeyedById(a)
    ensures b != [] && a[0] == b[0]
  {
    assert a[0] in multiset(b) && b[0] in multiset(a);
    var i :| 0 <= i < |a| && a[i] == b[0];
    var j :| 0 <= j < |b| && b[j] == a[0];
    if a[0] != b[0] {
      OrderLessTotal(a[0], b[0]);
      assert false;
    }
  }

  /**
   * Determinism of the listing: two sorted sequences holding the same orders,
   * with one order per ID, are the same sequence.  So the result does not
   * depend on the map's iteration order nor on the sorting algorithm.
   */
  lemma {:induction false} SortedPermutationUnique(a: seq<Order>, b: seq<Order>)
    requires SortedByDateThenId(a) && SortedByDateThenId(b)
    requires multiset(a) == multiset(b)
    requires KeyedById(a)
    ensures a == b
  {
    if a == [] {
      assert |multiset(b)| == 0;
    } else {
      SortedHeadsEqual(a, b);
      MultisetTail(a);
      MultisetTail(b);
      SortedPermutationUnique(a[1..], b[1..]);
      assert a == [a[0]] + a[1..] && b == [b[0]] + b[1..];
    }
  }
}
