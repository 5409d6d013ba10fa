/**
 * The current in-memory order repository: a map from order ID to order.
 * `GetOrders` filters by an optional customer ID, sorts by (creation date,
 * order ID) and paginates.  The read/write mutex is not modelled: each call
 * runs alone.
 */
module MemoryRepository {
  import opened Wrappers
  import opened Domain
  import opened OrderSort
  import opened MapIteration
  import opened Paging

  /** Every order is stored under its own order ID, as `StoreOrder` does. */
  ghost predicate KeyedByOrderId(m: map<string, Order>)
  {
    forall k :: k in m ==> m[k].orderId == k
  }

  /** The filter of the listing loop: no customer ID keeps everything, otherwise exact string equality. */
  predicate Matches(o: Order, customerId: Option<string>)
  {
    customerId.None? || o.customerId == customerId.value
  }

  /** `filteredOrders` after the loop has visited the keys `ks`, in that order. */
  function Filtered(m: map<string, Order>, ks: seq<string>, customerId: Option<string>): seq<Order>
    requires forall k :: k in ks ==> k in m
  {
    if ks == [] then []
    else
      var rest := Filtered(m, ks[..|ks| - 1], customerId);
      var o := m[ks[|ks| - 1]];
      if Matches(o, customerId) then rest + [o] else rest
  }

  /** How often an order occurs in the filtered list: once if it is stored, visited and matches, else never. */
  lemma {:induction false} FilteredCount(m: map<string, Order>, ks: seq<string>, customerId: Option<string>, x: Order)
    requires KeyedByOrderId(m) && NoDuplicates(ks)
    requires forall k :: k in ks ==> k in m
    ensures multiset(Filtered(m, ks, customerId))[x] ==
              if x.orderId in ks && m[x.orderId] == x && Matches(x, customerId) then 1 else 0
  {
    if ks != [] {
      var init := ks[..|ks| - 1];
      var last := ks[|ks| - 1];
      assert NoDuplicates(init);
      FilteredCount(m, init, customerId, x);
      assert x.orderId in ks <==> x.orderId in init || x.orderId == last;
      assert last !in init;
    }
  }

  /** The filtered list depends on the visit order only up to permutation. */
  lemma FilteredPermutation(m: map<string, Order>, ks1: seq<string>, ks2: seq<string>, customerId: Option<string>)
    requires KeyedByOrderId(m) && IsKeyOrder(m, ks1) && IsKeyOrder(m, ks2)
    ensures multiset(Filtered(m, ks1, customerId)) == multiset(Filtered(m, ks2, customerId))
  {
    forall x
      ensures multiset(Filtered(m, ks1, customerId))[x] == multiset(Filtered(m, ks2, customerId))[x]
    {
      FilteredCount(m, ks1, customerId, x);
      FilteredCount(m, ks2, customerId, x);
    }
  }

  /**
   * The listing `GetOrders` pages through: the stored orders that match,
   * sorted by creation date and then order ID.
   */
  ghost function Listing(m: map<string, Order>, customerId: Option<string>): seq<Order>
  {
    SortOrders(Filtered(m, SomeKeyOrder(m), customerId))
  }

  /** Occurrences in a sequence are counted by its multiset. */
  lemma RepeatedElementCountsTwice(s: seq<Order>, i: nat, j: nat)
    requires i < j < |s| && s[i] == s[j]
    ensures multiset(s)[s[i]] >= 2
  {
    assert s == s[..j] + s[j..];
    assert s[i] in s[..j];
    assert s[j] == s[j..][0];
  }

  /** The elements of the listing, counted: each matching stored order exactly once. */
  lemma ListingCount(m: map<string, Order>, customerId: Option<string>, x: Order)
    requires KeyedByOrderId(m)
    ensures multiset(Listing(m, customerId))[x] ==
              if x.orderId in m && m[x.orderId] == x && Matches(x, customerId) then 1 else 0
  {
    FilteredCount(m, SomeKeyOrder(m), customerId, x);
  }

  /** Filter soundness and completeness, and the order of the listing. */
  lemma ListingProperties(m: map<string, Order>, customerId: Option<string>)
    requires KeyedByOrderId(m)
    ensures forall x :: x in Listing(m, customerId) ==>
              x.orderId in m && m[x.orderId] == x && Matches(x, customerId)
    ensures forall k :: k in m && Matches(m[k], customerId) ==> m[k] in Listing(m, customerId)
    ensures NoDuplicates(Listing(m, customerId))
    ensures StrictlyAscending(Listing(m, customerId))
  {
    var l := Listing(m, customerId);
    forall x | x in l
      ensures x.orderId in m && m[x.orderId] == x && Matches(x, customerId)
    {
      ListingCount(m, customerId, x);
    }
    forall k | k in m && Matches(m[k], customerId)
      ensures m[k] in l
    {
      ListingCount(m, customerId, m[k]);
    }
    forall i, j | 0 <= i < j < |l|
      ensures l[i] != l[j]
    {
      if l[i] == l[j] {
        RepeatedElementCountsTwice(l, i, j);
        ListingCount(m, customerId, l[i]);
      }
    }
    assert KeyedById(l) by {
      forall i, j | 0 <= i < |l| && 0 <= j < |l| && l[i].orderId == l[j].orderId
        ensures l[i] == l[j]
      {
        ListingCount(m, customerId, l[i]);
        ListingCount(m, customerId, l[j]);
      }
    }
    SortedIsStrict(l);
  }

  /**
   * Determinism: whatever order the loop visits the map in, filtering and
   * sorting yield the same listing.
   */
  lemma ListingIndependentOfVisitOrder(m: map<string, Order>, ks: seq<string>, customerId: Option<string>)
    requires KeyedByOrderId(m) && IsKeyOrder(m, ks)
    ensures SortOrders(Filtered(m, ks, customerId)) == Listing(m, customerId)
  {
    var l := Listing(m, customerId);
    var s := SortOrders(Filtered(m, ks, customerId));
    FilteredPermutation(m, ks, SomeKeyOrder(m), customerId);
    ListingProperties(m, customerId);
    assert KeyedById(l) by {
      forall i, j | 0 <= i < |l| && 0 <= j < |l| && l[i].orderId == l[j].orderId
        ensures l[i] == l[j]
      {
      }
    }
    SortedPermutationUnique(l, s);
  }

  /**
   * Pages of size k at offsets 0, k, 2k, ... of one listing, concatenated,
   * give the whole listing back, and two different pages share no order.
   */
  lemma ConsecutivePagesPartition(m: map<string, Order>, customerId: Option<string>, k: int)
    requires KeyedByOrderId(m) && k > 0
    ensures PagesFrom(Listing(m, customerId), k, 0) == Listing(m, customerId)
    ensures forall o1: nat, o2: nat, x :: o1 + k <= o2 && x in Page(Listing(m, customerId), k, o1) ==>
              x !in Page(Listing(m, customerId), k, o2)
  {
    var l := Listing(m, customerId);
    PagesFromCoverList(l, k, 0);
    ListingProperties(m, customerId);
    forall o1: nat, o2: nat, x | o1 + k <= o2 && x in Page(l, k, o1)
      ensures x !in Page(l, k, o2)
    {
      PagesDisjoint(l, k, o1, o2, x);
    }
  }

  /** `memory.Repository`: the order map; the mutex beside it is not modelled. */
  class Repository {
    var orders: map<string, Order>

    ghost predicate Valid()
      reads this
    {
      KeyedByOrderId(orders)
    }

    /** `NewRepository`: an empty map. */
    constructor ()
      ensures Valid() && orders == map[]
    {
      orders := map[];
    }

    /** Inserts or overwrites the order under its ID; never fails. */
    method StoreOrder(ord: Order) returns (err: Option<Error>)
      requires Valid()
      modifies this
      ensures Valid()
      ensures err == None
      ensures orders == old(orders)[ord.orderId := ord]
      ensures |orders| == |old(orders)| + (if ord.orderId in old(orders) then 0 else 1)
    {
      orders := orders[ord.orderId := ord];
      err := None;
    }

    /** Looks an order up: `(order, true)` when stored, `(Order{}, false)` otherwise. */
    method GetOrder(orderId: string) returns (ord: Order, found: bool)
      ensures found <==> orderId in orders
      ensures found ==> ord == orders[orderId]
      ensures found && Valid() ==> ord.orderId == orderId
      ensures !found ==> ord == ZeroOrder
    {
      found := orderId in orders;
      ord := if found then orders[orderId] else ZeroOrder;
    }

    /** Filters, sorts by (creation date, order ID), and returns the requested page. */
    method GetOrders(customerId: Option<string>, limit: int, offset: int) returns (result: seq<Order>)
      requires Valid()
      ensures result == Page(Listing(orders, customerId), limit, offset)
      ensures forall o :: o in result ==> o.orderId in orders && orders[o.orderId] == o && Matches(o, customerId)
      ensures |result| <= (if limit <= 0 then 0 else limit)
    {
      var filteredOrders: seq<Order> := [];
      ghost var visited: seq<string> := [];
      var unvisited := orders.Keys;
      while unvisited != {}
        invariant unvisited <= orders.Keys
        invariant NoDuplicates(visited)
        invariant forall k :: k in visited <==> k in orders && k !in unvisited
        invariant filteredOrders == Filtered(orders, visited, customerId)
        decreases unvisited
      {
        var id :| id in unvisited;
        var ord := orders[id];
        unvisited := unvisited - {id};
        visited := visited + [id];
        if customerId.Some? && ord.customerId != customerId.value {
          continue;
        }
        filteredOrders := filteredOrders + [ord];
      }

      var sorted := SortOrders(filteredOrders);
      ListingIndependentOfVisitOrder(orders, visited, customerId);

      result := Paginate(sorted, limit, offset);
      ListingProperties(orders, customerId);
      PageBounds(sorted, limit, offset);
    }
  }
}
