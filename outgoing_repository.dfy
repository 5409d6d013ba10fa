/**
 * The older in-memory order repository.  It filters and paginates like the
 * current one but never sorts, so a page is a slice of whatever order the
 * map iteration happened to produce.  The filter compares the canonical
 * string of the customer UUID with the given string.
 */
module OutgoingRepository {
  import opened Wrappers
  import opened CoreOrder
  import opened MapIteration
  import opened Paging

  ghost predicate KeyedByOrderId(m: map<string, Order>)
  {
    forall k :: k in m ==> m[k].orderId == k
  }

  /** No filter keeps everything; otherwise `o.CustomerID.String()` must equal the filter string. */
  predicate Matches(o: Order, customerId: Option<string>)
  {
    customerId.None? || UuidString(o.customerId) == customerId.value
  }

  /** `filteredOrders` after the loop has visited the keys `ks`, in that order. */
  function Filtered(m: map<string, Order>, ks: seq<string>, customerId: Option<string>): seq<Order>
    requires forall k :: k in ks ==> k in m
  {
    if ks == [] then []
    else
      var rest := Filtered(m, ks[..|ks| - 1], customerId);
      var o := m[ks[|ks| - 1]];
      if Matches(o, customerId) then rest + [o] else rest
  }

  /** Filter soundness and completeness for one visit order. */
  lemma {:induction false} FilteredMembers(m: map<string, Order>, ks: seq<string>, customerId: Option<string>, x: Order)
    requires forall k :: k in ks ==> k in m
    ensures x in Filtered(m, ks, customerId) <==> (exists k :: k in ks && m[k] == x) && Matches(x, customerId)
  {
    if ks != [] {
      var init := ks[..|ks| - 1];
      FilteredMembers(m, init, customerId, x);
      assert ks == init + [ks[|ks| - 1]];
      if exists k :: k in ks && m[k] == x {
        var k :| k in ks && m[k] == x;
        assert k in init || k == ks[|ks| - 1];
      }
    }
  }

  /** Filtering by the canonical string of a UUID selects exactly that customer's orders. */
  lemma MatchesCanonicalUuid(o: Order, customer: Uuid)
    ensures Matches(o, Some(UuidString(customer))) <==> o.customerId == customer
  {
    if Matches(o, Some(UuidString(customer))) {
      UuidStringInjective(o.customerId, customer);
    }
  }

  /** A filter string holding an upper-case letter never matches: UUID strings are lower case. */
  lemma UpperCaseFilterMatchesNothing(o: Order, filter: string, i: nat)
    requires i < |filter| && 'A' <= filter[i] <= 'Z'
    ensures !Matches(o, Some(filter))
  {
  }

  /** `outgoing.Repository`: the order map; the mutex beside it is not modelled. */
  class Repository {
    var orders: map<string, Order>

    ghost predicate Valid()
      reads this
    {
      KeyedByOrderId(orders)
    }

    /** `NewRepository`: an empty map. */
    constructor ()
      ensures Valid() && orders == map[]
    {
      orders := map[];
    }

    /** Inserts or overwrites the order under its ID; never fails. */
    method StoreOrder(o: Order) returns (err: Option<Error>)
      requires Valid()
      modifies this
      ensures Valid()
      ensures err == None
      ensures orders == old(orders)[o.orderId := o]
    {
      orders := orders[o.orderId := o];
      err := None;
    }

    /** `(order, true)` when stored, `(Order{}, false)` otherwise. */
    method GetOrder(orderId: string) returns (o: Order, found: bool)
      ensures found <==> orderId in orders
      ensures found ==> o == orders[orderId]
      ensures !found ==> o == ZeroOrder
    {
      found := orderId in orders;
      o := if found then orders[orderId] else ZeroOrder;
    }

    /**
     * Filters and paginates in map-iteration order.  The ghost `visitOrder`
     * is the order the loop happened to visit the keys in; nothing fixes it.
     */
    method GetOrders(customerId: Option<string>, limit: int, offset: int)
      returns (result: seq<Order>, ghost visitOrder: seq<string>)
      ensures IsKeyOrder(orders, visitOrder)
      ensures result == Page(Filtered(orders, visitOrder, customerId), limit, offset)
      ensures forall o :: o in result ==> (exists k :: k in orders && orders[k] == o) && Matches(o, customerId)
      ensures |result| <= (if limit <= 0 then 0 else limit)
      ensures offset >= |Filtered(orders, visitOrder, customerId)| ==> result == []
    {
      var filteredOrders: seq<Order> := [];
      visitOrder := [];
      var unvisited := orders.Keys;
      while unvisited != {}
        invariant unvisited <= orders.Keys
        invariant NoDuplicates(visitOrder)
        invariant forall k :: k in visitOrder <==> k in orders && k !in unvisited
        invariant filteredOrders == Filtered(orders, visitOrder, customerId)
        decreases unvisited
      {
        var id :| id in unvisited;
        var o := orders[id];
        unvisited := unvisited - {id};
        visitOrder := visitOrder + [id];
        if customerId.Some? && UuidString(o.customerId) != customerId.value {
          continue;
        }
        filteredOrders := filteredOrders + [o];
      }

      result := Paginate(filteredOrders, limit, offset);
      PageBounds(filteredOrders, limit, offset);
      forall o | o in result
        ensures (exists k :: k in orders && orders[k] == o) && Matches(o, customerId)
      {
        FilteredMembers(orders, visitOrder, customerId, o);
      }
    }
  }

  /**
   * The defect of this variant: for one and the same map, two visit orders the
   * language allows give different first pages (limit 1, offset 0).
   */
  lemma UnsortedPageDependsOnVisitOrder()
    ensures exists m: map<string, Order>, ks1: seq<string>, ks2: seq<string> ::
              && KeyedByOrderId(m) && IsKeyOrder(m, ks1) && IsKeyOrder(m, ks2)
              && Page(Filtered(m, ks1, None), 1, 0) != Page(Filtered(m, ks2, None), 1, 0)
  {
    var a := Order("A", NilUuid, 0, "order_placed", []);
    var b := Order("B", NilUuid, 0, "order_placed", []);
    var m := map["A" := a, "B" := b];
    var ks1, ks2 := ["A", "B"], ["B", "A"];
    assert Filtered(m, ["A"], None) == [a] by {
      assert ["A"][..0] == [];
    }
    assert Filtered(m, ["B"], None) == [b] by {
      assert ["B"][..0] == [];
    }
    assert ks1[..1] == ["A"] && ks2[..1] == ["B"];
    assert Page(Filtered(m, ks1, None), 1, 0) == [a];
    assert Page(Filtered(m, ks2, None), 1, 0) == [b];
    assert IsKeyOrder(m, ks1) && IsKeyOrder(m, ks2);
  }
}
