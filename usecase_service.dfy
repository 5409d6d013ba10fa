/**
 * The use-case order service of the current layout.  It holds the in-memory
 * repository of this layout (the Go code types the field as the repository
 * port; see README).  The ULID and the clock are parameters.
 *
 * The Go call `dom.GenerateOrderID()` passes no country although the domain
 * function takes one and also returns an error; this model passes the
 * request's country and returns that error, as the HTTP adapter expects.
 */
module UsecaseService {
  import opened Wrappers
  import opened Domain
  import opened Paging
  import MemoryRepository

  const OrderPlaced := "order_placed"

  class Service {
    const repo: MemoryRepository.Repository

    /** `NewService`. */
    constructor (repo: MemoryRepository.Repository)
      ensures this.repo == repo
    {
      this.repo := repo;
    }

    /**
     * Builds an order with status "order_placed" from the request, stores it
     * and returns it.  A bad country stops before anything is stored; a store
     * error would be returned with the zero order.
     */
    method CreateOrder(req: OrderRequest, ulid: string, now: Time) returns (ord: Order, err: Option<Error>)
      requires |ulid| == UlidLength
      requires repo.Valid()
      modifies repo
      ensures repo.Valid()
      ensures err.Some? <==> !ValidCountry(req.country)
      ensures err.Some? ==> err == Some(ErrInvalidCountry) && ord == ZeroOrder && repo.orders == old(repo.orders)
      ensures err.None? ==>
                && ord.status == OrderPlaced
                && ord.customerId == req.customerId
                && ord.items == req.items
                && ord.creationDate == now
                && GenerateOrderID(req.country, ulid) == (ord.orderId, None)
                && repo.orders == old(repo.orders)[ord.orderId := ord]
    {
      var (orderId, idErr) := GenerateOrderID(req.country, ulid);
      if idErr.Some? {
        return ZeroOrder, idErr;
      }
      ord := Order(
        orderId := orderId,
        customerId := req.customerId,
        creationDate := now,
        status := OrderPlaced,
        items := req.items);
      var storeErr := repo.StoreOrder(ord);
      if storeErr.Some? {
        return ZeroOrder, storeErr;
      }
      err := None;
    }

    /** Passthrough to the repository. */
    method GetOrder(orderId: string) returns (ord: Order, found: bool)
      ensures found <==> orderId in repo.orders
      ensures found ==> ord == repo.orders[orderId]
      ensures !found ==> ord == ZeroOrder
    {
      ord, found := repo.GetOrder(orderId);
    }

    /** Passthrough to the repository. */
    method GetOrders(customerId: Option<string>, limit: int, offset: int) returns (result: seq<Order>)
      requires repo.Valid()
      ensures result == Page(MemoryRepository.Listing(repo.orders, customerId), limit, offset)
    {
      result := repo.GetOrders(customerId, limit, offset);
    }
  }

  /**
   * The end-to-end scenario: after a successful create, reading the order
   * back by its ID returns the very order that was returned.
   */
  method CreateThenGet(s: Service, req: OrderRequest, ulid: string, now: Time)
    returns (created: Order, err: Option<Error>, fetched: Order, found: bool)
    requires |ulid| == UlidLength && s.repo.Valid()
    modifies s.repo
    ensures err.None? ==> found && fetched == created && created.status == OrderPlaced
    ensures err.None? ==> ParseOrderID(created.orderId) == Some((ulid, req.country))
  {
    created, err := s.CreateOrder(req, ulid, now);
    fetched, found := s.GetOrder(created.orderId);
    if err.None? {
      ParseGeneratedOrderID(req.country, ulid);
    }
  }
}
