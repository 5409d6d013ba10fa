/**
 * The order service of the older `core/order` layout, holding that layout's
 * in-memory repository.  Its IDs carry the `-NONE-` segment; there is no
 * country and so no validation error.  The ULID and the clock are parameters.
 */
module CoreService {
  import opened Wrappers
  import opened CoreOrder
  import opened MapIteration
  import opened Paging
  import OutgoingRepository

  const OrderPlaced := "order_placed"

  class Service {
    const repository: OutgoingRepository.Repository

    /** `NewService`. */
    constructor (repository: OutgoingRepository.Repository)
      ensures this.repository == repository
    {
      this.repository := repository;
    }

    /** Builds an order with status "order_placed" from the request, stores it and returns it. */
    method CreateOrder(orderRequest: OrderRequest, ulid: string, now: Time) returns (order: Order, err: Option<Error>)
      requires |ulid| == UlidLength
      requires repository.Valid()
      modifies repository
      ensures repository.Valid()
      ensures err.Some? ==> order == ZeroOrder
      ensures err.None? ==>
                && order.status == OrderPlaced
                && order.customerId == orderRequest.customerId
                && order.items == orderRequest.items
                && order.creationDate == now
                && ParseOrderID(order.orderId) == Some(ulid)
                && repository.orders == old(repository.orders)[order.orderId := order]
      ensures err == None
    {
      order := Order(
        orderId := GenerateOrderID(ulid),
        customerId := orderRequest.customerId,
        creationDate := now,
        status := OrderPlaced,
        items := orderRequest.items);
      ParseGeneratedOrderID(ulid);
      err := repository.StoreOrder(order);
      if err.Some? {
        return ZeroOrder, err;
      }
    }

    /** Passthrough to the repository. */
    method GetOrder(orderId: string) returns (order: Order, found: bool)
      ensures found <==> orderId in repository.orders
      ensures found ==> order == repository.orders[orderId]
      ensures !found ==> order == ZeroOrder
    {
      order, found := repository.GetOrder(orderId);
    }

    /** Passthrough to the repository: a page of the orders in some visit order of the map. */
    method GetOrders(customerId: Option<string>, limit: int, offset: int)
      returns (result: seq<Order>, ghost visitOrder: seq<string>)
      ensures IsKeyOrder(repository.orders, visitOrder)
      ensures result == Page(OutgoingRepository.Filtered(repository.orders, visitOrder, customerId), limit, offset)
      ensures forall o :: o in result ==>
        (exists k :: k in repository.orders && repository.orders[k] == o) && OutgoingRepository.Matches(o, customerId)
      ensures |result| <= (if limit <= 0 then 0 else limit)
    {
      result, visitOrder := repository.GetOrders(customerId, limit, offset);
    }
  }
}
