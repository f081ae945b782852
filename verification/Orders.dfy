/** Orders as the coupon lifecycle and the payment webhook see them
    (internal/modules/order/domain/order.go:16-29). */
module Orders {

  type User = string

  datatype OrderStatus =
    | Pending | Confirmed | Preparing | AwaitingPickUp | PickedUp | OutForDelivery | Delivered | Cancelled | Failed

  datatype Order = Order(user: User, coupon: bool, status: OrderStatus, test: bool)
  {
    /** The order is one of the user's uses of the coupon. */
    predicate Holds(u: User) {
      coupon && user == u && status != Cancelled
    }
  }
}
