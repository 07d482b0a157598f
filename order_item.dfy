/**
 * An order line: an immutable record of five fields, stored exactly as the
 * constructor receives them, with a derived line total.
 */
module OrderItems {

  /**
   * The constructor's argument order is (id, name, price, productId,
   * quantity); each field doubles as its getter. Nothing is validated here,
   * so an item with quantity 0 (or a negative one) can be built: the owning
   * Order is what rejects it. Prices are modelled as integers.
   */
  datatype OrderItem = OrderItem(id: string, name: string, price: int, productId: string, quantity: int)
  {
    /** orderTotalItem(): the price of the line times its quantity. */
    function LineTotal(): int {
      price * quantity
    }
  }
}
