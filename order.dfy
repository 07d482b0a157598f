/**
 * The Order aggregate: an identity, a customer reference and a non-empty
 * sequence of order lines, validated once at construction, with a total
 * derived from its lines.
 */
module Orders {
  import opened Wrappers
  import opened OrderItems

  const IdRequired := "Id is required."
  const CustomerIdRequired := "Customer id is required."
  const ItemsRequired := "Item qtd must be greater than 0"
  const QuantityPositive := "Quantity must be greater then 0."

  /** The fields of an order, before validation. */
  datatype OrderData = OrderData(id: string, customerId: string, items: seq<OrderItem>)

  predicate AllQuantitiesPositive(items: seq<OrderItem>) {
    forall i :: 0 <= i < |items| ==> items[i].quantity > 0
  }

  /** What validate() accepts. */
  predicate WellFormed(o: OrderData) {
    o.id != "" && o.customerId != "" && |o.items| > 0 && AllQuantitiesPositive(o.items)
  }

  /**
   * An Order that exists has passed validation: the constructor throws
   * before an invalid instance can be observed.
   */
  type Order = o: OrderData | WellFormed(o)
    witness OrderData("o", "c", [OrderItem("i", "n", 0, "p", 1)])

  /**
   * Every rule the fields break, in the order validate() checks them. An
   * empty item list breaks the item-count rule but not the quantity rule.
   */
  function BrokenRules(id: string, customerId: string, items: seq<OrderItem>): seq<string> {
    (if id == "" then [IdRequired] else [])
    + (if customerId == "" then [CustomerIdRequired] else [])
    + (if items == [] then [ItemsRequired] else [])
    + (if !AllQuantitiesPositive(items) then [QuantityPositive] else [])
  }

  /** Whether some line has a quantity that is not positive, looking from the first line on. */
  function SomeNonPositive(items: seq<OrderItem>): (b: bool)
    ensures b <==> !AllQuantitiesPositive(items)
  {
    if items == [] then false
    else items[0].quantity <= 0 || SomeNonPositive(items[1..])
  }

  /**
   * validate(): the message of the first failing check, or None when the
   * order is valid. The first broken rule wins.
   */
  function Validate(id: string, customerId: string, items: seq<OrderItem>): (r: Option<string>)
    ensures r.None? <==> WellFormed(OrderData(id, customerId, items))
    ensures r.None? <==> BrokenRules(id, customerId, items) == []
    ensures r.Some? ==> r.value == BrokenRules(id, customerId, items)[0]
  {
    if |id| == 0 then Some(IdRequired)
    else if |customerId| == 0 then Some(CustomerIdRequired)
    else if |items| == 0 then Some(ItemsRequired)
    else if SomeNonPositive(items) then Some(QuantityPositive)
    else None
  }

  /**
   * new Order(id, customerId, items): the fields are stored unchanged and
   * validated; a failure carries the validation message.
   */
  function NewOrder(id: string, customerId: string, items: seq<OrderItem>): (r: Result<Order, string>)
    ensures r.Success? <==> WellFormed(OrderData(id, customerId, items))
    ensures r.Success? ==> r.value.id == id && r.value.customerId == customerId && r.value.items == items
    ensures r.Failure? ==> Validate(id, customerId, items) == Some(r.error)
  {
    match Validate(id, customerId, items)
    case Some(message) => Failure(message)
    case None => Success(OrderData(id, customerId, items))
  }

  /** The reduction behind total(): starting from acc, each line's total is added in turn, first line first. */
  function FoldTotal(acc: int, items: seq<OrderItem>): int
    decreases |items|
  {
    if items == [] then acc else FoldTotal(acc + items[0].LineTotal(), items[1..])
  }

  /** total(): the reduction of the line totals, starting from 0. */
  function Total(items: seq<OrderItem>): int {
    FoldTotal(0, items)
  }

  /** The sum of the line totals, defined independently of the reduction. */
  function SumOfLines(items: seq<OrderItem>): int {
    if items == [] then 0 else items[0].LineTotal() + SumOfLines(items[1..])
  }

  /** The reduction from acc ends at acc plus the sum of the line totals. */
  lemma {:induction false} FoldTotalIsSum(acc: int, items: seq<OrderItem>)
    ensures FoldTotal(acc, items) == acc + SumOfLines(items)
    decreases |items|
  {
    if items != [] {
      FoldTotalIsSum(acc + items[0].LineTotal(), items[1..]);
    }
  }

  /** The total is the sum over the lines of price times quantity. */
  lemma TotalIsSumOfLines(items: seq<OrderItem>)
    ensures Total(items) == SumOfLines(items)
  {
    FoldTotalIsSum(0, items);
  }

  lemma {:induction false} SumOfLinesAppend(a: seq<OrderItem>, b: seq<OrderItem>)
    ensures SumOfLines(a + b) == SumOfLines(a) + SumOfLines(b)
    decreases |a|
  {
    if a == [] {
      assert a + b == b;
    } else {
      assert (a + b)[1..] == a[1..] + b;
      SumOfLinesAppend(a[1..], b);
    }
  }

  /** Adding lines to an order adds their line totals to its total. */
  lemma TotalAppend(a: seq<OrderItem>, b: seq<OrderItem>)
    ensures Total(a + b) == Total(a) + Total(b)
  {
    TotalIsSumOfLines(a + b);
    TotalIsSumOfLines(a);
    TotalIsSumOfLines(b);
    SumOfLinesAppend(a, b);
  }

  /** A single line's order total is that line's own total. */
  lemma TotalOfOneLine(item: OrderItem)
    ensures Total([item]) == item.price * item.quantity
  {
    assert [item][1..] == [];
    assert FoldTotal(0, [item]) == FoldTotal(item.LineTotal(), []);
  }

  /** With no negative price, the total bounds every line total. */
  lemma {:induction false} LineTotalBoundedByTotal(items: seq<OrderItem>, k: nat)
    requires k < |items|
    requires AllQuantitiesPositive(items)
    requires forall i :: 0 <= i < |items| ==> items[i].price >= 0
    ensures 0 <= items[k].LineTotal() <= Total(items)
    decreases |items|
  {
    TotalIsSumOfLines(items);
    SumNonNegative(items[1..]);
    if k > 0 {
      LineTotalBoundedByTotal(items[1..], k - 1);
      TotalIsSumOfLines(items[1..]);
    }
  }

  lemma {:induction false} SumNonNegative(items: seq<OrderItem>)
    requires forall i :: 0 <= i < |items| ==> items[i].price >= 0 && items[i].quantity > 0
    ensures SumOfLines(items) >= 0
    decreases |items|
  {
    if items != [] {
      SumNonNegative(items[1..]);
    }
  }

  /** The two totals exercised for an order: one line, then two lines. */
  lemma TotalExamples()
    ensures Total([OrderItem("i1", "Item 1", 100, "p1", 2)]) == 200
    ensures Total([OrderItem("i1", "Item 1", 100, "p1", 2), OrderItem("i2", "Item 2", 150, "p2", 2)]) == 500
  {
  }

  /**
   * The validation messages for the rejected orders: an empty id wins over
   * an empty item list, an empty customer id is reported before the item
   * count, and a zero-quantity line (which OrderItem itself accepts) fails
   * on quantity.
   */
  lemma ValidationExamples()
    ensures NewOrder("", "123", []) == Failure(IdRequired)
    ensures NewOrder("123", "", []) == Failure(CustomerIdRequired)
    ensures NewOrder("123", "123", []) == Failure(ItemsRequired)
    ensures NewOrder("o1", "c1", [OrderItem("i1", "Item 1", 100, "p1", 0)]) == Failure(QuantityPositive)
    ensures NewOrder("o1", "c1", [OrderItem("i1", "Item 1", 100, "p1", -3)]) == Failure(QuantityPositive)
  {
  }

  /** Rebuilding an order from its own fields gives back the same order. */
  lemma NewOrderOfOrder(o: Order)
    ensures NewOrder(o.id, o.customerId, o.items) == Success(o)
  {
  }
}
