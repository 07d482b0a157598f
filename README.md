# Sales domain: orders, addresses, the order repository and the event dispatcher

This project is a Dafny model of the core of a small sales domain. It covers:

- The entities. An `OrderItem` is a line of an order. An `Order` is an id, a customer id and a non-empty list of lines, and it derives its total from those lines. An `Address` is a value object with a one-line text form.
- The `Customer` and `Product` entities, as far as their unit tests fix their behaviour.
- The `OrderRepository`. It writes an order as one parent row plus one child row per line, and reads orders back through the validating `Order` constructor.
- The `EventDispatcher`, as far as its unit tests fix its behaviour. It keeps a map from event names to ordered lists of handlers, and `notify` calls every handler registered under an event's name.

Modules, one per file:

- `Wrappers` (`wrappers.dfy`): `Option`, `Result` and `Outcome`. A constructor or an operation that throws in the source returns a failure value here.
- `OrderItems` (`order_item.dfy`): the order line record and its line total.
- `Orders` (`order.dfy`): the `Order` aggregate. `Order` is a subset type, so an `Order` value has always passed validation. Validation precedence is stated against `BrokenRules`, the list of every broken rule in check order: the reported message is its first element. `Total` is the left fold of line totals, and it is proved equal to the independently defined sum `SumOfLines`.
- `Addresses` (`address.dfy`): the `Address` value object, its four-step validation and `ToString`. `ToString` is paired with a parser, `FromString`, and a round-trip lemma.
- `Customers` (`customer.dfy`) and `Products` (`product.dfy`): classes whose methods update fields in place.
- `Events` (`event_dispatcher.dfy`): the `EventDispatcher` class over `map<string, seq<HandlerId>>`.
  - `Register` and `Unregister` are specified by the pure functions `AddHandler` and `RemoveHandler`.
  - `Notify` loops over the subscribers and returns the trace of handler calls. Its contract states that the trace equals `Dispatch` of the subscribers, and the call counts are proved about `Dispatch`.
- `Repository` (`order_repository.dfy`): the `OrderRepository` class over two tables, `orders: seq<OrderRow>` and `items: seq<ItemRow>`.
  - `Create` and `Update` change the tables in place and keep the store invariant `StoreValid`: unique primary keys in both tables, no orphan child rows, and every order row rebuilds into a valid order whose total is the stored one.
  - `Find` and `FindAll` are pure reads.
  - Lemmas prove the create/find round trip, that `update` leaves exactly the new lines as the order's child rows, and that other orders are untouched.

Prices, quantities and totals are integers. Handlers are opaque identities (`HandlerId`), and invoking one is recorded as an `Invocation` in the trace that `Notify` returns.

## Model

| member | source | states |
|---|---|---|
| Orders.SomeNonPositive | src/domain/entity/order.ts:43 | the check that some line has a quantity of 0 or less holds exactly when not every quantity is positive |
| Orders.Validate | src/domain/entity/order.ts:30-48 | returns no message iff id and customer id are non-empty, the item list is non-empty and every quantity is > 0; otherwise it returns the first broken rule in the order id, customer id, item count, quantity, with the exact messages |
| Orders.NewOrder | src/domain/entity/order.ts:10-16 | construction succeeds iff the fields are well formed, and then stores them unchanged; a failure carries the validation message |
| Orders.NewOrderOfOrder | src/domain/entity/order.ts:10-16 | rebuilding an order from its own id, customer id and items gives back the same order |
| Orders.ValidationExamples | src/domain/entity/order.ts:30-45 | an empty id wins over an empty item list; an empty customer id is reported before the item count; an empty list fails on the item count; lines with quantity 0 or -3 fail on quantity |
| Orders.FoldTotalIsSum | src/domain/entity/order.ts:50-52 | the reduce with accumulator `acc` equals `acc` plus the sum of the line totals |
| Orders.TotalIsSumOfLines | src/domain/entity/order.ts:50-52 | `total()` is the sum over the lines of price times quantity |
| Orders.SumOfLinesAppend | src/domain/entity/order.ts:50-52 | the sum of line totals is additive over concatenation |
| Orders.TotalAppend | src/domain/entity/order.ts:50-52 | the total of two lists of lines, concatenated, is the sum of their totals |
| Orders.TotalOfOneLine | src/domain/entity/order_item.ts:37-39 | an order of one line totals that line's `orderTotalItem()`, its price times its quantity |
| Orders.SumNonNegative | src/domain/entity/order.ts:50-52 | with non-negative prices and positive quantities, the sum of line totals is non-negative |
| Orders.LineTotalBoundedByTotal | src/domain/entity/order.ts:50-52 | in a valid order with non-negative prices, each line total lies between 0 and the order total |
| Orders.TotalExamples | src/domain/entity/order.ts:50-52 | lines (100, 2) total 200; lines (100, 2) and (150, 2) total 500 |
| Addresses.Validate | src/domain/entity/address.ts:32-48 | returns no message iff street, zip and city are non-empty and the number is not 0; otherwise it returns the first broken rule in the order street, number, zip, city, with the exact messages |
| Addresses.NewAddress | src/domain/entity/address.ts:8-14 | construction succeeds iff the fields are well formed, and then stores them unchanged; a failure carries the validation message |
| Addresses.SingleMissingField | src/domain/entity/address.ts:32-48 | each field left empty or zeroed on its own is reported by its own message, and a negative number is accepted |
| Addresses.NatToString | src/domain/entity/address.ts:51-53 | the decimal text of a natural number is non-empty, made of digits only, has no leading zero unless it is the single digit "0", and reads back as that number, so it is the canonical decimal form the template literal prints |
| Addresses.IntToString | src/domain/entity/address.ts:51-53 | the house number as printed in the text form reads back as that integer and contains no comma; it starts with "-" exactly when the number is negative, every other character is a decimal digit, and the digits have no leading zero (so 0 prints as "0", never "-0" or "00") |
| Addresses.Split | src/domain/entity/address.ts:51-53 | a fact about the comma splitter used to read the text form back for the round trip (the source itself has no parser): splitting text at commas yields at least one piece |
| Addresses.SplitNoComma | src/domain/entity/address.ts:51-53 | a fact about the comma splitter used to read the text form back for the round trip (the source itself has no parser): text without a comma splits into itself alone |
| Addresses.SplitAtComma | src/domain/entity/address.ts:51-53 | a fact about the comma splitter used to read the text form back for the round trip (the source itself has no parser): splitting `a + "," + b`, with no comma in `a`, yields `a` followed by the pieces of `b` |
| Addresses.SplitToString | src/domain/entity/address.ts:51-53 | when street, zip and city contain no comma, the text form splits into exactly four pieces: the street, then the number, zip and city each after one space |
| Addresses.ToStringRoundTrip | src/domain/entity/address.ts:51-53 | when street, zip and city contain no comma, reading `toString()` back yields the same address |
| Addresses.ToStringInjective | src/domain/entity/address.ts:51-53 | two such addresses with the same text form are equal |
| Addresses.ToStringExample | src/domain/entity/address.ts:51-53 | the address ("Street 1", 1, "12345-678", "City 1") prints as "Street 1, 1, 12345-678, City 1" |
| Addresses.IntToStringExample | src/domain/entity/address.ts:51-53 | a house number of -42 prints as "-42" |
| Customers.Validate | src/domain/entity/customer.spec.ts:6-20 | construction is accepted iff id and name are non-empty; an empty id is reported first |
| Customers.Customer.constructor | src/domain/entity/customer.spec.ts:63-66 | a new customer keeps its id and name, has no address, is inactive and has 0 reward points |
| Customers.Customer.New | src/domain/entity/customer.spec.ts:6-20 | construction fails iff validation reports a message, with that message; otherwise it gives a fresh, inactive customer with no address and 0 points |
| Customers.Customer.ChangeName | src/domain/entity/customer.spec.ts:22-30 | the name becomes the given one |
| Customers.Customer.SetAddress | src/domain/entity/customer.spec.ts:32-42 | the customer now has the given address |
| Customers.Customer.Activate | src/domain/entity/customer.spec.ts:32-61 | fails iff no address is set, with "Address is mandatory to activate a customer" and nothing changed; otherwise the customer is active; an active customer always has an address |
| Customers.Customer.Deactivate | src/domain/entity/customer.spec.ts:44-52 | the customer is inactive |
| Customers.Customer.IsActive | src/domain/entity/customer.spec.ts:32-52 | a customer reported active has an address |
| Customers.Customer.AddRewardPoints | src/domain/entity/customer.spec.ts:63-73 | the reward points grow by exactly the points added |
| Products.Validate | src/domain/entity/product.spec.ts:5-24 | construction is accepted iff id and name are non-empty and the price is positive, with the first failure reported in that order |
| Products.Product.constructor | src/domain/entity/product.spec.ts:26-36 | a new product keeps its id, name and price |
| Products.Product.New | src/domain/entity/product.spec.ts:5-24 | construction fails iff validation reports a message, with that message; otherwise it gives a fresh product with those fields |
| Products.Product.ChangeName | src/domain/entity/product.spec.ts:26-30 | the name becomes the given one |
| Products.Product.ChangePrice | src/domain/entity/product.spec.ts:32-36 | the price becomes the given one, with no positivity check |
| Events.AddHandler | src/domain/event/@shared/event-dispatcher.spec.ts:18-22 | the name's list becomes its old list (empty if absent) with the handler appended; every other name's list is unchanged |
| Events.RemoveFirstTakesOneCopy | src/domain/event/@shared/event-dispatcher.spec.ts:108-112 | a registered handler loses exactly one copy from the list, which gets one shorter; a list without the handler is kept as it is |
| Events.RemoveHandler | src/domain/event/@shared/event-dispatcher.spec.ts:35-38 | a name is registered afterwards iff it was before, so an emptied list stays defined; a registered handler loses exactly one copy from the name's list, an unregistered one changes nothing; every other name's list is unchanged |
| Events.IndexOf | src/domain/event/@shared/event-dispatcher.spec.ts:35 | the position found holds the handler, and no earlier position does |
| Events.RemoveFirstAt | src/domain/event/@shared/event-dispatcher.spec.ts:108-112 | removing a handler whose first occurrence is at a given position takes out exactly that position and keeps the rest in order |
| Events.RemoveFirstSplices | src/domain/event/@shared/event-dispatcher.spec.ts:108-112 | unregistering a registered handler takes out exactly its first occurrence and keeps the rest in order |
| Events.RegisterFresh | src/domain/event/@shared/event-dispatcher.spec.ts:18-22 | registering under a new name makes its list defined, of length 1, holding the handler |
| Events.RegisterTwice | src/domain/event/@shared/event-dispatcher.spec.ts:86-92 | two registrations under one name keep both handlers, in registration order |
| Events.RegisterThenUnregister | src/domain/event/@shared/event-dispatcher.spec.ts:31-38 | unregistering the only handler leaves the name defined with an empty list |
| Events.UnregisterOneOfTwo | src/domain/event/@shared/event-dispatcher.spec.ts:102-112 | unregistering one of two handlers keeps the other; unregistering both leaves the name defined with an empty list |
| Events.CallsOfDispatch | src/domain/event/@shared/event-dispatcher.spec.ts:141-159 | in the trace of a dispatch to a list of handlers, each handler occurs as many times as it occurs in the list |
| Events.NotifyCallsEachRegistration | src/domain/event/@shared/event-dispatcher.spec.ts:63-76 | notifying an event calls each handler as many times as it is registered under the event's name, and no other handler |
| Events.RegisteredOnceCalledOnce | src/domain/event/@shared/event-dispatcher.spec.ts:168-182 | a handler registered once under an event's name is called exactly once when that event is notified |
| Events.EventDispatcher.constructor | src/domain/event/@shared/event-dispatcher.spec.ts:14 | a new dispatcher knows no event names |
| Events.EventDispatcher.GetEventHandlers | src/domain/event/@shared/event-dispatcher.spec.ts:20-22 | a name's list is undefined iff the name is not registered; a defined list is exactly the handlers notify calls for that name, and an undefined one means notify calls none |
| Events.EventDispatcher.Register | src/domain/event/@shared/event-dispatcher.spec.ts:86-92 | the registry becomes `AddHandler` of the old registry |
| Events.EventDispatcher.Unregister | src/domain/event/@shared/event-dispatcher.spec.ts:108-112 | the registry becomes `RemoveHandler` of the old registry |
| Events.EventDispatcher.UnregisterAll | src/domain/event/@shared/event-dispatcher.spec.ts:128-130 | looking up any name afterwards gives undefined |
| Events.EventDispatcher.Notify | src/domain/event/@shared/event-dispatcher.spec.ts:155-159 | the trace holds one call per handler registered under the event's name, in registration order, each with the event, and equals `Dispatch` of those handlers (so the call counts of `NotifyCallsEachRegistration` hold of it); it is empty for an unknown name |
| Repository.ToItem | src/infrastructure/repository/order.repository.ts:86-92 | rebuilding a line from a child row loses no column: writing the line back for the row's order gives the same row |
| Repository.ToItemsToRows | src/infrastructure/repository/order.repository.ts:86-93 | writing lines as child rows and reading them back yields the same lines, in order |
| Repository.ItemsOf | src/infrastructure/repository/order.repository.ts:78-82 | the child rows loaded for an order are rows of the table that carry that order id |
| Repository.DeleteItemsOf | src/infrastructure/repository/order.repository.ts:43 | a row survives the delete iff it was in the table and belongs to another order |
| Repository.RowIndex | src/infrastructure/repository/order.repository.ts:32-34 | finds no row iff no order row has the id; otherwise a position whose row has the id |
| Repository.Rebuild | src/infrastructure/repository/order.repository.ts:84-93 | rebuilding succeeds iff the row's customer id and child rows form a valid order, which is then that order; otherwise the failure is the constructor's validation message |
| Repository.FindIn | src/infrastructure/repository/order.repository.ts:76-96 | fails with NotFound iff no order row has the id; on success, the order has that id and its lines are the order's child rows |
| Repository.FindStoredRebuilds | src/infrastructure/repository/order.repository.ts:84-93 | for a stored id, find succeeds iff the row's customer id and the order's child rows form a valid order, and then returns exactly that order; otherwise it fails with the constructor's validation message |
| Repository.SameRowSameFind | src/infrastructure/repository/order.repository.ts:78-93 | find reads only the row holding the id and that order's child rows: two stores that agree on those give the same result |
| Repository.FindAllIn | src/infrastructure/repository/order.repository.ts:98-119 | succeeds iff every order row rebuilds, and then gives one order per row, in table order, each the rebuild of its row; a failure is the failure of some row's rebuild |
| Repository.FindAllInFirstFailure | src/infrastructure/repository/order.repository.ts:98-119 | when findAll fails, its error is the rebuild error of the first order row that fails, every earlier row rebuilding |
| Repository.FindAllInOfRebuilt | src/infrastructure/repository/order.repository.ts:98-119 | when every order row rebuilds into the matching order of a list, findAll gives exactly that list |
| Repository.ItemsOfAppend | src/infrastructure/repository/order.repository.ts:54 | an order's child rows in two tables, concatenated, are its rows in each |
| Repository.ItemsOfNone | src/infrastructure/repository/order.repository.ts:78-82 | a table with no row of an order yields no child rows for it |
| Repository.ItemsOfAll | src/infrastructure/repository/order.repository.ts:78-82 | a table whose rows all belong to an order yields all of them, in order |
| Repository.ItemsOfDelete | src/infrastructure/repository/order.repository.ts:43 | deleting one order's child rows leaves every other order's child rows as they were |
| Repository.DeleteOnlyOrder | src/infrastructure/repository/order.repository.ts:43 | deleting an order's child rows from a table holding only its rows empties it |
| Repository.WrittenItems | src/infrastructure/repository/order.repository.ts:43-54 | after the delete and the bulk insert, the order's child rows are exactly its new lines and every other order's rows are unchanged |
| Repository.UniqueItemIdsAppend | src/infrastructure/repository/order.repository.ts:54 | appending rows whose ids are unique and disjoint from the table's keeps item ids unique |
| Repository.UniqueItemIdsDelete | src/infrastructure/repository/order.repository.ts:43 | deleting rows keeps item ids unique |
| Repository.UniqueAfterWrite | src/infrastructure/repository/order.repository.ts:45-54 | writing lines with fresh, pairwise distinct ids keeps item ids unique |
| Repository.RowIndexAt | src/infrastructure/repository/order.repository.ts:32-34 | an id held by exactly one order row is found at that row |
| Repository.UniqueElsewhere | src/infrastructure/repository/order.repository.ts:32-34 | with unique order ids, an id held at one position is held nowhere else |
| Repository.AppendRowIds | src/infrastructure/repository/order.repository.ts:12-27 | inserting a parent row adds exactly its id to the stored ids |
| Repository.OverwriteRowIds | src/infrastructure/repository/order.repository.ts:36-41 | overwriting a parent row with one of the same id keeps the stored ids and their uniqueness |
| Repository.WriteKeepsStoreValid | src/infrastructure/repository/order.repository.ts:10-54 | writing an order's parent row and child rows over a table without its rows keeps the store invariant |
| Repository.NoRowsOfUnknownOrder | src/infrastructure/repository/order.repository.ts:10-27 | in a valid store, no child row refers to an order id that is not stored |
| Repository.CreateKeepsStoreValid | src/infrastructure/repository/order.repository.ts:10-27 | create keeps the store invariant |
| Repository.UpdateKeepsStoreValid | src/infrastructure/repository/order.repository.ts:30-54 | update keeps the store invariant |
| Repository.CreateThenFind | src/infrastructure/repository/order.repository.ts:76-96 | after create, find of the new id returns the order that was written |
| Repository.CreateKeepsOthers | src/infrastructure/repository/order.repository.ts:10-27 | create leaves what find returns for every other id unchanged |
| Repository.AppendKeepsRowIndex | src/infrastructure/repository/order.repository.ts:78-82 | with unique order ids, appending a row with another id leaves the position at which an id is found unchanged |
| Repository.UpdateThenFind | src/infrastructure/repository/order.repository.ts:43-54 | after update, the order's child rows are exactly its new lines and find returns the new order |
| Repository.UpdateKeepsOthers | src/infrastructure/repository/order.repository.ts:43 | update leaves what find returns for every other id unchanged |
| Repository.FindInValidStore | src/infrastructure/repository/order.repository.ts:76-96 | in a valid store, find succeeds iff the id is stored, with the stored customer id and a total equal to the stored total |
| Repository.FindAllInValidStore | src/infrastructure/repository/order.repository.ts:98-119 | in a valid store, findAll succeeds with one order per order row, each with its own id, customer id, child rows and stored total |
| Repository.RowsOfOrder | src/infrastructure/repository/order.repository.ts:45-52 | every child row written for an order points at that order |
| Repository.RebuildAmong | src/infrastructure/repository/order.repository.ts:84-93 | an order's child rows, with other orders' rows before and after them, rebuild exactly that order |
| Repository.RebuildBoth | src/infrastructure/repository/order.repository.ts:84-93 | each of two orders with different ids rebuilds exactly from the child rows of both |
| Repository.CreateTwoThenFindAll | src/infrastructure/repository/order.repository.spec.ts:189-246 | two orders with different ids, created one after the other in an empty store, are listed by findAll as exactly those two orders, in creation order |
| Repository.OrderWithoutItemsFailsValidation | src/infrastructure/repository/order.repository.ts:84-93 | an order row left without child rows surfaces as the constructor's "Item qtd must be greater than 0" error |
| Repository.OrderRepository.constructor | src/infrastructure/repository/order.repository.ts:8 | a new store has empty tables and satisfies the store invariant |
| Repository.OrderRepository.Create | src/infrastructure/repository/order.repository.ts:10-27 | appends the parent row, with the order's total, and one child row per line; keeps the store invariant |
| Repository.OrderRepository.Update | src/infrastructure/repository/order.repository.ts:30-54 | fails with NotFound iff the id is not stored, changing nothing and demanding nothing of the new lines; otherwise it overwrites the parent row in place, deletes the order's child rows and appends one per new line, keeping the store invariant |
| Repository.OrderRepository.Find | src/infrastructure/repository/order.repository.ts:76-96 | succeeds iff the id is stored, else NotFound; the order found has that id and the stored child rows as its lines |
| Repository.OrderRepository.FindAll | src/infrastructure/repository/order.repository.ts:98-119 | one order per stored order row, in table order, each with its id and its own child rows |

## Left out

- The database library, its models, `async`/`await` and promises. The store is two in-memory tables, and each repository operation runs as one sequential step.
- The un-awaited parent-row update in `update` and its possible interleaving with the delete and the insert. The steps are modelled as strictly sequential, and concurrent callers are not modelled.
- The commented-out diff-based variant of `update`, which is dead code.
- Rejection of writes by the database.
  - A taken order id, a taken line id and a repeated line id are rejections. They are preconditions of `Repository.OrderRepository.Create`, and of `Repository.OrderRepository.Update` only when the order is stored, rather than modelled failures.
  - The foreign keys from orders to customers and from lines to products are not modelled.
- Floating-point prices and totals. Prices, quantities and totals are integers, and rounding is not modelled.
- The percentage price increase of the product service, which works on floating-point numbers. It is not part of this model.
- The console-logging handler and handler bodies in general. A handler is an opaque identity, and its invocation is recorded in the trace.
- A handler that fails during `notify`, which would abort the remaining handlers.
- The timestamp and the untyped payload of events. An event is its type name plus an opaque payload string.
- The implementations of `Customer`, `Product` and `EventDispatcher`, which are not part of this model. Their models state only what their unit tests fix.
- Events.RemoveHandler: it removes the first occurrence of the handler. The tests only fix removal of a handler registered once.
- Customers.Validate: the messages are those the tests match, "Id is required" and "Name is required". The full messages may carry more text.
- Products.Validate: it rejects a price of 0 as well as a negative one. The tests only show -1, and the stated rule is "price greater than zero".
- Customers.Customer.ChangeName and Products.Product.ChangeName do not re-validate the new name. The tests do not fix this case.
- Customers.Customer.SetAddress also stands for `changeAddress`, which another test uses to set an address.
- Repository.FindIn: for an id with no order row, the code reads `customer_id` from the `null` that `findOne` returns and throws a runtime type error. The model names that failure `NotFound(id)`.
- Repository.OrderRepository.Update: for an id with no order row, the code calls `.update` on the `null` that `findByPk` returns and throws a runtime type error before any delete or insert. The model names that failure `NotFound(id)` and leaves both tables unchanged.
- Addresses.ToString: the house number is an integer. A fractional or NaN number, which validation lets through because only 0 is refused, is not captured. Neither is the exponent form that JavaScript prints for magnitudes from 1e21 on. The round trip `ToStringRoundTrip` is proved for all integers, which goes beyond what a JavaScript number can hold exactly past 2^53.
