# Shop back end: catalog, order ledger and payment webhook

A Dafny model of the three services of a NestJS/Prisma shop back end that
hold real logic, and proofs about them. The database is replaced by
in-memory tables (sequences of records), so each service is modelled
against those tables:

- **Pagination** (`pagination.dfy`, module `Pagination`). An optional page
  number and page size become `{perPage, skip}`. An absent or zero value
  falls back to page 1, or to the default page size of 30. A negative value
  is kept as given. `skip = (page - 1) * perPage`.
- **Catalog** (`catalog.dfy`, module `Catalog`). The listing picks one of
  four orders from the sort value, with newest first as the default. It
  filters on a case-insensitive search term that may occur in the category
  name, the name or the description. It takes the pagination window of the
  sorted products and counts every filtered product. The lookups by id, by
  slug and by category slug, and the similar-products query, are functions
  of the product table. `ProductStore` owns the table and provides create,
  update and delete.
- **Orders** (`orders.dfy`, module `Orders`). Placing an order folds
  `price * quantity` over the lines and inserts one order with the
  caller's status. The payment webhook dispatches on the event type. An
  event awaiting capture asks the gateway to capture the payment. A
  success notice reads the order id from the text after the first `#` in
  the description and marks that order PAYED. Any other event is answered
  `true`. `Reconcile` gives the webhook's effect as a function, and
  `OrderStore.UpdateStatus` is proved to apply exactly that.

Helper modules: `Wrappers` (Option, Result), `Seqs` (filter, first match,
skip/take window), `Sorting` (a permutation sorted by an integer key; a
descending order sorts by the negated field) and `Text` (ASCII
lower-casing, substring search, splitting on one character, decimal
digits).

The model follows the code where it departs from the behaviour the
system evidently intends:

- The webhook writes PAYED unconditionally. An order that is already PAYED
  or CANCELLED becomes PAYED too (`Orders.SucceededMarksPayed`). A
  compare-and-set from PENDING would leave a CANCELLED order CANCELLED.
- Placing an order checks nothing. An empty cart is stored with total 0,
  and the status is whatever the caller sent. Neither is rejected, and the
  status is not forced to PENDING.
- An absent or zero page falls back to 1, but a negative page is not
  clamped. It gives a negative skip, which the store refuses
  (`Catalog.GetAllSucceedsIff`). A clamp of every value `<= 0` to 1 would
  make every page number valid.

Behaviour of the code that the model makes explicit:

- Slugs are unique, because `bySlug` looks one up with `findUnique`.
  `create` always writes the blank slug `""`, so a second `create` fails
  while an earlier blank product has not been updated
  (`Catalog.ProductStore.Create`).
- The NotFound guard of `byCategory` tests the list itself. An empty list
  is truthy in JavaScript, so the guard never fires, and an unknown
  category gives an empty list.
- `getSimilar` on a product without a category reads a field of `null`.
  The model reports this as `NoCategory`.
- A payment object without a description makes `.split` throw. The model
  answers `NoDescription` and leaves the table unchanged.
- The order id is `Number(...)` of a piece of the split description. The
  piece after a trailing `#` is `""`, which reads as 0; ids start at 1, so
  such a notice fails with OrderNotFound.

The model receives the external inputs as parameters:

- The creation time `now` of each record.
- The slug function `slugOf`. `generateSlug` is not part of this model, so
  the store receives it at construction.
- The category table.
- The gateway's capture. A capture is recorded in the ghost log
  `OrderStore.captured` and answered `Captured(paymentId)`.

## Model

| member | source | states |
|---|---|---|
| `Pagination.GetPagination` | src/pagination/pagination.service.ts:6-12 | a falsy page size gives the default and any other is kept; a falsy page skips nothing and page p skips p - 1 pages; the lemmas below state what this means for a client |
| `Pagination.MissingPageIsFirst` | src/pagination/pagination.service.ts:7-10 | an absent or zero page gives the same window as page 1, so skip is 0 |
| `Pagination.PerPageChoice` | src/pagination/pagination.service.ts:6-8 | an absent or zero page size gives the default (30 when none is passed); a non-zero one is kept as given, negative included |
| `Pagination.SkipCountsEarlierPages` | src/pagination/pagination.service.ts:10 | for page p >= 1 the skip equals the records on the p - 1 earlier pages, counted page by page |
| `Pagination.ConsecutivePagesTile` | src/pagination/pagination.service.ts:10 | page p + 1 starts where page p ends: skip(p + 1) == skip(p) + perPage |
| `Pagination.SkipIsWholePages` | src/pagination/pagination.service.ts:10 | for p >= 1 and a non-negative page size, skip is non-negative and a multiple of the page size |
| `Pagination.NegativePageNotClamped` | src/pagination/pagination.service.ts:7-10 | a negative page is used as given and skips backwards, by more than one page |
| `Pagination.WindowValidIff` | src/pagination/pagination.service.ts:7-12 | skip and page size are both non-negative iff neither input is negative |
| `Catalog.SortChoice` | src/product/product.service.ts:20-30 | each sort value selects exactly one order; `newest` or no sort selects creation time descending |
| `Catalog.SortedBy` | src/product/product.service.ts:61-67 | the store's result is a permutation of its input, in the order the sort key names |
| `Catalog.SearchIsDisjunction` | src/product/product.service.ts:32-57 | with a non-empty term a product is listed iff the term occurs, ignoring case, in its category name, name or description |
| `Catalog.NoTermNoFilter` | src/product/product.service.ts:32-57 | an absent or empty term filters nothing out |
| `Catalog.GetAll` | src/product/product.service.ts:17-75 | fails only with InvalidWindow; length is the number of filtered products; the page holds at most perPage of them; `GetAllSucceedsIff`, `GetAllListing` and `TwoPagesMakeOneDouble` state the rest |
| `Catalog.GetAllSucceedsIff` | src/product/product.service.ts:59-67 | the listing succeeds iff neither page nor page size is negative |
| `Catalog.GetAllListing` | src/product/product.service.ts:17-75 | with no negative page or page size the listing succeeds; the page is the skip/perPage window of the filtered products put in the requested order (some ordered permutation of them; tie order open), so at most perPage products, each in the table and passing the filter; its size is what remains after skip; length counts all filtered products |
| `Catalog.TwoPagesMakeOneDouble` | src/product/product.service.ts:59-67 | pages 2k - 1 and 2k of size n, one after the other, are exactly page k of size 2n |
| `Catalog.InOrderOfSlice` | src/product/product.service.ts:61-67 | the skip/take window of an ordered list is ordered |
| `Catalog.ById` | src/product/product.service.ts:77-88 | returns a product with that id, or NotFound exactly when none has it |
| `Catalog.BySlug` | src/product/product.service.ts:90-101 | returns a product with that slug, or NotFound exactly when none has it |
| `Catalog.ByCategory` | src/product/product.service.ts:103-116 | returns exactly the products whose category has that slug, each as often as in the table, never an error |
| `Catalog.GetSimilar` | src/product/product.service.ts:118-139 | NotFound iff no product has the id; NoCategory iff it has no category; otherwise every other product of the same category name, each as often as in the table, none else, newest first |
| `Catalog.RemoveById` | src/product/product.service.ts:186-190 | removing an id from a table of unique ids removes that one record and nothing else |
| `Catalog.ProductStore.Create` | src/product/product.service.ts:141-152 | appends one blank product with a fresh id and returns the id; fails, changing nothing, while the blank slug is taken |
| `Catalog.ProductStore.Update` | src/product/product.service.ts:154-174 | overwrites name, generated slug, description, images, price and category of that product only; fails, changing nothing, with NotFound on an unknown product or category and with SlugTaken on a slug another product holds |
| `Catalog.ProductStore.Delete` | src/product/product.service.ts:176-191 | NotFound and no change iff no product has the id; otherwise removes that product only and returns it |
| `Text.ContainsIff` | src/product/product.service.ts:38-39 | the substring search matches iff some window of the text equals the term |
| `Text.TermCaseIrrelevant` | src/product/product.service.ts:38-39 | the letter case of the search term does not change the match |
| `Orders.FoldTotal` | src/order/order.service.ts:40 | the reduce from acc adds the sum of price * quantity over all lines, that sum defined independently, last line last |
| `Orders.Total` | src/order/order.service.ts:40 | the stored total is the sum of price * quantity over the lines; `TotalIsSumOfLines` and `TotalNonNegative` give its properties |
| `Orders.TotalIsSumOfLines` | src/order/order.service.ts:40 | the total is the sum of the line amounts; no lines give 0; totals add over concatenated carts |
| `Orders.TotalNonNegative` | src/order/order.service.ts:40 | with positive quantities and non-negative prices the total is not negative |
| `Text.JoinSplit` | src/order/order.service.ts:86 | splitting on '#' loses nothing: joining the pieces gives the description back |
| `Text.SplitJoin` | src/order/order.service.ts:86 | splitting a join of '#'-free pieces gives those pieces |
| `Text.ParseShow` | src/order/order.service.ts:86 | reading the decimal digits of n gives n |
| `Orders.OrderIdAfterHash` | src/order/order.service.ts:86 | a description `prefix#<n>`, with or without further '#' pieces, carries order id n |
| `Orders.ParseOrderId` | src/order/order.service.ts:86 | an id is read only from a description holding a '#', and is never negative; `OrderIdAfterHash` gives the id read from `prefix#<n>`, and `Text.JoinSplit`, `Text.SplitJoin` and `Text.ParseShow` the round trips it rests on |
| `Orders.Reconcile` | src/order/order.service.ts:79-101 | the webhook's effect: the table keeps its length, changes only on an acknowledged success notice, and a failure changes nothing; the lemmas below state each case |
| `Orders.SucceededMarksPayed` | src/order/order.service.ts:85-97 | a success notice for an existing order answers true and sets that order to PAYED whatever its status; nothing else changes |
| `Orders.SucceededFailures` | src/order/order.service.ts:86-95 | a success notice without a description, without an id, or for an unknown id, fails and leaves the table unchanged |
| `Orders.OtherEventsLeaveOrders` | src/order/order.service.ts:79-101 | a capture event returns the capture and leaves the table unchanged; any other event answers true and leaves it unchanged |
| `Orders.ReconcileIdempotent` | src/order/order.service.ts:85-97 | delivering the same notification twice gives the same answer and table as once |
| `Orders.SetStatusIdempotent` | src/order/order.service.ts:88-95 | writing the same status twice is writing it once |
| `Orders.GetAll` | src/order/order.service.ts:19-36 | returns exactly that user's orders, each as often as in the table (once each under the store's unique ids), newest first |
| `Orders.OrderStore.PlaceOrder` | src/order/order.service.ts:39-77 | inserts one order with a fresh id, the lines, user and status as sent and the folded total; existing orders unchanged |
| `Orders.OrderStore.UpdateStatus` | src/order/order.service.ts:79-101 | the new table and the answer are those of `Reconcile`; only a capture event extends the capture log |

## Left out

- The payment gateway client (src/order/order.service.ts:10-13, 81) is a network service. A capture changes no order. Its reply and its failures are not modelled.
- The commented-out payment creation (src/order/order.service.ts:57-75) is dead code. Its description `Order ${order.id}` holds no `#`, so the webhook could not parse it.
- src/pagination/pagination.dto.ts is not part of this model. Page and page size arrive already converted to numbers, and zero is falsy. If they arrived as the text `"0"`, that text would be truthy and give page 0.
- `Number(...)` and unary `+` are modelled on decimal digit strings only. Whitespace, signs, fractions, exponents and hex literals are not modelled, and such a piece reads as no number.
- Orders.Total: the source folds in JavaScript doubles, exact only up to 2^53, and stores the result in a bounded database column. Lines are not validated, so a client can send a total past either bound. The model's total is an exact, unbounded integer; rounding and the column's overflow error are not modelled.
- Orders.OrderStore.PlaceOrder: stores any total, because the column's bound is not modelled (see Orders.Total). It also does not model the failure of `user: { connect }` on an unknown user or of an item whose product is missing, because the order store holds no user or product table.
- Catalog.ProductStore.Create: does not model that a failed insert still uses up an auto-increment value; the model leaves `nextId` unchanged.
- Catalog.ProductStore.Update: does not model the error that an absent `categoryId` would cause.
- Negative `take` is Prisma's backwards pagination. The model refuses it as `InvalidWindow`, as it does a negative `skip`.
- The database's case-insensitive mode follows the locale collation. The model lower-cases ASCII letters only.
- Ties between equal sort keys come in the order an insertion sort gives them. The properties state sortedness and permutation only.
- The `reviews` of the product projection (src/product/return-product.object.ts) and the review service, with its floating-point average, are not modelled.
- Controllers, guards, modules, DTO validation decorators and the seeder are not modelled. They hold no logic of the three services. src/order/order.controller.ts calls `getAll()` without a user id and a `getByUserId` that the service lacks; the model follows the service, `getAll(userId)`.
- Concurrency and `async` scheduling are not modelled. Each operation is one atomic step on the tables.
