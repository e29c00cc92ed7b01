/** The order ledger and payment webhook of src/order/order.service.ts over
    an in-memory order table. The total, the order-id parse of the webhook
    and the webhook's effect on the table are functions; OrderStore owns the
    table and applies them. */
module Orders {
  import opened Wrappers
  import opened Seqs
  import opened Sorting
  import opened Text

  datatype OrderStatus = Pending | Payed | Cancelled

  /** A line of an order: the product, how many, and the unit price the
      client sent. */
  datatype OrderItem = OrderItem(productId: int, quantity: int, price: int)

  datatype Order = Order(
    id: int,
    userId: int,
    items: seq<OrderItem>,
    total: int,
    status: OrderStatus,
    createdAt: int)

  /** The body of an order request: the status and the lines, both as sent. */
  datatype OrderDto = OrderDto(status: OrderStatus, items: seq<OrderItem>)

  /** The fields of a payment notification the webhook reads: the event
      type, the payment object's id and its description, which a payment
      object need not carry. */
  datatype PaymentEvent = PaymentEvent(event: string, objectId: string, description: Option<string>)

  /** What the webhook answers: the gateway's reply to capturing that
      payment, or `true`. */
  datatype Reply = Captured(paymentId: string) | Acknowledged

  datatype Error =
    | NoDescription   // the payment object has no description to split
    | InvalidOrderId  // the description holds no number after a '#'
    | OrderNotFound   // no order has the parsed id

  /** The webhook's answer and the order table after it. */
  datatype Step = Step(reply: Result<Reply, Error>, orders: seq<Order>)

  const WaitingForCapture: string := "payment.waiting_for_capture"
  const Succeeded: string := "payment.succeeded"

  // ---------------------------------------------------------------------
  // The order total

  function LineAmount(item: OrderItem): (r: int)
  {
    item.price * item.quantity
  }

  /** `items.reduce((acc, item) => acc + item.price * item.quantity, acc)`:
      the fold starting at `acc` adds the sum of the line amounts to it. */
  function FoldTotal(acc: int, items: seq<OrderItem>): (r: int)
    ensures r == acc + SumOfLines(items)
    decreases |items|
  {
    if items == [] then acc
    else
      SumOfLinesFirst(items);
      FoldTotal(acc + LineAmount(items[0]), items[1..])
  }

  /** The total an order is stored with. */
  function Total(items: seq<OrderItem>): (r: int)
    ensures r == SumOfLines(items)
  {
    FoldTotal(0, items)
  }

  /** The sum of the line amounts, the last line added last. */
  function SumOfLines(items: seq<OrderItem>): (r: int)
  {
    if items == [] then 0 else SumOfLines(items[..|items| - 1]) + LineAmount(items[|items| - 1])
  }

  lemma {:induction false} SumOfLinesFirst(items: seq<OrderItem>)
    requires items != []
    ensures SumOfLines(items) == LineAmount(items[0]) + SumOfLines(items[1..])
  {
    if |items| > 1 {
      SumOfLinesFirst(items[..|items| - 1]);
      assert items[..|items| - 1][1..] == items[1..][..|items[1..]| - 1];
    }
  }

  /** The stored total is the sum of price times quantity over the lines;
      no lines give 0, and the total of two carts together is the sum of
      their totals. */
  lemma TotalIsSumOfLines(items: seq<OrderItem>, more: seq<OrderItem>)
    ensures Total(items) == SumOfLines(items)
    ensures Total([]) == 0
    ensures Total(items + more) == Total(items) + Total(more)
  {
    SumOfLinesAppend(items, more);
  }

  lemma {:induction false} SumOfLinesAppend(a: seq<OrderItem>, b: seq<OrderItem>)
    ensures SumOfLines(a + b) == SumOfLines(a) + SumOfLines(b)
  {
    if b != [] {
      SumOfLinesAppend(a, b[..|b| - 1]);
      assert (a + b)[..|a + b| - 1] == a + b[..|b| - 1];
    } else {
      assert a + b == a;
    }
  }

  /** No line is checked; when every quantity is positive and every price
      non-negative the total is not negative. */
  lemma {:induction false} TotalNonNegative(items: seq<OrderItem>)
    requires forall i :: 0 <= i < |items| ==> items[i].quantity > 0 && items[i].price >= 0
    ensures Total(items) >= 0
  {
    SumNonNegative(items);
  }

  lemma {:induction false} SumNonNegative(items: seq<OrderItem>)
    requires forall i :: 0 <= i < |items| ==> items[i].quantity > 0 && items[i].price >= 0
    ensures SumOfLines(items) >= 0
  {
    if items != [] {
      SumNonNegative(items[..|items| - 1]);
      var last := items[|items| - 1];
      assert last.price * last.quantity >= 0;
    }
  }

  // ---------------------------------------------------------------------
  // The order id in a payment description

  /** `Number(description.split('#')[1])`: the text between the first '#'
      and the next one (or the end), read as a number. Without a '#' the
      piece is `undefined` and there is no number. An id is read only from
      a description that holds a '#', and it is never negative. */
  function ParseOrderId(description: string): (r: Option<int>)
    ensures r.Some? ==> '#' in description && r.value >= 0
  {
    var parts := Split(description, '#');
    if |parts| < 2 then None
    else
      JoinSplit(description, '#');
      JoinHasSeparator(parts, '#');
      match ParseDigits(parts[1])
      case None => None
      case Some(n) => Some(n)
  }

  /** A description `prefix#<n>`, optionally followed by more '#'-separated
      text, carries the order id `n`. */
  lemma OrderIdAfterHash(prefix: string, n: nat, rest: seq<string>)
    requires '#' !in prefix
    requires forall i :: 0 <= i < |rest| ==> '#' !in rest[i]
    ensures ParseOrderId(Join([prefix, Show(n)] + rest, '#')) == Some(n)
  {
    var parts := [prefix, Show(n)] + rest;
    assert '#' !in Show(n);
    SplitJoin(parts, '#');
    ParseShow(n);
  }

  /** For example, "Order #42" is order 42. */
  lemma OrderHashFortyTwo()
    ensures ParseOrderId("Order #42") == Some(42)
  {
    OrderIdAfterHash("Order ", 42, []);
    assert Show(42) == "42";
    assert Join(["Order ", "42"], '#') == "Order #42";
  }

  lemma JoinHasSeparator(parts: seq<string>, c: char)
    requires |parts| >= 2
    ensures c in Join(parts, c)
  {
    assert Join(parts, c) == parts[0] + [c] + Join(parts[1..], c);
    assert Join(parts, c)[|parts[0]|] == c;
  }

  // ---------------------------------------------------------------------
  // The webhook

  predicate HasOrder(orders: seq<Order>, id: int)
  {
    exists i :: 0 <= i < |orders| && orders[i].id == id
  }

  /** The table with the status of the order `id` overwritten. */
  function SetStatus(orders: seq<Order>, id: int, status: OrderStatus): (r: seq<Order>)
    ensures |r| == |orders|
  {
    seq(|orders|, i requires 0 <= i < |orders| =>
      if orders[i].id == id then orders[i].(status := status) else orders[i])
  }

  /** The webhook's effect: capture a payment awaiting capture, mark the
      order named in a success notice as paid, ignore anything else. The
      table keeps its length and changes only on an acknowledged success
      notice; a failure changes nothing. */
  function Reconcile(orders: seq<Order>, ev: PaymentEvent): (r: Step)
    ensures |r.orders| == |orders|
    ensures r.orders != orders ==> ev.event == Succeeded && r.reply == Ok(Acknowledged)
    ensures r.reply.Err? ==> r.orders == orders && ev.event == Succeeded
  {
    if ev.event == WaitingForCapture then Step(Ok(Captured(ev.objectId)), orders)
    else if ev.event == Succeeded then
      match ev.description
      case None => Step(Err(NoDescription), orders)
      case Some(description) =>
        match ParseOrderId(description)
        case None => Step(Err(InvalidOrderId), orders)
        case Some(id) =>
          if HasOrder(orders, id) then Step(Ok(Acknowledged), SetStatus(orders, id, Payed))
          else Step(Err(OrderNotFound), orders)
    else Step(Ok(Acknowledged), orders)
  }

  /** A success notice for an existing order answers `true` and makes that
      order PAYED whatever its status was (even CANCELLED); every other
      order, and every other field of that order, is unchanged. */
  lemma SucceededMarksPayed(orders: seq<Order>, ev: PaymentEvent, id: int)
    requires ev.event == Succeeded && ev.description.Some?
    requires ParseOrderId(ev.description.value) == Some(id)
    requires HasOrder(orders, id)
    ensures var after := Reconcile(orders, ev);
            && after.reply == Ok(Acknowledged)
            && |after.orders| == |orders|
            && (forall i :: 0 <= i < |orders| && orders[i].id == id ==>
                  after.orders[i].status == Payed
                  && after.orders[i] == orders[i].(status := Payed))
            && (forall i :: 0 <= i < |orders| && orders[i].id != id ==>
                  after.orders[i] == orders[i])
  {
  }

  /** A success notice without a description, one whose description names
      no order, or one naming an order that does not exist, fails and
      changes nothing. */
  lemma SucceededFailures(orders: seq<Order>, ev: PaymentEvent)
    requires ev.event == Succeeded
    ensures ev.description.None? ==>
              Reconcile(orders, ev) == Step(Err(NoDescription), orders)
    ensures ev.description.Some? && ParseOrderId(ev.description.value).None? ==>
              Reconcile(orders, ev) == Step(Err(InvalidOrderId), orders)
    ensures ev.description.Some? && ParseOrderId(ev.description.value).Some? &&
            !HasOrder(orders, ParseOrderId(ev.description.value).value) ==>
              Reconcile(orders, ev) == Step(Err(OrderNotFound), orders)
  {
  }

  /** A payment awaiting capture is captured and the table is left alone;
      any other event but a success notice is answered `true` and the table
      is left alone. */
  lemma OtherEventsLeaveOrders(orders: seq<Order>, ev: PaymentEvent)
    requires ev.event != Succeeded
    ensures Reconcile(orders, ev).orders == orders
    ensures ev.event == WaitingForCapture ==> Reconcile(orders, ev).reply == Ok(Captured(ev.objectId))
    ensures ev.event != WaitingForCapture ==> Reconcile(orders, ev).reply == Ok(Acknowledged)
  {
  }

  /** Delivering the same notification twice gives the same answer and the
      same table as delivering it once. */
  lemma ReconcileIdempotent(orders: seq<Order>, ev: PaymentEvent)
    ensures var once := Reconcile(orders, ev);
            Reconcile(once.orders, ev) == once
  {
    var once := Reconcile(orders, ev);
    if ev.event == Succeeded && ev.description.Some? && ParseOrderId(ev.description.value).Some? {
      var id := ParseOrderId(ev.description.value).value;
      if HasOrder(orders, id) {
        var i :| 0 <= i < |orders| && orders[i].id == id;
        assert once.orders[i].id == id;
        SetStatusIdempotent(orders, id, Payed);
      }
    }
  }

  /** Writing the same status twice is writing it once. */
  lemma SetStatusIdempotent(orders: seq<Order>, id: int, status: OrderStatus)
    ensures SetStatus(SetStatus(orders, id, status), id, status) == SetStatus(orders, id, status)
  {
    var once := SetStatus(orders, id, status);
    assert forall i :: 0 <= i < |once| ==> SetStatus(once, id, status)[i] == once[i];
  }

  // ---------------------------------------------------------------------
  // Listing a user's orders

  /** The orders of that user, newest first: each of them once, and no
      other order. */
  function GetAll(orders: seq<Order>, userId: int): (r: seq<Order>)
    ensures forall i, j :: 0 <= i < j < |r| ==> r[i].createdAt >= r[j].createdAt
    ensures forall i :: 0 <= i < |r| ==> r[i] in orders && r[i].userId == userId
    ensures forall i :: 0 <= i < |orders| && orders[i].userId == userId ==> orders[i] in r
    ensures multiset(r) == multiset(Filter(orders, (o: Order) => o.userId == userId))
  {
    var mine := Filter(orders, (o: Order) => o.userId == userId);
    SortKeepsMembers(mine, (o: Order) => -o.createdAt);
    SortByKey(mine, (o: Order) => -o.createdAt)
  }

  // ---------------------------------------------------------------------
  // The order table

  /** No two orders share an id. */
  ghost predicate UniqueIds(s: seq<Order>)
  {
    Distinct(s, (o: Order) => o.id)
  }

  /** Overwriting a status keeps every id and every total. */
  lemma SetStatusKeepsKeys(orders: seq<Order>, id: int, status: OrderStatus)
    ensures forall i :: 0 <= i < |orders| ==>
              SetStatus(orders, id, status)[i].id == orders[i].id &&
              SetStatus(orders, id, status)[i].items == orders[i].items &&
              SetStatus(orders, id, status)[i].total == orders[i].total
  {
  }

  /** The order table. Ids are handed out in increasing order starting at
      1, as an auto-increment key. `captured` records, for the proof only,
      the payments the webhook asked the gateway to capture. */
  class OrderStore {
    var orders: seq<Order>
    var nextId: int
    ghost var captured: seq<string>

    /** Ids are unique and below `nextId`, and every stored total is the
        total of the stored lines. */
    ghost predicate Valid()
      reads this
    {
      && nextId >= 1
      && (forall i :: 0 <= i < |orders| ==> 1 <= orders[i].id < nextId)
      && UniqueIds(orders)
      && (forall i :: 0 <= i < |orders| ==> orders[i].total == Total(orders[i].items))
    }

    constructor ()
      ensures Valid()
      ensures orders == [] && nextId == 1 && captured == []
    {
      orders := [];
      nextId := 1;
      captured := [];
    }

    /** Inserts one order with the lines, the status and the user as sent
        and the computed total, and returns it. */
    method PlaceOrder(dto: OrderDto, userId: int, now: int) returns (o: Order)
      requires Valid()
      modifies this`orders, this`nextId
      ensures Valid()
      ensures o == Order(old(nextId), userId, dto.items, Total(dto.items), dto.status, now)
      ensures forall i :: 0 <= i < |old(orders)| ==> old(orders)[i].id != o.id
      ensures orders == old(orders) + [o] && nextId == old(nextId) + 1
    {
      var total := FoldTotal(0, dto.items);
      o := Order(nextId, userId, dto.items, total, dto.status, now);
      orders := orders + [o];
      nextId := nextId + 1;
    }

    /** Handles a payment notification. */
    method UpdateStatus(ev: PaymentEvent) returns (r: Result<Reply, Error>)
      requires Valid()
      modifies this`orders, this`captured
      ensures Valid()
      ensures Step(r, orders) == Reconcile(old(orders), ev)
      ensures captured == if ev.event == WaitingForCapture then old(captured) + [ev.objectId]
                          else old(captured)
    {
      if ev.event == WaitingForCapture {
        captured := captured + [ev.objectId];
        return Ok(Captured(ev.objectId));
      }
      if ev.event == Succeeded {
        if ev.description.None? {
          return Err(NoDescription);
        }
        var orderId := ParseOrderId(ev.description.value);
        if orderId.None? {
          return Err(InvalidOrderId);
        }
        if !(exists i :: 0 <= i < |orders| && orders[i].id == orderId.value) {
          return Err(OrderNotFound);
        }
        SetStatusKeepsKeys(orders, orderId.value, Payed);
        orders := SetStatus(orders, orderId.value, Payed);
        return Ok(Acknowledged);
      }
      r := Ok(Acknowledged);
    }
  }

  /** Checkout and payment of two lines, 2 x 500 and 1 x 250, for user 7:
      the order is stored PENDING with total 1250, and the success notice
      naming it makes it PAYED. */
  method CheckoutThenPay()
  {
    var store := new OrderStore();
    var o := store.PlaceOrder(OrderDto(Pending, [OrderItem(1, 2, 500), OrderItem(2, 1, 250)]), 7, 0);
    assert o.total == 1250 && o.status == Pending && o.id == 1;
    var description := Join(["Order ", Show(1)], '#');
    OrderIdAfterHash("Order ", 1, []);
    var r := store.UpdateStatus(PaymentEvent(Succeeded, "p1", Some(description)));
    assert store.orders[0].id == 1;
    assert r == Ok(Acknowledged) && store.orders[0].status == Payed;
  }
}
