/** Orders, and what an order event makes of the order it carries. */
module Orders {

  /** A filled quantity this close to the ordered one counts as complete. */
  const FILL_EPSILON: real := 0.000000001

  datatype OrderStatus = Initialized | Submitted | Accepted | Rejected | PartiallyFilled | Filled | Canceled

  datatype Order = Order(id: string, client: string, timestamp: int, quantity: real, filled: real, status: OrderStatus)

  datatype EventKind =
    | OrderSubmitted
    | OrderAccepted
    | OrderRejected
    | OrderFilled(quantity: real)
    | OrderCanceled
    | OrderDenied

  /** A denied order is stored as rejected. The timestamp stays that of the order. */
  function Progressed(o: Order, kind: EventKind): (after: Order)
    ensures after.id == o.id && after.timestamp == o.timestamp
  {
    match kind
    case OrderSubmitted => o.(status := Submitted)
    case OrderAccepted => o.(status := Accepted)
    case OrderRejected => o.(status := Rejected)
    case OrderCanceled => o.(status := Canceled)
    case OrderDenied => o.(status := Rejected)
    case OrderFilled(quantity) =>
      var filled := o.filled + quantity;
      o.(filled := filled, status := if filled >= o.quantity - FILL_EPSILON then Filled else PartiallyFilled)
  }

  function ProgressedAll(o: Order, kinds: seq<EventKind>): Order {
    if kinds == [] then o else Progressed(ProgressedAll(o, kinds[..|kinds| - 1]), kinds[|kinds| - 1])
  }

  /** The quantity filled by a run of events. */
  function FilledBy(kinds: seq<EventKind>): real {
    if kinds == [] then 0.0
    else
      var last := |kinds| - 1;
      FilledBy(kinds[..last]) + (if kinds[last].OrderFilled? then kinds[last].quantity else 0.0)
  }

  /** Over any run of events fills add up and nothing else of the order changes but its status, which is that of the
      last event: after a fill it is filled exactly if all fills together reach the ordered quantity. */
  lemma {:induction false} FillsAddUp(o: Order, kinds: seq<EventKind>)
    ensures var after := ProgressedAll(o, kinds);
            && after.filled == o.filled + FilledBy(kinds)
            && after.(filled := o.filled, status := o.status) == o
            && (kinds == [] ==> after.status == o.status)
            && (kinds != [] ==> StatusFits(after, kinds[|kinds| - 1]))
  {
    if kinds != [] {
      FillsAddUp(o, kinds[..|kinds| - 1]);
    }
  }

  predicate StatusFits(o: Order, last: EventKind) {
    && (last.OrderFilled? <==> o.status.Filled? || o.status.PartiallyFilled?)
    && (last.OrderFilled? ==> (o.status.Filled? <==> o.quantity - o.filled <= FILL_EPSILON))
    && (o.status.Submitted? <==> last.OrderSubmitted?) && (o.status.Accepted? <==> last.OrderAccepted?)
    && (o.status.Canceled? <==> last.OrderCanceled?)
    && (o.status.Rejected? <==> last.OrderRejected? || last.OrderDenied?)
  }
}
